/** `src/collectors/url_fetcher.py`: fetching one URL given as the query. The
    URL is checked first (scheme and host, read the way `urllib.parse.urlsplit`
    reads them), then the page is fetched, and an HTML page is reduced to its
    title and visible text by three regular-expression substitutions. The
    response and the current time are inputs. */
module UrlFetcher {
  import opened Common
  import opened Scan
  import opened Json
  import opened Models
  import opened DateTimes

  // ---------------------------------------------------------------------------
  // Splitting a URL as urlsplit does
  // ---------------------------------------------------------------------------

  /** The characters `urlsplit` strips from the front: C0 controls and space. */
  predicate IsC0OrSpace(c: char) { c <= ' ' }

  /** Tab, carriage return and line feed, which `urlsplit` deletes wherever they are. */
  predicate NotTabOrNewline(c: char) { c != '\t' && c != '\r' && c != '\n' }

  predicate IsAsciiLetter(c: char) { 'a' <= c <= 'z' || 'A' <= c <= 'Z' }

  /** The characters a scheme may consist of. */
  predicate SchemeChar(c: char) { IsAsciiLetter(c) || IsAsciiDigit(c) || c == '+' || c == '-' || c == '.' }

  predicate NotNetlocEnd(c: char) { c != '/' && c != '?' && c != '#' }

  /** The URL as `urlsplit` starts working on it. */
  function Sanitize(url: string): string {
    Filter(NotTabOrNewline, TrimStart(url, IsC0OrSpace))
  }

  /** The scheme, lower-cased, and what follows its colon; no scheme when the
      part before the first colon is empty, does not start with an ASCII letter
      or holds a character no scheme may hold. */
  function SplitScheme(u: string): (string, string) {
    match Find(u, ':', 0)
    case Some(i) =>
      if i > 0 && IsAsciiLetter(u[0]) && AllChars(u[..i], SchemeChar) then (Lower(u[..i]), u[i + 1..])
      else ("", u)
    case None => ("", u)
  }

  /** The network location: after `//`, up to the first `/`, `?` or `#`. */
  function Netloc(rest: string): string {
    if StartsWith(rest, "//") then rest[2..RunEnd(rest, NotNetlocEnd, 2)] else ""
  }

  datatype Parts = Parts(scheme: string, netloc: string)

  /** `urlsplit(url)`, as far as the scheme and network location go. `None` is
      the `ValueError` it raises for a network location with one bracket but not
      the other, or whose host information has text before its `[` or, after its
      `]`, anything but a port. */
  function Split(url: string): Option<Parts> {
    var split := SplitScheme(Sanitize(url));
    var netloc := Netloc(split.1);
    if ('[' in netloc) != (']' in netloc) || BracketsMisplaced(netloc) then None
    else Some(Parts(split.0, netloc))
  }

  /** `s.partition(c)[2]`: what follows the first `c`, empty when there is none. */
  function Tail(s: string, c: char): (r: string)
    ensures c !in s ==> r == []
  {
    match Find(s, c, 0)
    case Some(k) => s[k + 1..]
    case None => []
  }

  /** The checks `urlsplit` makes on the host information (the network location
      after its user part) when it holds a `[`: text before the bracket, or text
      after the first `]` that does not start with the port's `:`. */
  predicate BracketsMisplaced(netloc: string) {
    var info := HostInfo(netloc);
    match Find(info, '[', 0)
    case None => false
    case Some(b) =>
      var port := Tail(info[b + 1..], ']');
      b > 0 || (port != [] && port[0] != ':')
  }

  /** `s.partition(c)[0]`. */
  function Head(s: string, c: char): (r: string)
    ensures c !in s ==> r == s
  {
    match Find(s, c, 0)
    case Some(k) => s[..k]
    case None => s
  }

  /** The last index of `c` in `s`. */
  function FindLast(s: string, c: char): (r: Option<nat>)
    ensures r.Some? ==> r.value < |s| && s[r.value] == c && c !in s[r.value + 1..]
    ensures r.None? ==> c !in s
  {
    if s == [] then None
    else if s[|s| - 1] == c then Some(|s| - 1)
    else FindLast(s[..|s| - 1], c)
  }

  /** `netloc.rpartition("@")[2]`: the network location without its user part. */
  function HostInfo(netloc: string): string {
    match FindLast(netloc, '@')
    case Some(k) => netloc[k + 1..]
    case None => netloc
  }

  /** The host inside brackets when there is an opening one, else the part
      before the port. */
  function HostPart(hostInfo: string): string {
    match Find(hostInfo, '[', 0)
    case Some(b) => Head(hostInfo[b + 1..], ']')
    case None => Head(hostInfo, ':')
  }

  /** `urlsplit(url).hostname`: lower-cased up to a `%` zone, `None` when empty. */
  function Hostname(netloc: string): (r: Option<string>)
    ensures r.Some? ==> r.value != []
  {
    var h := HostPart(HostInfo(netloc));
    if h == [] then None
    else match Find(h, '%', 0)
      case Some(p) => Some(Lower(h[..p]) + h[p..])
      case None => Some(Lower(h))
  }

  /** The host names `_validate_url` refuses. */
  predicate IsLocalHost(h: string) {
    h == "localhost" || h == "127.0.0.1" || h == "::1"
  }

  // ---------------------------------------------------------------------------
  // Validation
  // ---------------------------------------------------------------------------

  /** Why `collect` fails: the `ValueError` of an unsplittable URL, the two
      validation errors, and the `httpx` errors of the fetch, which carry the
      text `httpx` gives them. */
  datatype Failure =
    | InvalidUrl
    | UnsupportedScheme(scheme: string)
    | LocalHost
    | StatusFailed(status: int, detail: string)
    | TransportFailed(detail: string)

  const Prefix: string := "[url_fetcher] "

  /** The text of the exception raised for a failure: the `ValueError` of the
      URL split, or a `CollectionError`, whose text starts with its source. */
  function Raised(f: Failure): string {
    match f
    case InvalidUrl => "Invalid IPv6 URL"
    case UnsupportedScheme(scheme) => Prefix + ("サポートされていないスキーム: " + scheme)
    case LocalHost => Prefix + "ローカルホストへのアクセスは禁止されています"
    case StatusFailed(_, detail) => Prefix + detail
    case TransportFailed(detail) => Prefix + detail
  }

  /** Every failure but the URL split's is a `CollectionError` naming its source. */
  lemma RaisedSource(f: Failure)
    ensures !f.InvalidUrl? <==> StartsWith(Raised(f), Prefix)
  {
    var r := Raised(f);
    if f.InvalidUrl? {
      assert r[0] != Prefix[0];
    } else {
      assert r == Prefix + r[|Prefix|..];
    }
  }

  /** `_validate_url`: the scheme must be `http` or `https`, and the host must
      not name the local machine. */
  function ValidateUrl(url: string): Result<Parts, Failure> {
    match Split(url)
    case None => Err(InvalidUrl)
    case Some(parts) =>
      if parts.scheme != "http" && parts.scheme != "https" then Err(UnsupportedScheme(parts.scheme))
      else if Hostname(parts.netloc).Some? && IsLocalHost(Hostname(parts.netloc).value) then Err(LocalHost)
      else Ok(parts)
  }

  /** A host that stands alone in a network location: no user part, port,
      bracket, zone, path delimiter or control character. */
  predicate PlainHost(h: string) {
    forall i :: 0 <= i < |h| ==> PlainHostChar(h[i])
  }

  predicate PlainHostChar(c: char) {
    c > ' ' && c != '/' && c != '?' && c != '#' && c != '@' && c != '[' && c != ']' && c != ':' && c != '%'
  }

  /** A character that may appear in a network location as written here. */
  predicate NetlocChar(c: char) {
    c > ' ' && NotNetlocEnd(c)
  }

  predicate PathStart(path: string) {
    (path == [] || path[0] == '/') && AllChars(path, NotTabOrNewline)
  }

  predicate ValidScheme(scheme: string) {
    scheme != [] && IsAsciiLetter(scheme[0]) && AllChars(scheme, SchemeChar)
  }

  /** Nothing to strip or delete in a URL that starts with a letter and holds
      no tab or line break. */
  lemma SanitizeNoop(u: string)
    requires u != [] && u[0] > ' ' && AllChars(u, NotTabOrNewline)
    ensures Sanitize(u) == u
  {
    assert TrimStart(u, IsC0OrSpace) == u;
    FilterAll(NotTabOrNewline, u);
  }

  /** A valid scheme before the first colon is split off, lower-cased. */
  lemma SplitSchemeOf(scheme: string, rest: string)
    requires ValidScheme(scheme)
    ensures SplitScheme(scheme + ":" + rest) == (Lower(scheme), rest)
  {
    var u := scheme + ":" + rest;
    forall j | 0 <= j < |scheme| ensures u[j] != ':' {
      assert u[j] == scheme[j] && SchemeChar(scheme[j]);
    }
    FindIs(u, ':', 0, |scheme|);
    assert u[..|scheme|] == scheme;
    assert u[|scheme| + 1..] == rest;
  }

  /** The network location runs from `//` to the path. */
  lemma NetlocOf(netloc: string, path: string)
    requires AllChars(netloc, NotNetlocEnd)
    requires path == [] || path[0] == '/'
    ensures Netloc("//" + netloc + path) == netloc
  {
    var rest := "//" + netloc + path;
    forall j | 2 <= j < 2 + |netloc| ensures NotNetlocEnd(rest[j]) {
      assert rest[j] == netloc[j - 2];
    }
    RunEndIs(rest, NotNetlocEnd, 2, 2 + |netloc|);
    assert rest[2..2 + |netloc|] == netloc;
  }

  /** Nothing is stripped from or deleted in a URL written as
      `scheme://netloc/path`. */
  lemma ComposedSanitized(scheme: string, netloc: string, path: string)
    requires ValidScheme(scheme) && AllChars(netloc, NetlocChar) && PathStart(path)
    ensures Sanitize(scheme + "://" + netloc + path) == scheme + "://" + netloc + path
  {
    var u := scheme + "://" + netloc + path;
    forall i | 0 <= i < |u| ensures NotTabOrNewline(u[i]) {
      if i < |scheme| {
        assert u[i] == scheme[i] && SchemeChar(scheme[i]);
      } else if |scheme| + 3 <= i < |scheme| + 3 + |netloc| {
        assert u[i] == netloc[i - |scheme| - 3] && NetlocChar(netloc[i - |scheme| - 3]);
      } else if i >= |scheme| + 3 + |netloc| {
        assert u[i] == path[i - |scheme| - 3 - |netloc|];
      }
    }
    assert u[0] == scheme[0];
    SanitizeNoop(u);
  }

  /** `scheme://netloc/path` splits into the scheme, lower-cased, and the
      network location, unless the brackets in the latter are unbalanced or
      misplaced. */
  lemma SplitOf(scheme: string, netloc: string, path: string)
    requires ValidScheme(scheme) && AllChars(netloc, NetlocChar) && PathStart(path)
    ensures Split(scheme + "://" + netloc + path)
         == if ('[' in netloc) != (']' in netloc) || BracketsMisplaced(netloc) then None
            else Some(Parts(Lower(scheme), netloc))
  {
    var rest := "//" + netloc + path;
    var u := scheme + "://" + netloc + path;
    assert Sanitize(u) == u by {
      ComposedSanitized(scheme, netloc, path);
    }
    assert SplitScheme(u) == (Lower(scheme), rest) by {
      assert scheme + ":" + rest == u;
      SplitSchemeOf(scheme, rest);
    }
    assert Netloc(rest) == netloc by {
      assert AllChars(netloc, NotNetlocEnd);
      NetlocOf(netloc, path);
    }
  }

  /** Without a `[` there is no bracket to misplace. */
  lemma NoBracketNotMisplaced(netloc: string)
    requires '[' !in netloc
    ensures !BracketsMisplaced(netloc)
  {
    var info := HostInfo(netloc);
    assert '[' !in info by {
      match FindLast(netloc, '@')
      case Some(k) =>
        forall j | 0 <= j < |info| ensures info[j] != '[' {
          assert info[j] == netloc[k + 1 + j];
        }
      case None =>
    }
  }

  /** A network location where text comes before the `[`, or where the `]` is
      followed by something other than a port, does not split; a bracketed host
      followed by nothing or a port passes these checks. */
  lemma BracketPlacement(pre: string, addr: string, post: string)
    requires '@' !in pre && '@' !in addr && '@' !in post
    requires '[' !in pre && ']' !in addr
    ensures BracketsMisplaced(pre + "[" + addr + "]" + post)
        <==> pre != [] || (post != [] && post[0] != ':')
  {
    var netloc := pre + "[" + addr + "]" + post;
    assert '@' !in netloc by {
      forall j | 0 <= j < |netloc| ensures netloc[j] != '@' {
        if j < |pre| {
          assert netloc[j] == pre[j];
        } else if |pre| < j <= |pre| + |addr| {
          assert netloc[j] == addr[j - |pre| - 1];
        } else if j > |pre| + |addr| + 1 {
          assert netloc[j] == post[j - |pre| - |addr| - 2];
        }
      }
    }
    HostInfoNoUser(netloc);
    forall j | 0 <= j < |pre| ensures netloc[j] != '[' {
      assert netloc[j] == pre[j];
    }
    FindIs(netloc, '[', 0, |pre|);
    var bracketed := netloc[|pre| + 1..];
    assert bracketed == addr + "]" + post;
    FindIs(bracketed, ']', 0, |addr|);
    assert bracketed[|addr| + 1..] == post;
  }

  /** The hostname is the host part, lower-cased, when it has no zone. */
  lemma HostnameOfPart(netloc: string, h: string)
    requires HostPart(HostInfo(netloc)) == h && h != [] && '%' !in h
    ensures Hostname(netloc) == Some(Lower(h))
  {
  }

  /** Without `@` there is no user part to drop. */
  lemma HostInfoNoUser(netloc: string)
    requires '@' !in netloc
    ensures HostInfo(netloc) == netloc
  {
  }

  /** Everything up to the last `@` is the user part. */
  lemma HostInfoAfterUser(user: string, info: string)
    requires '@' !in info
    ensures HostInfo(user + "@" + info) == info
  {
    var netloc := user + "@" + info;
    assert netloc[|user|] == '@';
    assert netloc[|user| + 1..] == info;
  }

  /** Without a bracket, the host part ends at the first colon. */
  lemma HostPartBeforePort(host: string, port: string)
    requires '[' !in host && ':' !in host && '[' !in port
    ensures HostPart(host + ":" + port) == host
  {
    var info := host + ":" + port;
    forall i | 0 <= i < |info| ensures info[i] != '[' {
      if i < |host| {
        assert info[i] == host[i];
      } else if i > |host| {
        assert info[i] == port[i - |host| - 1];
      }
    }
    FindIs(info, ':', 0, |host|);
    assert info[..|host|] == host;
  }

  /** With an opening bracket first, the host part is what the brackets hold. */
  lemma HostPartBracketed(addr: string, suffix: string)
    requires ']' !in addr
    ensures HostPart("[" + addr + "]" + suffix) == addr
  {
    var netloc := "[" + addr + "]" + suffix;
    FindIs(netloc, '[', 0, 0);
    var inner := netloc[1..];
    assert inner == addr + "]" + suffix;
    FindIs(inner, ']', 0, |addr|);
    assert inner[..|addr|] == addr;
  }

  /** The characters of a plain host. */
  lemma PlainHostChars(host: string)
    requires PlainHost(host)
    ensures AllChars(host, NetlocChar)
    ensures '@' !in host && '[' !in host && ']' !in host && ':' !in host && '%' !in host
  {
    forall c | c in host ensures PlainHostChar(c) {
      var i :| 0 <= i < |host| && host[i] == c;
    }
  }

  /** A plain host is its own hostname, lower-cased. */
  lemma HostnamePlain(host: string)
    requires PlainHost(host)
    ensures Hostname(host) == if host == [] then None else Some(Lower(host))
  {
    PlainHostChars(host);
  }

  /** The characters of `user@host:port`. */
  lemma UserHostPortChars(user: string, host: string, port: string)
    requires AllChars(user, PlainHostChar) && PlainHost(host) && AllChars(port, IsAsciiDigit)
    ensures AllChars(user + "@" + host + ":" + port, NetlocChar)
    ensures '[' !in user + "@" + host + ":" + port && ']' !in user + "@" + host + ":" + port
    ensures '@' !in host + ":" + port && '[' !in port
  {
    var netloc := user + "@" + host + ":" + port;
    forall i | 0 <= i < |netloc| ensures NetlocChar(netloc[i]) && netloc[i] != '[' && netloc[i] != ']' {
      if i < |user| {
        assert netloc[i] == user[i] && PlainHostChar(user[i]);
      } else if |user| < i < |user| + 1 + |host| {
        assert netloc[i] == host[i - |user| - 1] && PlainHostChar(host[i - |user| - 1]);
      } else if i > |user| + 1 + |host| {
        assert netloc[i] == port[i - |user| - |host| - 2] && IsAsciiDigit(port[i - |user| - |host| - 2]);
      }
    }
    var info := host + ":" + port;
    forall i | 0 <= i < |info| ensures info[i] != '@' {
      if i < |host| {
        assert info[i] == host[i] && PlainHostChar(host[i]);
      } else if i > |host| {
        assert info[i] == port[i - |host| - 1] && IsAsciiDigit(port[i - |host| - 1]);
      }
    }
    forall i | 0 <= i < |port| ensures port[i] != '[' {
      assert IsAsciiDigit(port[i]);
    }
  }

  /** A user part and a port do not change the hostname. */
  lemma HostnameUserPort(user: string, host: string, port: string)
    requires AllChars(user, PlainHostChar) && PlainHost(host) && host != [] && AllChars(port, IsAsciiDigit)
    ensures Hostname(user + "@" + host + ":" + port) == Some(Lower(host))
  {
    UserHostPortChars(user, host, port);
    PlainHostChars(host);
    HostInfoAfterUser(user, host + ":" + port);
    assert user + "@" + (host + ":" + port) == user + "@" + host + ":" + port;
    HostPartBeforePort(host, port);
    HostnameOfPart(user + "@" + host + ":" + port, host);
  }

  /** Nothing, or a colon and a port number. */
  predicate PortSuffix(suffix: string) {
    suffix == [] || (suffix[0] == ':' && AllChars(suffix[1..], IsAsciiDigit))
  }

  /** The characters of `[::1]` followed by a port. */
  lemma LoopbackChars(suffix: string)
    requires PortSuffix(suffix)
    ensures AllChars("[::1]" + suffix, NetlocChar)
    ensures '@' !in "[::1]" + suffix && '[' in "[::1]" + suffix && ']' in "[::1]" + suffix
  {
    var netloc := "[::1]" + suffix;
    forall i | 0 <= i < |netloc| ensures NetlocChar(netloc[i]) && netloc[i] != '@' {
      if i > 5 {
        assert netloc[i] == suffix[1..][i - 6] && IsAsciiDigit(suffix[1..][i - 6]);
      } else if i == 5 {
        assert netloc[i] == suffix[0];
      }
    }
    assert netloc[0] == '[' && netloc[4] == ']';
  }

  /** The bracketed IPv6 loopback, followed by nothing or a port, passes the
      bracket-placement check. */
  lemma LoopbackPlaced(suffix: string)
    requires PortSuffix(suffix)
    ensures !BracketsMisplaced("[::1]" + suffix)
  {
    var netloc := "[::1]" + suffix;
    LoopbackChars(suffix);
    forall j | 0 <= j < |suffix| ensures suffix[j] != '@' {
      assert netloc[5 + j] == suffix[j];
    }
    assert [] + "[" + "::1" + "]" + suffix == netloc;
    BracketPlacement([], "::1", suffix);
  }

  /** The hostname of the bracketed IPv6 loopback is `::1`. */
  lemma HostnameLoopback(suffix: string)
    requires PortSuffix(suffix)
    ensures Hostname("[::1]" + suffix) == Some("::1")
  {
    var netloc := "[::1]" + suffix;
    assert HostInfo(netloc) == netloc by {
      LoopbackChars(suffix);
      HostInfoNoUser(netloc);
    }
    assert HostPart(netloc) == "::1" by {
      HostPartBracketed("::1", suffix);
      assert "[" + "::1" + "]" + suffix == netloc;
    }
    assert Lower("::1") == "::1";
    HostnameOfPart(netloc, "::1");
  }

  /** Once the URL splits with an accepted scheme, the verdict rests on the
      hostname alone. */
  lemma VerdictOfHost(url: string, parts: Parts)
    requires Split(url) == Some(parts) && parts.scheme in {"http", "https"}
    ensures ValidateUrl(url).Ok? <==> Hostname(parts.netloc).None? || !IsLocalHost(Hostname(parts.netloc).value)
    ensures ValidateUrl(url).Err? ==> ValidateUrl(url) == Err(LocalHost)
  {
  }

  /** A scheme that lower-cases to `http` or `https` is made of letters. */
  lemma HttpSchemeValid(scheme: string)
    requires Lower(scheme) in {"http", "https"}
    ensures ValidScheme(scheme)
  {
    forall i | 0 <= i < |scheme| ensures IsAsciiLetter(scheme[i]) {
      assert Lower(scheme)[i] == LowerChar(scheme[i]);
    }
  }

  /** `http` and `https` are already lower-case. */
  lemma HttpLower(scheme: string)
    requires scheme in {"http", "https"}
    ensures Lower(scheme) == scheme && ValidScheme(scheme)
  {
  }

  /** Over `http` and `https` in any case, a plainly written URL is accepted
      exactly when its host is not `localhost`, `127.0.0.1` or `::1` in any case. */
  lemma AcceptedIff(scheme: string, host: string, path: string)
    requires Lower(scheme) in {"http", "https"}
    requires PlainHost(host) && PathStart(path)
    ensures ValidateUrl(scheme + "://" + host + path).Ok? <==> !IsLocalHost(Lower(host))
    ensures ValidateUrl(scheme + "://" + host + path).Err? ==> ValidateUrl(scheme + "://" + host + path) == Err(LocalHost)
  {
    var url := scheme + "://" + host + path;
    HttpSchemeValid(scheme);
    PlainHostChars(host);
    NoBracketNotMisplaced(host);
    SplitOf(scheme, host, path);
    VerdictOfHost(url, Parts(Lower(scheme), host));
    HostnamePlain(host);
    var h := Hostname(host);
    assert ValidateUrl(url).Ok? <==> h.None? || !IsLocalHost(h.value);
    if host == [] {
      assert h.None?;
      assert Lower(host) == [];
    } else {
      assert h == Some(Lower(host));
      assert ValidateUrl(url).Ok? <==> !IsLocalHost(Lower(host));
    }
  }

  /** Any other scheme is refused and named in the error, whatever the host. */
  lemma OtherSchemeRefused(scheme: string, host: string, path: string)
    requires ValidScheme(scheme) && Lower(scheme) !in {"http", "https"}
    requires PlainHost(host) && PathStart(path)
    ensures ValidateUrl(scheme + "://" + host + path) == Err(UnsupportedScheme(Lower(scheme)))
  {
    PlainHostChars(host);
    NoBracketNotMisplaced(host);
    SplitOf(scheme, host, path);
  }

  /** Upper-case letters do not hide `localhost` or `127.0.0.1`. */
  lemma LocalNamesPlain(host: string)
    requires Lower(host) in {"localhost", "127.0.0.1"}
    ensures PlainHost(host) && host != []
  {
    forall i | 0 <= i < |host| ensures PlainHostChar(host[i]) {
      assert Lower(host)[i] == LowerChar(host[i]);
    }
  }

  /** A user part, upper-case letters or a port do not hide `localhost` or
      `127.0.0.1`. */
  lemma LocalHostThroughUserAndPort(scheme: string, user: string, host: string, port: string, path: string)
    requires scheme in {"http", "https"}
    requires Lower(host) in {"localhost", "127.0.0.1"}
    requires AllChars(user, PlainHostChar)
    requires AllChars(port, IsAsciiDigit)
    requires PathStart(path)
    ensures ValidateUrl(scheme + "://" + (user + "@" + host + ":" + port) + path) == Err(LocalHost)
  {
    var netloc := user + "@" + host + ":" + port;
    LocalNamesPlain(host);
    UserHostPortChars(user, host, port);
    NoBracketNotMisplaced(netloc);
    HttpLower(scheme);
    SplitOf(scheme, netloc, path);
    HostnameUserPort(user, host, port);
    VerdictOfHost(scheme + "://" + netloc + path, Parts(scheme, netloc));
  }

  /** The IPv6 loopback in brackets, with or without a port, is refused. */
  lemma LoopbackV6Refused(scheme: string, suffix: string, path: string)
    requires scheme in {"http", "https"}
    requires PortSuffix(suffix)
    requires PathStart(path)
    ensures ValidateUrl(scheme + "://" + ("[::1]" + suffix) + path) == Err(LocalHost)
  {
    var netloc := "[::1]" + suffix;
    LoopbackChars(suffix);
    LoopbackPlaced(suffix);
    HttpLower(scheme);
    SplitOf(scheme, netloc, path);
    HostnameLoopback(suffix);
    VerdictOfHost(scheme + "://" + netloc + path, Parts(scheme, netloc));
  }

  /** Text before a bracketed host, or anything but a port after it, makes the
      URL fail to split, before the scheme or the host is looked at. */
  lemma MisplacedBracketInvalid(scheme: string, pre: string, addr: string, post: string, path: string)
    requires ValidScheme(scheme) && PathStart(path)
    requires AllChars(pre + "[" + addr + "]" + post, NetlocChar)
    requires '@' !in pre && '@' !in addr && '@' !in post
    requires '[' !in pre && ']' !in addr
    requires pre != [] || (post != [] && post[0] != ':')
    ensures ValidateUrl(scheme + "://" + (pre + "[" + addr + "]" + post) + path) == Err(InvalidUrl)
  {
    var netloc := pre + "[" + addr + "]" + post;
    BracketPlacement(pre, addr, post);
    SplitOf(scheme, netloc, path);
  }

  /** A bare host name followed by a path holds no colon before its path. */
  lemma SchemelessSplit(host: string, path: string)
    requires PlainHost(host) && host != [] && IsAsciiLetter(host[0])
    requires PathStart(path)
    ensures SplitScheme(host + path) == ("", host + path)
  {
    var u := host + path;
    forall j | 0 <= j < |host| ensures u[j] != ':' {
      assert u[j] == host[j] && PlainHostChar(host[j]);
    }
    var f := Find(u, ':', 0);
    if f.Some? {
      assert f.value >= |host|;
      if f.value > |host| {
        assert u[..f.value][|host|] == '/';
      }
    }
  }

  /** A bare host name followed by a path is not changed by sanitising. */
  lemma SchemelessSanitized(host: string, path: string)
    requires PlainHost(host) && host != [] && IsAsciiLetter(host[0])
    requires PathStart(path)
    ensures Sanitize(host + path) == host + path
  {
    var u := host + path;
    forall i | 0 <= i < |u| ensures NotTabOrNewline(u[i]) {
      if i < |host| {
        assert u[i] == host[i] && PlainHostChar(host[i]);
      } else {
        assert u[i] == path[i - |host|];
      }
    }
    assert u[0] == host[0];
    SanitizeNoop(u);
  }

  /** Without `://` the URL names no host; a bare host name has no scheme and
      is refused as one. */
  lemma SchemelessRefused(host: string, path: string)
    requires PlainHost(host) && host != [] && IsAsciiLetter(host[0])
    requires PathStart(path)
    ensures ValidateUrl(host + path) == Err(UnsupportedScheme(""))
  {
    SchemelessSanitized(host, path);
    SchemelessSplit(host, path);
    assert (host + path)[0] == host[0];
    assert Netloc(host + path) == "";
  }

  // ---------------------------------------------------------------------------
  // The text of an HTML page
  // ---------------------------------------------------------------------------

  /** The lower-case `name`, in any case, at index `a` of `s`. */
  predicate NameAt(s: string, name: string, a: nat) {
    a + |name| <= |s| && forall i :: 0 <= i < |name| ==> LowerChar(s[a + i]) == name[i]
  }

  /** `s` starts with `<` and the lower-case `name` in any case. */
  predicate Opens(s: string, name: string) {
    s != [] && s[0] == '<' && NameAt(s, name, 1)
  }

  /** `</name>`, in any case, at index `j` of `s`. */
  predicate ClosesAt(s: string, name: string, j: nat) {
    j + |name| + 3 <= |s| && s[j] == '<' && s[j + 1] == '/'
    && NameAt(s, name, j + 2) && s[j + 2 + |name|] == '>'
  }

  /** The first closing tag `</name>` at or after `i`. */
  function FindClose(s: string, name: string, i: nat): (r: Option<nat>)
    ensures r.Some? ==> i <= r.value && ClosesAt(s, name, r.value)
    ensures r.Some? ==> forall j :: i <= j < r.value ==> !ClosesAt(s, name, j)
    ensures r.None? ==> forall j :: i <= j ==> !ClosesAt(s, name, j)
    decreases |s| - i
  {
    if i + |name| + 3 > |s| then None
    else if ClosesAt(s, name, i) then Some(i)
    else FindClose(s, name, i + 1)
  }

  /** `<name[^>]*>[\s\S]*?</name>` at the start of `s`, ignoring case: the
      opening tag runs to its first `>`, the body to the first closing tag. */
  function BlockFor(s: string, name: string): (r: Option<Hit>)
    ensures r.Some? ==> 0 < r.value.len <= |s| && r.value.replacement == ""
  {
    if !Opens(s, name) then None
    else match Find(s, '>', |name| + 1)
      case None => None
      case Some(k) =>
        match FindClose(s, name, k + 1)
        case None => None
        case Some(j) => Some(Hit(j + |name| + 3, ""))
  }

  /** `<(script|style)[^>]*>[\s\S]*?</\1>` with `re.IGNORECASE`, replaced by nothing. */
  function BlockMatch(s: string): Option<Hit> {
    if BlockFor(s, "script").Some? then BlockFor(s, "script") else BlockFor(s, "style")
  }

  /** `<[^>]+>`, replaced by a space: a `<`, at least one character other
      than `>`, and the first `>`. */
  function TagMatch(s: string): Option<Hit> {
    if s == [] || s[0] != '<' then None
    else match Find(s, '>', 1)
      case Some(k) => if k >= 2 then Some(Hit(k + 1, " ")) else None
      case None => None
  }

  function DropBlocks(html: string): string {
    ReSub(html, BlockMatch)
  }

  function TagsToSpaces(s: string): string {
    ReSub(s, TagMatch)
  }

  /** `_extract_text_from_html`: script and style blocks removed, the other
      tags turned into spaces, whitespace runs collapsed to one space, and the
      result stripped. */
  function ExtractText(html: string): string {
    Strip(SqueezeRuns(TagsToSpaces(DropBlocks(html)), IsSpace, ' ', false), IsSpace)
  }

  /** No tag can be matched in `s`: every `<` is followed at once by `>`, or by
      no `>` at all. */
  predicate TagFree(s: string) {
    forall i :: 0 <= i < |s| && s[i] == '<' ==> (i + 1 < |s| && s[i + 1] == '>') || '>' !in s[i + 1..]
  }

  lemma TagFreeCons(c: char, s: string)
    requires TagFree(s)
    requires c == '<' ==> (s != [] && s[0] == '>') || '>' !in s
    ensures TagFree([c] + s)
  {
    var t := [c] + s;
    forall i | 0 <= i < |t| && t[i] == '<'
      ensures (i + 1 < |t| && t[i + 1] == '>') || '>' !in t[i + 1..]
    {
      if i > 0 {
        assert t[i] == s[i - 1];
        assert t[i + 1..] == s[i..];
      } else {
        assert t[1..] == s;
      }
    }
  }

  lemma TagFreeTail(s: string)
    requires TagFree(s) && s != []
    ensures TagFree(s[1..])
  {
    var t := s[1..];
    forall i | 0 <= i < |t| && t[i] == '<'
      ensures (i + 1 < |t| && t[i + 1] == '>') || '>' !in t[i + 1..]
    {
      assert s[i + 1] == '<';
      assert t[i + 1..] == s[i + 2..];
    }
  }

  /** With no `>` from `i` on, `Find` finds none. */
  lemma {:induction false} FindNone(s: string, c: char, i: nat)
    requires forall j :: i <= j < |s| ==> s[j] != c
    ensures Find(s, c, i).None?
    decreases |s| - i
  {
    if i < |s| {
      FindNone(s, c, i + 1);
    }
  }

  /** A slice of a text with no `>` has none after its first character. */
  lemma NoCloseIn(s: string, i: nat)
    requires '>' !in s && i <= |s|
    ensures forall j :: 1 <= j < |s[i..]| ==> s[i..][j] != '>'
  {
    forall j | 1 <= j < |s[i..]| ensures s[i..][j] != '>' {
      assert s[i..][j] == s[i + j];
    }
  }

  /** A text with no `>` holds no tag, so turning tags into spaces leaves it alone. */
  lemma NoCloseNoTags(s: string)
    requires '>' !in s
    ensures TagsToSpaces(s) == s
  {
    forall i | 0 <= i < |s| ensures !Hits(TagMatch, s[i..]) {
      NoCloseIn(s, i);
      FindNone(s[i..], '>', 1);
    }
    ReSubNoop(s, TagMatch);
  }

  /** Turning tags into spaces leaves no tag behind. */
  lemma {:induction false} TagsToSpacesTagFree(s: string)
    ensures TagFree(TagsToSpaces(s))
    decreases |s|
  {
    if s == [] {
    } else if Hits(TagMatch, s) {
      var n := TagMatch(s).value.len;
      TagsToSpacesTagFree(s[n..]);
      TagFreeCons(' ', TagsToSpaces(s[n..]));
    } else {
      var rest := TagsToSpaces(s[1..]);
      TagsToSpacesTagFree(s[1..]);
      if s[0] == '<' {
        if |s| > 1 && s[1] == '>' {
          assert !Hits(TagMatch, s[1..]);
          assert rest == [s[1..][0]] + TagsToSpaces(s[2..]) by {
            assert s[1..][1..] == s[2..];
          }
        } else {
          assert Find(s, '>', 1).None?;
          assert '>' !in s[1..] by {
            forall j | 0 <= j < |s[1..]| ensures s[1..][j] != '>' {
              assert s[1..][j] == s[j + 1];
            }
          }
          NoCloseNoTags(s[1..]);
        }
      }
      TagFreeCons(s[0], rest);
    }
  }

  /** Collapsing whitespace keeps a text free of tags. */
  lemma {:induction false} SqueezeTagFree(s: string, inRun: bool)
    requires TagFree(s)
    ensures TagFree(SqueezeRuns(s, IsSpace, ' ', inRun))
    decreases |s|
  {
    if s != [] {
      TagFreeTail(s);
      var rest := SqueezeRuns(s[1..], IsSpace, ' ', IsSpace(s[0]));
      SqueezeTagFree(s[1..], IsSpace(s[0]));
      if !IsSpace(s[0]) {
        if s[0] == '<' {
          if |s| > 1 && s[1] == '>' {
            assert s[1..][0] == '>';
          } else {
            assert '>' !in s[1..] by {
              assert s[0] == '<' && 0 < |s|;
            }
            SqueezeRunsKeeps(s[1..], IsSpace, ' ', false, NotClose);
            assert '>' !in rest by {
              forall j | 0 <= j < |rest| ensures rest[j] != '>' {
                assert NotClose(rest[j]);
              }
            }
          }
        }
        TagFreeCons(s[0], rest);
      } else if !inRun {
        TagFreeCons(' ', rest);
      }
    }
  }

  predicate NotClose(c: char) { c != '>' }

  /** A slice of a text free of tags is free of tags. */
  lemma TagFreeSlice(s: string, lo: nat, hi: nat)
    requires TagFree(s) && lo <= hi <= |s|
    ensures TagFree(s[lo..hi])
  {
    var t := s[lo..hi];
    forall i | 0 <= i < |t| && t[i] == '<'
      ensures (i + 1 < |t| && t[i + 1] == '>') || '>' !in t[i + 1..]
    {
      assert s[lo + i] == '<';
      if !(i + 1 < |t| && t[i + 1] == '>') {
        if lo + i + 1 < |s| && s[lo + i + 1] == '>' {
          assert i + 1 == |t|;
        } else {
          forall j | i + 1 <= j < |t| ensures t[j] != '>' {
            assert t[j] == s[lo + j];
            assert s[lo + j] == s[lo + i + 1..][j - i - 1];
          }
        }
      }
    }
  }

  /** Stripping keeps a text free of tags. */
  lemma StripTagFree(s: string)
    requires TagFree(s)
    ensures TagFree(Strip(s, IsSpace))
  {
    var front := TrimStart(s, IsSpace);
    TagFreeSlice(s, |s| - |front|, |s|);
    TagFreeSlice(front, 0, |TrimEnd(front, IsSpace)|);
  }

  /** In a text free of tags, neither pattern matches anywhere. */
  lemma TagFreeNoMatches(s: string)
    requires TagFree(s)
    ensures forall i :: 0 <= i < |s| ==> !Hits(TagMatch, s[i..]) && !Hits(BlockMatch, s[i..])
  {
    forall i | 0 <= i < |s| ensures !Hits(TagMatch, s[i..]) && !Hits(BlockMatch, s[i..]) {
      var t := s[i..];
      if t[0] == '<' {
        NoCloseAfterOpen(s, i);
      }
    }
  }

  /** A block needs its opening tag closed by a `>`. */
  lemma BlockForUnclosed(s: string, name: string)
    requires Find(s, '>', |name| + 1).None?
    ensures BlockFor(s, name).None?
  {
  }

  /** A block opening tag has a letter right after its `<`. */
  lemma BlockForNotOpen(s: string, name: string)
    requires name != [] && name[0] != '>' && |s| > 1 && s[1] == '>'
    ensures BlockFor(s, name).None?
  {
    assert LowerChar(s[1 + 0]) != name[0];
  }

  /** In a text free of tags, a `<` starts no tag and no block. */
  lemma NoCloseAfterOpen(s: string, i: nat)
    requires TagFree(s) && i < |s| && s[i] == '<'
    ensures !Hits(TagMatch, s[i..]) && !Hits(BlockMatch, s[i..])
  {
    var t := s[i..];
    if |t| > 1 && t[1] == '>' {
      assert Find(t, '>', 1) == Some(1);
      BlockForNotOpen(t, "script");
      BlockForNotOpen(t, "style");
    } else {
      assert '>' !in s[i + 1..];
      forall j | 1 <= j < |t| ensures t[j] != '>' {
        assert t[j] == s[i + 1..][j - 1];
      }
      FindNone(t, '>', 1);
      FindNone(t, '>', 7);
      FindNone(t, '>', 6);
      BlockForUnclosed(t, "script");
      BlockForUnclosed(t, "style");
    }
  }

  /** What `_extract_text_from_html` returns: no leading or trailing
      whitespace, every whitespace character a single space between two other
      characters, and no tag left. */
  lemma ExtractTextShape(html: string)
    ensures var r := ExtractText(html);
      && (r == [] || (!IsSpace(r[0]) && !IsSpace(r[|r| - 1])))
      && AllChars(r, SpaceIsBlank) && SingleSpaced(r) && TagFree(r)
  {
    var tags := TagsToSpaces(DropBlocks(html));
    TagsToSpacesTagFree(DropBlocks(html));
    SqueezeShape(tags);
    StripShape(SqueezeRuns(tags, IsSpace, ' ', false));
  }

  /** No two whitespace characters in a row. */
  predicate SingleSpaced(s: string) {
    forall i :: 0 <= i < |s| - 1 ==> !(IsSpace(s[i]) && IsSpace(s[i + 1]))
  }

  /** Collapsing the whitespace of a text free of tags. */
  lemma SqueezeShape(tags: string)
    requires TagFree(tags)
    ensures var r := SqueezeRuns(tags, IsSpace, ' ', false);
      TagFree(r) && AllChars(r, SpaceIsBlank) && SingleSpaced(r)
  {
    var r := SqueezeRuns(tags, IsSpace, ' ', false);
    SqueezeTagFree(tags, false);
    SqueezeRunsKeeps(tags, IsSpace, ' ', false, SpaceIsBlank);
    SqueezeRunsSingle(tags, IsSpace, ' ', false);
    forall i | 0 <= i < |r| - 1 ensures !(IsSpace(r[i]) && IsSpace(r[i + 1])) {
      assert SpaceIsBlank(r[i]) && SpaceIsBlank(r[i + 1]);
    }
  }

  /** A slice of a single-spaced text is single-spaced. */
  lemma SingleSpacedSlice(s: string, lo: nat, hi: nat)
    requires SingleSpaced(s) && lo <= hi <= |s|
    ensures SingleSpaced(s[lo..hi])
  {
    var t := s[lo..hi];
    forall i | 0 <= i < |t| - 1 ensures !(IsSpace(t[i]) && IsSpace(t[i + 1])) {
      assert t[i] == s[lo + i] && t[i + 1] == s[lo + i + 1];
    }
  }

  /** Stripping a collapsed text free of tags. */
  lemma StripShape(sq: string)
    requires TagFree(sq) && AllChars(sq, SpaceIsBlank) && SingleSpaced(sq)
    ensures var r := Strip(sq, IsSpace);
      && (r == [] || (!IsSpace(r[0]) && !IsSpace(r[|r| - 1])))
      && AllChars(r, SpaceIsBlank) && SingleSpaced(r) && TagFree(r)
  {
    var front := TrimStart(sq, IsSpace);
    var r := Strip(sq, IsSpace);
    StripTagFree(sq);
    StripKeeps(sq, IsSpace, SpaceIsBlank);
    SingleSpacedSlice(sq, |sq| - |front|, |sq|);
    SingleSpacedSlice(front, 0, |r|);
    if r != [] {
      assert front != [] && r[0] == front[0];
    }
  }

  /** A whitespace character is a plain space. */
  predicate SpaceIsBlank(c: char) { IsSpace(c) ==> c == ' ' }

  /** Extracting the text of extracted text changes nothing. */
  lemma ExtractTextIdempotent(html: string)
    ensures ExtractText(ExtractText(html)) == ExtractText(html)
  {
    var r := ExtractText(html);
    ExtractTextShape(html);
    TagFreeNoMatches(r);
    ReSubNoop(r, BlockMatch);
    ReSubNoop(r, TagMatch);
    SqueezeRunsSingles(r, IsSpace, ' ', false);
    StripNoop(r, IsSpace);
  }

  /** Before a `<`, neither pattern matches. */
  lemma NoOpenNoMatch(s: string)
    requires s != [] && s[0] != '<'
    ensures !Hits(TagMatch, s) && !Hits(BlockMatch, s)
  {
  }

  /** A text with no `<` is copied by both substitutions up to what follows it. */
  lemma PlainPrefix(pre: string, rest: string)
    requires '<' !in pre
    ensures ReSub(pre + rest, TagMatch) == pre + ReSub(rest, TagMatch)
    ensures ReSub(pre + rest, BlockMatch) == pre + ReSub(rest, BlockMatch)
  {
    forall j | 0 <= j < |pre| ensures !Hits(TagMatch, (pre + rest)[j..]) && !Hits(BlockMatch, (pre + rest)[j..]) {
      assert (pre + rest)[j..][0] == pre[j];
      NoOpenNoMatch((pre + rest)[j..]);
    }
    ReSubPrefix(pre, rest, TagMatch);
    ReSubPrefix(pre, rest, BlockMatch);
  }

  /** A tag `<...>` at the start of a text becomes one space. */
  lemma TagAt(tag: string, post: string)
    requires tag != [] && '>' !in tag
    ensures TagsToSpaces("<" + tag + ">" + post) == " " + TagsToSpaces(post)
  {
    var s := "<" + tag + ">" + post;
    forall j | 1 <= j < |tag| + 1 ensures s[j] != '>' {
      assert s[j] == tag[j - 1];
    }
    assert s[|tag| + 1] == '>';
    FindIs(s, '>', 1, |tag| + 1);
    assert s[|tag| + 2..] == post;
  }

  /** Behind text without tags, a tag is replaced by one space and the rest is
      scanned on. */
  lemma TagReplaced(pre: string, tag: string, post: string)
    requires '<' !in pre && tag != [] && '>' !in tag
    ensures TagsToSpaces(pre + ("<" + tag + ">") + post) == pre + " " + TagsToSpaces(post)
  {
    assert pre + ("<" + tag + ">") + post == pre + ("<" + tag + ">" + post);
    PlainPrefix(pre, "<" + tag + ">" + post);
    TagAt(tag, post);
  }

  /** The block pattern at the start of `s`, given where its opening tag ends
      (`k`) and where the first closing tag starts (`j`). */
  lemma BlockForAt(s: string, name: string, k: nat, j: nat)
    requires Opens(s, name)
    requires |name| + 1 <= k < |s| && s[k] == '>'
    requires forall i :: |name| + 1 <= i < k ==> s[i] != '>'
    requires k + 1 <= j && ClosesAt(s, name, j)
    requires forall i :: k + 1 <= i < j ==> s[i] != '<'
    ensures BlockFor(s, name) == Some(Hit(j + |name| + 3, ""))
  {
    FindIs(s, '>', |name| + 1, k);
    assert FindClose(s, name, k + 1) == Some(j) by {
      FindCloseAt(s, name, k + 1, j);
    }
  }

  /** With no `<` between `i` and `j`, the first closing tag from `i` on is the
      one at `j`. */
  lemma {:induction false} FindCloseAt(s: string, name: string, i: nat, j: nat)
    requires i <= j && ClosesAt(s, name, j)
    requires forall m :: i <= m < j ==> s[m] != '<'
    ensures FindClose(s, name, i) == Some(j)
    decreases j - i
  {
    if i < j {
      FindCloseAt(s, name, i + 1, j);
    }
  }

  /** A match at the start of the text is replaced and the scan goes on after it. */
  lemma ReSubHit(s: string, matcher: string -> Option<Hit>)
    requires Hits(matcher, s)
    ensures ReSub(s, matcher) == matcher(s).value.replacement + ReSub(s[matcher(s).value.len..], matcher)
  {
  }

  /** A match of the block pattern is dropped and the scan goes on after it. */
  lemma DropAfterMatch(s: string, len: nat)
    requires 0 < len <= |s| && BlockMatch(s) == Some(Hit(len, ""))
    ensures DropBlocks(s) == DropBlocks(s[len..])
  {
    ReSubHit(s, BlockMatch);
  }

  /** An opening `<style` is not an opening `<script`. */
  lemma StyleNotScript(s: string)
    requires Opens(s, "style")
    ensures BlockFor(s, "script").None?
  {
    assert LowerChar(s[1 + 1]) == "style"[1] != "script"[1];
  }

  /** A `script` or `style` block at the start of a text, its tag names in any
      case, is dropped whole: its opening tag ends at the first `>` (index `k`)
      and its body, holding no `<`, runs to the closing tag at index `j`. */
  lemma BlockDropped(s: string, name: string, k: nat, j: nat)
    requires name == "script" || name == "style"
    requires Opens(s, name)
    requires |name| + 1 <= k < |s| && s[k] == '>'
    requires forall i :: |name| + 1 <= i < k ==> s[i] != '>'
    requires k + 1 <= j && ClosesAt(s, name, j)
    requires forall i :: k + 1 <= i < j ==> s[i] != '<'
    ensures DropBlocks(s) == DropBlocks(s[j + |name| + 3..])
  {
    BlockForAt(s, name, k, j);
    if name == "style" {
      StyleNotScript(s);
    }
    DropAfterMatch(s, j + |name| + 3);
  }

  /** Text with no `<` before a block is kept, and the block after it dropped. */
  lemma BlockDroppedAfter(pre: string, block: string, post: string, name: string, k: nat, j: nat)
    requires '<' !in pre
    requires name == "script" || name == "style"
    requires Opens(block, name)
    requires |name| + 1 <= k < |block| && block[k] == '>'
    requires forall i :: |name| + 1 <= i < k ==> block[i] != '>'
    requires k + 1 <= j && j + |name| + 3 == |block| && ClosesAt(block, name, j)
    requires forall i :: k + 1 <= i < j ==> block[i] != '<'
    ensures DropBlocks(pre + block + post) == pre + DropBlocks(post)
  {
    var rest := block + post;
    assert pre + block + post == pre + rest;
    PlainPrefix(pre, rest);
    assert Opens(rest, name) && ClosesAt(rest, name, j) by {
      assert forall i :: 0 <= i < |block| ==> rest[i] == block[i];
    }
    BlockDropped(rest, name, k, j);
    assert rest[j + |name| + 3..] == post;
  }


  // ---------------------------------------------------------------------------
  // The title of an HTML page
  // ---------------------------------------------------------------------------

  /** `<title[^>]*>(.*?)</title>` with `re.IGNORECASE | re.DOTALL` at the start
      of `s`: the text between the end of the opening tag and the first closing
      tag. */
  function TitleAt(s: string): (r: Option<string>)
    ensures r.Some? ==> |r.value| < |s|
  {
    if !Opens(s, "title") then None
    else match Find(s, '>', 6)
      case None => None
      case Some(k) =>
        match FindClose(s, "title", k + 1)
        case None => None
        case Some(j) => Some(s[k + 1..j])
  }

  /** `re.search`: the match at the leftmost position where there is one. */
  function SearchTitle(s: string): Option<string>
    decreases |s|
  {
    if s == [] then None
    else if TitleAt(s).Some? then TitleAt(s)
    else SearchTitle(s[1..])
  }

  /** `_extract_title`: the stripped text of the first title element, or
      "Untitled" when there is none. */
  function ExtractTitle(html: string): string {
    match SearchTitle(html)
    case Some(t) => Strip(t, IsSpace)
    case None => "Untitled"
  }

  /** No title element starts anywhere in `s`. */
  predicate NoTitleOpens(s: string) {
    forall p :: 0 <= p < |s| ==> !Opens(s[p..], "title")
  }

  /** The search passes over a stretch where no title element starts. */
  lemma {:induction false} SearchSkips(pre: string, rest: string)
    requires forall p :: 0 <= p < |pre| ==> !Opens((pre + rest)[p..], "title")
    ensures SearchTitle(pre + rest) == SearchTitle(rest)
  {
    if pre == [] {
      assert pre + rest == rest;
    } else {
      assert (pre + rest)[0..] == pre + rest;
      assert (pre + rest)[1..] == pre[1..] + rest;
      forall p | 0 <= p < |pre[1..]| ensures !Opens((pre[1..] + rest)[p..], "title") {
        assert (pre[1..] + rest)[p..] == (pre + rest)[p + 1..];
      }
      SearchSkips(pre[1..], rest);
    }
  }

  /** The title element at the start of `s`, given where its opening tag ends
      (`k`) and where the first closing tag after it starts (`j`). */
  lemma TitleAtOf(s: string, k: nat, j: nat)
    requires Opens(s, "title")
    requires 6 <= k < |s| && s[k] == '>' && forall i :: 6 <= i < k ==> s[i] != '>'
    requires k + 1 <= j && ClosesAt(s, "title", j)
    requires forall m :: k + 1 <= m < j ==> !ClosesAt(s, "title", m)
    ensures TitleAt(s) == Some(s[k + 1..j])
  {
    FindIs(s, '>', 6, k);
    assert FindClose(s, "title", k + 1) == Some(j) by {
      FindCloseFirst(s, "title", k + 1, j);
    }
  }

  /** The first closing tag from `i` on is at `j` when none comes before it. */
  lemma {:induction false} FindCloseFirst(s: string, name: string, i: nat, j: nat)
    requires i <= j && ClosesAt(s, name, j)
    requires forall m :: i <= m < j ==> !ClosesAt(s, name, m)
    ensures FindClose(s, name, i) == Some(j)
    decreases j - i
  {
    if i < j {
      FindCloseFirst(s, name, i + 1, j);
    }
  }

  /** The title is the stripped text of the first title element: behind text
      where no title element starts, an opening tag ending at `k` and the first
      closing tag after it at `j`. What follows does not matter. */
  lemma TitleFound(pre: string, s: string, k: nat, j: nat)
    requires forall p :: 0 <= p < |pre| ==> !Opens((pre + s)[p..], "title")
    requires Opens(s, "title")
    requires 6 <= k < |s| && s[k] == '>' && forall i :: 6 <= i < k ==> s[i] != '>'
    requires k + 1 <= j && ClosesAt(s, "title", j)
    requires forall m :: k + 1 <= m < j ==> !ClosesAt(s, "title", m)
    ensures ExtractTitle(pre + s) == Strip(s[k + 1..j], IsSpace)
  {
    SearchSkips(pre, s);
    TitleAtOf(s, k, j);
  }

  /** A page where no title element starts is "Untitled". */
  lemma NoTitleUntitled(html: string)
    requires NoTitleOpens(html)
    ensures ExtractTitle(html) == "Untitled"
  {
    assert html + [] == html;
    SearchSkips(html, []);
  }

  /** A title element without its closing tag is no title either. */
  lemma UnclosedTitle(html: string)
    requires forall j :: 0 <= j < |html| ==> !ClosesAt(html, "title", j)
    ensures ExtractTitle(html) == "Untitled"
  {
    forall p | 0 <= p < |html| ensures TitleAt(html[p..]).None? {
      forall j | 0 <= j < |html[p..]| ensures !ClosesAt(html[p..], "title", j) {
        ClosesShift(html, "title", p, j);
      }
    }
    SearchNone(html);
  }

  /** The search finds nothing when no position holds a title element. */
  lemma {:induction false} SearchNone(s: string)
    requires forall p :: 0 <= p < |s| ==> TitleAt(s[p..]).None?
    ensures SearchTitle(s).None?
    decreases |s|
  {
    if s != [] {
      assert s[0..] == s;
      forall p | 0 <= p < |s[1..]| ensures TitleAt(s[1..][p..]).None? {
        assert s[1..][p..] == s[p + 1..];
      }
      SearchNone(s[1..]);
    }
  }

  /** A closing tag in a suffix is a closing tag of the whole text. */
  lemma ClosesShift(s: string, name: string, p: nat, j: nat)
    requires p <= |s|
    ensures ClosesAt(s[p..], name, j) <==> ClosesAt(s, name, p + j)
  {
    if j + |name| + 3 <= |s[p..]| {
      var t := s[p..];
      assert t[j] == s[p + j] && t[j + 1] == s[p + j + 1] && t[j + 2 + |name|] == s[p + j + 2 + |name|];
      assert forall m :: 0 <= m < |t| ==> t[m] == s[p + m];
    }
  }

  // ---------------------------------------------------------------------------
  // collect
  // ---------------------------------------------------------------------------

  /** The final response of the GET, redirects followed: its status, its
      `content-type` header ("" when absent), its decoded text, and the text of
      the error `raise_for_status` raises when the status is not a success. */
  datatype Page = Page(status: int, contentType: string, text: string, statusError: string)

  /** What `collect` returns or raises, and whether it sent the request. */
  datatype Outcome = Outcome(result: Result<seq<CollectedData>, Failure>, requested: bool)

  /** The one item of a fetched page: an HTML page gives its title and its
      text, anything else the URL as title and the raw text as content. */
  function Item(url: string, page: Page, now: DateTime): CollectedData {
    var isHtml := Contains(page.contentType, "html");
    CollectedData("url_fetcher",
                  if isHtml then ExtractTitle(page.text) else url,
                  Some(url),
                  if isHtml then ExtractText(page.text) else page.text,
                  now, None)
  }

  /** `collect(url)`. `answer` is what the GET returns (`Err` is a transport
      error of `httpx`) and `now` the collection time. */
  function Collect(url: string, answer: Result<Page, string>, now: DateTime): (r: Outcome)
    ensures r.requested <==> ValidateUrl(url).Ok?
    ensures !r.requested ==> r.result == Err(ValidateUrl(url).error)
    ensures r.requested && answer.Err? ==> r.result == Err(TransportFailed(answer.error))
    ensures r.requested && answer.Ok? && !IsSuccess(answer.value.status) ==>
      r.result == Err(StatusFailed(answer.value.status, answer.value.statusError))
    ensures r.result.Ok? <==> r.requested && answer.Ok? && IsSuccess(answer.value.status)
    ensures r.result.Ok? ==> r.result.value == [Item(url, answer.value, now)]
  {
    match ValidateUrl(url)
    case Err(f) => Outcome(Err(f), false)
    case Ok(_) =>
      match answer
      case Err(detail) => Outcome(Err(TransportFailed(detail)), true)
      case Ok(page) =>
        if !IsSuccess(page.status) then Outcome(Err(StatusFailed(page.status, page.statusError)), true)
        else Outcome(Ok([Item(url, page, now)]), true)
  }

  /** The item of a page: its source and URL, and for an HTML page a stripped
      title (or "Untitled") and a text that is stripped, single-spaced and free
      of tags; for any other page the URL as title and the text unchanged. */
  lemma ItemShape(url: string, page: Page, now: DateTime)
    ensures var d := Item(url, page, now);
      && d.source == "url_fetcher" && d.url == Some(url) && d.collectedAt == now
      && (!Contains(page.contentType, "html") ==> d.title == url && d.content == page.text)
      && (Contains(page.contentType, "html") ==>
            && (d.title == "Untitled" || d.title == [] || (!IsSpace(d.title[0]) && !IsSpace(d.title[|d.title| - 1])))
            && (d.content == [] || (!IsSpace(d.content[0]) && !IsSpace(d.content[|d.content| - 1])))
            && SingleSpaced(d.content) && TagFree(d.content) && ExtractText(d.content) == d.content)
  {
    if Contains(page.contentType, "html") {
      ExtractTextShape(page.text);
      ExtractTextIdempotent(page.text);
      TitleStripped(page.text);
    }
  }

  /** The title is "Untitled" or has no whitespace at either end. */
  lemma TitleStripped(html: string)
    ensures var t := ExtractTitle(html);
      t == "Untitled" || t == [] || (!IsSpace(t[0]) && !IsSpace(t[|t| - 1]))
  {
    if SearchTitle(html).Some? {
      var front := TrimStart(SearchTitle(html).value, IsSpace);
      var t := TrimEnd(front, IsSpace);
      if t != [] {
        assert t[0] == front[0];
      }
    }
  }

  /** A URL that validation refuses is never fetched, whatever the network
      would have answered. */
  lemma RefusedNotFetched(url: string, a: Result<Page, string>, b: Result<Page, string>, now: DateTime)
    requires ValidateUrl(url).Err?
    ensures !Collect(url, a, now).requested && Collect(url, a, now) == Collect(url, b, now)
  {
  }

  /** Fetching `http://localhost` and its kin is refused before any request. */
  lemma LocalHostNotFetched(scheme: string, host: string, path: string, answer: Result<Page, string>, now: DateTime)
    requires Lower(scheme) in {"http", "https"}
    requires PlainHost(host) && PathStart(path) && IsLocalHost(Lower(host))
    ensures Collect(scheme + "://" + host + path, answer, now) == Outcome(Err(LocalHost), false)
  {
    AcceptedIff(scheme, host, path);
  }
}
