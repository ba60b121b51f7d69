/** Upstream strings: what an operator writes, parsed, and rendered for the resolver. */
module Upstream {
  import opened Text
  import opened Wrappers

  datatype Protocol = Udp | Tcp | Tls | Https | Http3 | Quic

  datatype Error =
    | Empty
    | EmptyFragment
    | UnknownScheme(scheme: string)
    | PathNotAllowed
    | NotAnAddress(authority: string)
    | ImplausibleHost(host: string)
    | PortZero
    | NameOnPlain

  datatype Server = Server(
    protocol: Protocol, host: string, port: nat, path: Option<string>, name: Option<string>)

  type Bits32 = n: nat | n < 0x1_0000_0000
  type Bits128 = n: nat | n < 0x1_0000_0000_0000_0000_0000_0000_0000_0000

  datatype Ip = V4(v4: Bits32) | V6(v6: Bits128)

  /** How addresses are read and written; the library's own business. */
  datatype IpText = IpText(parse: string -> Option<Ip>, show: Ip -> string)

  /** What is asked of it: reading undoes writing, IPv4 text has no colon and IPv6 text has, and
      both are made of what a host may be made of. */
  ghost predicate Lawful(t: IpText) {
    && (forall ip: Ip :: t.parse(t.show(ip)) == Some(ip))
    && (forall s: string :: t.parse(s).Some? ==> (t.parse(s).value.V6? <==> ':' in s))
    && (forall ip: Ip :: IsPlausibleHost(t.show(ip)))
  }

  function Scheme(p: Protocol): string {
    match p
    case Udp => "udp"
    case Tcp => "tcp"
    case Tls => "tls"
    case Https => "https"
    case Http3 => "h3"
    case Quic => "quic"
  }

  function FromScheme(s: string): Option<Protocol> {
    if s == "udp" then Some(Udp)
    else if s == "tcp" then Some(Tcp)
    else if s == "tls" then Some(Tls)
    else if s == "https" then Some(Https)
    else if s == "h3" then Some(Http3)
    else if s == "quic" then Some(Quic)
    else None
  }

  function DefaultPort(p: Protocol): nat {
    match p
    case Udp => 53
    case Tcp => 53
    case Tls => 853
    case Quic => 853
    case Https => 443
    case Http3 => 443
  }

  predicate IsEncrypted(p: Protocol) {
    !p.Udp? && !p.Tcp?
  }

  predicate TakesPath(p: Protocol) {
    p.Https? || p.Http3?
  }

  // --- ports ------------------------------------------------------------------------------

  predicate IsDigit(c: char) {
    '0' <= c <= '9'
  }

  predicate AllDigits(s: string) {
    forall i :: 0 <= i < |s| ==> IsDigit(s[i])
  }

  function DecimalValue(s: string): nat
    requires AllDigits(s)
  {
    if s == "" then 0 else 10 * DecimalValue(s[..|s| - 1]) + (s[|s| - 1] as int - '0' as int)
  }

  /** A 16-bit number: digits, any number of leading zeros, perhaps a plus sign. */
  function ParsePort(s: string): Option<nat> {
    var digits := if StartsWith(s, "+") then s[1..] else s;
    if digits == "" || !AllDigits(digits) || DecimalValue(digits) > 65535 then None
    else Some(DecimalValue(digits))
  }

  function ShowNat(n: nat): (s: string)
    ensures s != "" && AllDigits(s) && DecimalValue(s) == n
  {
    var last := [('0' as int + n % 10) as char];
    if n < 10 then last
    else
      assert (ShowNat(n / 10) + last)[..|ShowNat(n / 10) + last| - 1] == ShowNat(n / 10);
      ShowNat(n / 10) + last
  }

  // --- the authority ------------------------------------------------------------------------

  function LastIndexOf(s: string, c: char): Option<nat> {
    if s == "" then None
    else if s[|s| - 1] == c then Some(|s| - 1)
    else LastIndexOf(s[..|s| - 1], c)
  }

  function Count(s: string, c: char): nat {
    if s == "" then 0 else Count(s[..|s| - 1], c) + if s[|s| - 1] == c then 1 else 0
  }

  predicate HostChar(c: char) {
    || 'a' <= c <= 'z' || 'A' <= c <= 'Z' || IsDigit(c)
    || c == '-' || c == '_' || c == '.' || c == ':'
  }

  predicate IsPlausibleHost(host: string) {
    && 0 < |host| <= 253
    && host[0] != '.' && host[|host| - 1] != '.'
    && forall i :: 0 <= i < |host| ==> HostChar(host[i])
  }

  datatype Authority = Authority(host: string, port: Option<nat>)

  function WithPort(host: string, port: string): Option<Authority> {
    match ParsePort(port)
    case Some(n) => Some(Authority(host, Some(n)))
    case None => None
  }

  function SplitBracketed(rest: string): Option<Authority> {
    match SplitOnce(rest, "]")
    case None => None
    case Some((host, tail)) =>
      if tail == "" then Some(Authority(host, None))
      else if tail[0] == ':' || tail[0] == '@' then WithPort(host, tail[1..])
      else None
  }

  lemma {:induction false} LastIndexIs(s: string, c: char)
    ensures LastIndexOf(s, c).Some? ==>
      LastIndexOf(s, c).value < |s| && s[LastIndexOf(s, c).value] == c && c !in s[LastIndexOf(s, c).value + 1..]
    ensures LastIndexOf(s, c).None? ==> c !in s
  {
    if s != "" && s[|s| - 1] != c {
      LastIndexIs(s[..|s| - 1], c);
      if LastIndexOf(s, c).Some? {
        var k := LastIndexOf(s, c).value;
        assert s[k + 1..] == s[..|s| - 1][k + 1..] + [s[|s| - 1]];
      }
    }
  }

  function SplitPlain(authority: string): Authority {
    LastIndexIs(authority, ':');
    match LastIndexOf(authority, ':')
    case None => Authority(authority, None)
    case Some(k) =>
      match ParsePort(authority[k + 1..])
      case Some(n) => Authority(authority[..k], Some(n))
      case None => Authority(authority, None)
  }

  function SplitAuthority(text: string): Option<Authority> {
    var authority := Trim(text);
    if authority == "" then None
    else if authority[0] == '[' then SplitBracketed(authority[1..])
    else
      LastIndexIs(authority, '@');
      match LastIndexOf(authority, '@')
      case Some(k) => WithPort(authority[..k], authority[k + 1..])
      case None =>
        if Count(authority, ':') > 1 then Some(Authority(authority, None))
        else Some(SplitPlain(authority))
  }

  // --- parsing ------------------------------------------------------------------------------

  function ParseServer(p: Protocol, authority: string, path: Option<string>, name: Option<string>): Result<Server, Error> {
    match SplitAuthority(authority)
    case None => Err(NotAnAddress(authority))
    case Some(Authority(host, written)) =>
      var port := if written.Some? then written.value else DefaultPort(p);
      if !IsPlausibleHost(host) then Err(ImplausibleHost(host))
      else if port == 0 then Err(PortZero)
      else if !IsEncrypted(p) && name.Some? then Err(NameOnPlain)
      else Ok(Server(p, host, port, path, name))
  }

  function ParsePath(p: Protocol, rest: string, name: Option<string>): Result<Server, Error> {
    match SplitOnce(rest, "/")
    case None => ParseServer(p, rest, None, name)
    case Some((authority, path)) =>
      if !TakesPath(p) then Err(PathNotAllowed)
      else ParseServer(p, authority, Some("/" + path), name)
  }

  function ParseScheme(scheme: string, rest: string, name: Option<string>): Result<Server, Error> {
    match FromScheme(scheme)
    case None => Err(UnknownScheme(scheme))
    case Some(p) => ParsePath(p, rest, name)
  }

  function ParseRest(rest: string, name: Option<string>): Result<Server, Error> {
    match SplitOnce(rest, "://")
    case Some((scheme, after)) => ParseScheme(Fold(scheme), after, name)
    case None => ParseScheme("udp", rest, name)
  }

  function Parse(text: string): Result<Server, Error> {
    var s := Trim(text);
    if s == "" then Err(Empty)
    else match SplitOnce(s, "#")
      case None => ParseRest(s, None)
      case Some((rest, name)) =>
        if Trim(name) == "" then Err(EmptyFragment) else ParseRest(Trim(rest), Some(Trim(name)))
  }

  // --- rendering ----------------------------------------------------------------------------

  /** The identity a certificate is checked against. */
  function TlsName(u: Server): Option<string> {
    if !IsEncrypted(u.protocol) then None
    else if u.name.Some? then u.name
    else Some(u.host)
  }

  function Bracket(t: IpText, ip: Ip): string {
    match ip
    case V4(_) => t.show(ip)
    case V6(_) => "[" + t.show(ip) + "]"
  }

  function BracketOrHost(t: IpText, host: string): string {
    match t.parse(host)
    case Some(ip) => Bracket(t, ip)
    case None => host
  }

  function RenderHost(u: Server, host: string): string {
    var base := Scheme(u.protocol) + "://" + (host + ":" + ShowNat(u.port) + (if u.path.Some? then u.path.value else ""));
    if TlsName(u).Some? then base + "#" + TlsName(u).value else base
  }

  function Render(t: IpText, u: Server, address: Option<Ip>): string {
    match address
    case Some(ip) => RenderHost(u, Bracket(t, ip))
    case None => RenderHost(u, BracketOrHost(t, u.host))
  }

  // --- what parsing yields ----------------------------------------------------------------------

  predicate PathOk(path: string) {
    path != "" && path[0] == '/' && '#' !in path && !IsWhite(path[|path| - 1])
  }

  predicate NameOk(name: string) {
    name != "" && Trim(name) == name
  }

  predicate WellFormed(u: Server) {
    && IsPlausibleHost(u.host)
    && 0 < u.port <= 65535
    && (u.path.Some? ==> TakesPath(u.protocol) && PathOk(u.path.value))
    && (u.name.Some? ==> IsEncrypted(u.protocol) && NameOk(u.name.value))
  }

  lemma AuthorityPort(text: string)
    ensures var a := SplitAuthority(text);
      a.Some? && a.value.port.Some? ==> a.value.port.value <= 65535
  {
    hide DecimalValue, Trim, Count, AllDigits;
  }

  lemma ParseServerWellFormed(p: Protocol, authority: string, path: Option<string>, name: Option<string>)
    requires path.Some? ==> TakesPath(p) && PathOk(path.value)
    requires name.Some? ==> NameOk(name.value)
    ensures var r := ParseServer(p, authority, path, name); r.Ok? ==> WellFormed(r.value)
  {
    AuthorityPort(authority);
    hide SplitAuthority, IsPlausibleHost, PathOk, NameOk;
  }

  lemma ParsePathWellFormed(p: Protocol, tail: string, name: Option<string>)
    requires '#' !in tail && (tail == "" || !IsWhite(tail[|tail| - 1]))
    requires name.Some? ==> NameOk(name.value)
    ensures var r := ParsePath(p, tail, name); r.Ok? ==> WellFormed(r.value)
  {
    hide ParseServer, SplitOnce, WellFormed, NameOk, IsWhite, PathOk;
    SplitOnceParts(tail, "/");
    match SplitOnce(tail, "/")
    case None => ParseServerWellFormed(p, tail, None, name);
    case Some((authority, path)) =>
      TailPathOk(tail, authority, path);
      if TakesPath(p) {
        ParseServerWellFormed(p, authority, Some("/" + path), name);
      }
  }

  lemma ParseSchemeWellFormed(scheme: string, tail: string, name: Option<string>)
    requires '#' !in tail && (tail == "" || !IsWhite(tail[|tail| - 1]))
    requires name.Some? ==> NameOk(name.value)
    ensures var r := ParseScheme(scheme, tail, name); r.Ok? ==> WellFormed(r.value)
  {
    hide ParsePath, FromScheme, WellFormed, NameOk, IsWhite;
    match FromScheme(scheme)
    case None =>
    case Some(p) => ParsePathWellFormed(p, tail, name);
  }

  lemma ParseRestWellFormed(rest: string, name: Option<string>)
    requires '#' !in rest && (rest == "" || !IsWhite(rest[|rest| - 1]))
    requires name.Some? ==> NameOk(name.value)
    ensures var r := ParseRest(rest, name); r.Ok? ==> WellFormed(r.value)
  {
    hide ParseScheme, SplitOnce, Fold, WellFormed, NameOk, IsWhite;
    SplitOnceParts(rest, "://");
    match SplitOnce(rest, "://")
    case None => ParseSchemeWellFormed("udp", rest, name);
    case Some((scheme, after)) =>
      TailOk(rest, after);
      ParseSchemeWellFormed(Fold(scheme), after, name);
  }

  lemma TailOk(rest: string, tail: string)
    requires '#' !in rest && (rest == "" || !IsWhite(rest[|rest| - 1]))
    requires |tail| <= |rest| && rest[|rest| - |tail|..] == tail
    ensures '#' !in tail && (tail == "" || !IsWhite(tail[|tail| - 1]))
  {
  }

  lemma TailPathOk(tail: string, authority: string, path: string)
    requires '#' !in tail && (tail == "" || !IsWhite(tail[|tail| - 1]))
    requires tail == authority + "/" + path
    ensures PathOk("/" + path)
  {
    assert tail[|authority|..] == "/" + path;
    TailOk(tail, "/" + path);
  }

  /** `parse` accepts nothing but well-formed servers ... */
  lemma ParsedIsWellFormed(text: string)
    requires Parse(text).Ok?
    ensures WellFormed(Parse(text).value)
  {
    var s := Trim(text);
    TrimEnds(text);
    SplitOnceFirst(s, '#');
    hide Trim, SplitOnce, ParseRest, WellFormed, IsWhite;
    match SplitOnce(s, "#")
    case None =>
      ParseRestWellFormed(s, None);
    case Some((rest, name)) =>
      TrimEnds(rest);
      TrimEnds(name);
      TrimKeeps(rest, '#');
      if Trim(name) != "" {
        ParseRestWellFormed(Trim(rest), Some(Trim(name)));
      }
  }

  // --- reading back an authority -------------------------------------------------------------

  lemma {:induction false} CountAppend(a: string, b: string, c: char)
    ensures Count(a + b, c) == Count(a, c) + Count(b, c)
  {
    if b == "" {
      assert a + b == a;
    } else {
      CountAppend(a, b[..|b| - 1], c);
      assert (a + b)[..|a + b| - 1] == a + b[..|b| - 1];
    }
  }

  lemma {:induction false} CountIsPresence(s: string, c: char)
    ensures Count(s, c) > 0 <==> c in s
  {
    if s != "" {
      CountIsPresence(s[..|s| - 1], c);
      assert s == s[..|s| - 1] + [s[|s| - 1]];
    }
  }

  lemma {:induction false} LastIndexAt(a: string, c: char, b: string)
    requires c !in b
    ensures LastIndexOf(a + [c] + b, c) == Some(|a|)
  {
    var s := a + [c] + b;
    if b != "" {
      LastIndexAt(a, c, b[..|b| - 1]);
      assert s[..|s| - 1] == a + [c] + b[..|b| - 1];
    } else {
      assert s == a + [c];
    }
  }

  lemma PortReadsBack(n: nat)
    requires n <= 65535
    ensures ParsePort(ShowNat(n)) == Some(n)
  {
    var s := ShowNat(n);
    assert IsDigit(s[0]);
    hide ShowNat, DecimalValue;
  }

  lemma DigitsAre(s: string, c: char)
    requires AllDigits(s) && !IsDigit(c)
    ensures c !in s
  {
  }

  lemma PlausibleLacks(host: string, c: char)
    requires IsPlausibleHost(host) && !HostChar(c)
    ensures c !in host
  {
  }

  lemma PlausibleEnds(host: string)
    requires IsPlausibleHost(host)
    ensures !IsWhite(host[0]) && !IsWhite(host[|host| - 1]) && host[0] != '['
    ensures Trim(host) == host
  {
    assert HostChar(host[0]) && HostChar(host[|host| - 1]);
    TrimIsAll(host);
    hide Trim;
  }

  lemma DigitsEnd(digits: string)
    requires AllDigits(digits) && digits != ""
    ensures !IsWhite(digits[|digits| - 1])
  {
    assert IsDigit(digits[|digits| - 1]);
  }

  lemma TrimmedAuthority(host: string, port: nat)
    requires host != "" && !IsWhite(host[0])
    ensures Trim(host + ":" + ShowNat(port)) == host + ":" + ShowNat(port)
  {
    var s := host + ":" + ShowNat(port);
    DigitsEnd(ShowNat(port));
    TrimIsAll(s);
    hide Trim, ShowNat, IsWhite;
  }

  lemma ColonFreeHostReadsBack(host: string, port: nat)
    requires IsPlausibleHost(host) && ':' !in host && port <= 65535
    ensures SplitAuthority(host + ":" + ShowNat(port)) == Some(Authority(host, Some(port)))
  {
    var digits := ShowNat(port);
    var s := host + ":" + digits;
    PlausibleEnds(host);
    PlausibleLacks(host, '@');
    TrimmedAuthority(host, port);
    PortReadsBack(port);
    DigitsAre(digits, ':');
    DigitsAre(digits, '@');
    hide ShowNat, IsPlausibleHost, Trim, ParsePort, HostChar, IsDigit, AllDigits;
    CountIsPresence(host, ':');
    CountIsPresence(digits, ':');
    CountAppend(host + ":", digits, ':');
    CountAppend(host, ":", ':');
    assert Count(":", ':') == 1;
    LastIndexAt(host, ':', digits);
    LastIndexIs(s, '@');
    assert '@' !in s;
    assert s[..|host|] == host && s[|host| + 1..] == digits;
    hide Count, LastIndexOf;
    assert s[0] == host[0];
  }

  lemma BracketsSplit(host: string, digits: string)
    requires ']' !in host
    ensures SplitBracketed(host + "]" + (":" + digits)) == WithPort(host, digits)
  {
    SplitOnceAt(host, "]", ":" + digits);
    assert (":" + digits)[1..] == digits;
    hide SplitOnce, WithPort;
  }

  lemma BracketedHostReadsBack(host: string, port: nat)
    requires IsPlausibleHost(host) && port <= 65535
    ensures SplitAuthority("[" + host + "]" + ":" + ShowNat(port)) == Some(Authority(host, Some(port)))
  {
    hide ShowNat, IsPlausibleHost, Trim, ParsePort, SplitOnce, SplitBracketed, SplitPlain, Count, LastIndexOf;
    var digits := ShowNat(port);
    var text := "[" + host + "]";
    var s := text + ":" + digits;
    TrimmedAuthority(text, port);
    PlausibleLacks(host, ']');
    PortReadsBack(port);
    assert s[0] == '[' && s[1..] == host + "]" + (":" + digits);
    BracketsSplit(host, digits);
  }

  lemma ColonHostReadsBackWhole(host: string, port: nat)
    requires IsPlausibleHost(host) && ':' in host && port <= 65535
    ensures SplitAuthority(host + ":" + ShowNat(port)) == Some(Authority(host + ":" + ShowNat(port), None))
  {
    var digits := ShowNat(port);
    var s := host + ":" + digits;
    PlausibleEnds(host);
    PlausibleLacks(host, '@');
    TrimmedAuthority(host, port);
    DigitsAre(digits, '@');
    hide ShowNat, IsPlausibleHost, Trim, HostChar, IsDigit, AllDigits;
    CountIsPresence(host, ':');
    CountAppend(host + ":", digits, ':');
    CountAppend(host, ":", ':');
    assert Count(":", ':') == 1;
    LastIndexIs(s, '@');
    assert '@' !in s;
    hide Count, LastIndexOf;
    assert s[0] == host[0];
  }

  // --- reading back a rendering ------------------------------------------------------------------

  lemma SchemeReadsBack(p: Protocol)
    ensures FromScheme(Fold(Scheme(p))) == Some(p)
    ensures ':' !in Scheme(p) && '#' !in Scheme(p) && Scheme(p) != "" && !IsWhite(Scheme(p)[0])
  {
    var s := Scheme(p);
    assert Fold(s) == s;
    hide Fold;
  }

  lemma TlsNameOk(u: Server)
    requires WellFormed(u)
    ensures TlsName(u).Some? <==> IsEncrypted(u.protocol)
    ensures TlsName(u).Some? ==> NameOk(TlsName(u).value)
  {
    PlausibleEnds(u.host);
    hide Trim, IsPlausibleHost;
  }

  function PathText(u: Server): string {
    if u.path.Some? then u.path.value else ""
  }

  lemma PathReadsBack(u: Server, authority: string, name: Option<string>)
    requires WellFormed(u) && '/' !in authority
    ensures ParsePath(u.protocol, authority + PathText(u), name) == ParseServer(u.protocol, authority, u.path, name)
  {
    hide ParseServer, SplitOnce, IsPlausibleHost, NameOk;
    if u.path.Some? {
      var path := u.path.value;
      assert path == "/" + path[1..];
      assert authority + path == authority + "/" + path[1..];
      SplitOnceAt(authority, "/", path[1..]);
    } else {
      assert authority + PathText(u) == authority;
      SplitOnceNone(authority, "/");
    }
  }

  function Base(u: Server, host: string): string {
    Scheme(u.protocol) + "://" + (host + ":" + ShowNat(u.port) + PathText(u))
  }

  lemma BaseOk(u: Server, host: string)
    requires WellFormed(u) && '#' !in host
    ensures '#' !in Base(u, host) && Base(u, host) != ""
    ensures !IsWhite(Base(u, host)[0]) && !IsWhite(Base(u, host)[|Base(u, host)| - 1])
  {
    SchemeReadsBack(u.protocol);
    var digits := ShowNat(u.port);
    DigitsAre(digits, '#');
    DigitsEnd(digits);
    hide Scheme, ShowNat, IsWhite, AllDigits, IsPlausibleHost;
    var b := Base(u, host);
    assert b[0] == Scheme(u.protocol)[0];
    if u.path.Some? && u.path.value != "" {
      assert b[|b| - 1] == u.path.value[|u.path.value| - 1];
    } else {
      assert b[|b| - 1] == digits[|digits| - 1];
    }
  }

  lemma BaseReadsBack(u: Server, host: string, name: Option<string>)
    requires WellFormed(u) && '/' !in host
    ensures ParseRest(Base(u, host), name)
         == ParseServer(u.protocol, host + ":" + ShowNat(u.port), u.path, name)
  {
    var authority := host + ":" + ShowNat(u.port);
    DigitsAre(ShowNat(u.port), '/');
    SchemeReadsBack(u.protocol);
    hide Scheme, ShowNat, ParseServer, ParsePath, SplitOnce, FromScheme, Fold, AllDigits, WellFormed;
    SplitOnceAt(Scheme(u.protocol), "://", authority + PathText(u));
    PathReadsBack(u, authority, name);
  }

  lemma RenderHostIsBase(u: Server, host: string)
    ensures RenderHost(u, host) == if TlsName(u).Some? then Base(u, host) + "#" + TlsName(u).value else Base(u, host)
  {
    hide Scheme, ShowNat, TlsName;
  }

  predicate Firm(s: string) {
    s != "" && !IsWhite(s[0]) && !IsWhite(s[|s| - 1])
  }

  lemma NamedParses(base: string, name: string)
    requires Firm(base) && '#' !in base && NameOk(name)
    ensures Parse(base + "#" + name) == ParseRest(base, Some(name))
  {
    var s := base + "#" + name;
    TrimIsAll(base);
    TrimIsAll(name);
    assert s[|s| - 1] == name[|name| - 1] && s[0] == base[0];
    TrimIsAll(s);
    SplitOnceAt(base, "#", name);
    hide ParseRest, SplitOnce, IsWhite, Trim;
  }

  lemma UnnamedParses(base: string)
    requires Firm(base) && '#' !in base
    ensures Parse(base) == ParseRest(base, None)
  {
    TrimIsAll(base);
    SplitOnceNone(base, "#");
    hide ParseRest, SplitOnce, IsWhite, Trim;
  }

  /** Whatever stands for the host, everything around it is read back as it was. */
  lemma RenderingReadsBack(u: Server, host: string)
    requires WellFormed(u) && '/' !in host && '#' !in host
    ensures Parse(RenderHost(u, host))
         == ParseServer(u.protocol, host + ":" + ShowNat(u.port), u.path, TlsName(u))
  {
    hide Base, RenderHost, Parse, ParseRest, ParseServer, WellFormed, TlsName, NameOk, IsWhite, ShowNat;
    RenderHostIsBase(u, host);
    TlsNameOk(u);
    BaseOk(u, host);
    BaseReadsBack(u, host, TlsName(u));
    if TlsName(u).Some? {
      NamedParses(Base(u, host), TlsName(u).value);
    } else {
      UnnamedParses(Base(u, host));
    }
  }

  // --- what rendering promises --------------------------------------------------------------------

  /** The same server, with its identity spelled out: everything but the host. */
  predicate SameAround(u: Server, v: Server) {
    v.protocol == u.protocol && v.port == u.port && v.path == u.path && TlsName(v) == TlsName(u)
  }

  /** A host as rendering writes it: an address in its usual text, a name as it is. */
  function CanonicalHost(t: IpText, host: string): string {
    match t.parse(host)
    case Some(ip) => t.show(ip)
    case None => host
  }

  lemma HostReadsBack(u: Server, text: string, host: string)
    requires WellFormed(u) && IsPlausibleHost(host)
    requires (text == host && ':' !in host) || text == "[" + host + "]"
    ensures Parse(RenderHost(u, text)) == Ok(Server(u.protocol, host, u.port, u.path, TlsName(u)))
  {
    PlausibleLacks(host, '/');
    PlausibleLacks(host, '#');
    RenderingReadsBack(u, text);
    TlsNameOk(u);
    hide Parse, RenderHost, SplitAuthority, IsPlausibleHost, TlsName;
    if text == host && ':' !in host {
      ColonFreeHostReadsBack(host, u.port);
    } else {
      BracketedHostReadsBack(host, u.port);
    }
  }

  lemma UnnamedReadsBack(u: Server)
    requires WellFormed(u) && u.name.None?
    ensures Parse(Base(u, "[" + u.host + "]")) == Ok(u)
  {
    var text := "[" + u.host + "]";
    PlausibleLacks(u.host, '/');
    PlausibleLacks(u.host, '#');
    hide Base, Parse, ParseRest, SplitAuthority, IsPlausibleHost, IsWhite, ShowNat;
    BaseOk(u, text);
    UnnamedParses(Base(u, text));
    BaseReadsBack(u, text, None);
    BracketedHostReadsBack(u.host, u.port);
  }

  /** ... and it accepts each of them: what parsing yields is exactly the well-formed servers. */
  lemma WellFormedIsParsed(u: Server) returns (text: string)
    requires WellFormed(u)
    ensures Parse(text) == Ok(u)
  {
    hide Parse, Base, RenderHost, IsPlausibleHost;
    if u.name.None? {
      text := Base(u, "[" + u.host + "]");
      UnnamedReadsBack(u);
    } else {
      text := RenderHost(u, "[" + u.host + "]");
      HostReadsBack(u, "[" + u.host + "]", u.host);
    }
  }

  lemma AddressReadsBack(t: IpText, u: Server, ip: Ip)
    requires Lawful(t) && WellFormed(u)
    ensures Parse(RenderHost(u, Bracket(t, ip))) == Ok(Server(u.protocol, t.show(ip), u.port, u.path, TlsName(u)))
  {
    assert t.parse(t.show(ip)) == Some(ip);
    HostReadsBack(u, Bracket(t, ip), t.show(ip));
    hide Parse, RenderHost, WellFormed, IsPlausibleHost, TlsName;
  }

  lemma SameAroundOf(u: Server, host: string)
    requires WellFormed(u)
    ensures SameAround(u, Server(u.protocol, host, u.port, u.path, TlsName(u)))
  {
  }

  /** With a bootstrap address, every accepted upstream keeps all but the host, which becomes
      that address. */
  lemma BootstrapKeepsTheRest(t: IpText, text: string, ip: Ip)
    requires Lawful(t) && Parse(text).Ok?
    ensures var u, r := Parse(text).value, Parse(Render(t, Parse(text).value, Some(ip)));
      r.Ok? && SameAround(u, r.value) && r.value.host == t.show(ip)
  {
    hide Parse, RenderHost, WellFormed, Lawful, SameAround, TlsName, Bracket;
    ParsedIsWellFormed(text);
    AddressReadsBack(t, Parse(text).value, ip);
    SameAroundOf(Parse(text).value, t.show(ip));
  }

  predicate RoundTrips(t: IpText, u: Server) {
    var r := Parse(Render(t, u, None));
    r.Ok? && SameAround(u, r.value) && r.value.host == CanonicalHost(t, u.host)
  }

  lemma NameOrAddressRoundTrips(t: IpText, u: Server)
    requires Lawful(t) && WellFormed(u) && (':' !in u.host || t.parse(u.host).Some?)
    ensures RoundTrips(t, u)
  {
    match t.parse(u.host)
    case Some(ip) =>
      AddressReadsBack(t, u, ip);
      SameAroundOf(u, t.show(ip));
      hide Parse, RenderHost, WellFormed, Lawful, SameAround, TlsName, Bracket;
    case None =>
      HostReadsBack(u, u.host, u.host);
      SameAroundOf(u, u.host);
      hide Parse, RenderHost, WellFormed, Lawful, SameAround, TlsName;
  }

  lemma ColonNameDoesNot(t: IpText, u: Server)
    requires WellFormed(u) && ':' in u.host && t.parse(u.host).None?
    ensures !RoundTrips(t, u)
  {
    PlausibleLacks(u.host, '/');
    PlausibleLacks(u.host, '#');
    RenderingReadsBack(u, u.host);
    hide Parse, RenderHost, SplitAuthority, IsPlausibleHost, TlsName, SameAround, ShowNat;
    ColonHostReadsBackWhole(u.host, u.port);
    assert |u.host + ":" + ShowNat(u.port)| > |u.host|;
  }

  /** Parsing what was rendered gives the server back exactly if its host is a name without a
      colon or an address. A name with a colon in it is accepted, and comes back as another. */
  lemma RoundTripIff(t: IpText, text: string)
    requires Lawful(t) && Parse(text).Ok?
    ensures var u := Parse(text).value;
      RoundTrips(t, u) <==> ':' !in u.host || t.parse(u.host).Some?
  {
    hide Parse, Lawful, WellFormed, RoundTrips;
    ParsedIsWellFormed(text);
    var u := Parse(text).value;
    if ':' !in u.host || t.parse(u.host).Some? {
      NameOrAddressRoundTrips(t, u);
    } else {
      ColonNameDoesNot(t, u);
    }
  }

  /** Rendering what was parsed from a rendering changes nothing any more. */
  lemma RenderIsNormalForm(t: IpText, u: Server)
    requires Lawful(t) && WellFormed(u) && (':' !in u.host || t.parse(u.host).Some?)
    ensures Parse(Render(t, u, None)).Ok?
    ensures Render(t, Parse(Render(t, u, None)).value, None) == Render(t, u, None)
  {
    NameOrAddressRoundTrips(t, u);
    var v := Parse(Render(t, u, None)).value;
    CanonicalAgain(t, u.host);
    RenderDepends(u, v, BracketOrHost(t, u.host));
    hide Parse, RenderHost, Lawful, WellFormed, TlsName;
  }

  lemma CanonicalAgain(t: IpText, host: string)
    requires Lawful(t)
    ensures BracketOrHost(t, CanonicalHost(t, host)) == BracketOrHost(t, host)
  {
  }

  lemma RenderDepends(u: Server, v: Server, host: string)
    requires SameAround(u, v)
    ensures RenderHost(v, host) == RenderHost(u, host)
  {
  }

  /** One colon and no port after it. */
  predicate ColonName(host: string) {
    && IsPlausibleHost(host) && Count(host, ':') == 1
    && LastIndexOf(host, ':').Some? && LastIndexOf(host, ':').value < |host|
    && ParsePort(host[LastIndexOf(host, ':').value + 1..]).None?
  }

  lemma ColonNameStaysWhole(host: string)
    requires ColonName(host)
    ensures SplitAuthority(host) == Some(Authority(host, None))
  {
    PlausibleEnds(host);
    PlausibleLacks(host, '@');
    LastIndexIs(host, '@');
    hide IsPlausibleHost, Trim, Count, LastIndexOf, ParsePort;
  }

  lemma BareRestParses(p: Protocol, host: string)
    requires '/' !in host
    ensures ParseRest(Scheme(p) + "://" + host, None) == ParseServer(p, host, None, None)
  {
    hide Scheme, ParseServer, SplitOnce, Fold, FromScheme, IsWhite;
    SchemeReadsBack(p);
    SplitOnceAt(Scheme(p), "://", host);
    SplitOnceNone(host, "/");
  }

  lemma UnnamedHostParses(host: string)
    requires IsPlausibleHost(host)
    ensures Parse("tcp://" + host) == ParseServer(Tcp, host, None, None)
  {
    hide Parse, ParseRest, ParseServer, HostChar, IsPlausibleHost, IsWhite, Trim, SplitOnce;
    PlausibleEnds(host);
    assert host != "" by {
      PlausibleNonEmpty(host);
    }
    PlausibleLacks(host, '#') by {
      NotHostChars();
    }
    PlausibleLacks(host, '/') by {
      NotHostChars();
    }
    FirmWithScheme(host);
    UnnamedParses("tcp://" + host);
    BareRestParses(Tcp, host);
    assert "tcp://" + host == Scheme(Tcp) + "://" + host;
  }

  lemma PlausibleNonEmpty(host: string)
    requires IsPlausibleHost(host)
    ensures host != ""
  {
  }

  lemma NotHostChars()
    ensures !HostChar('#') && !HostChar('/')
  {
  }

  lemma FirmWithScheme(host: string)
    requires host != "" && !IsWhite(host[|host| - 1]) && '#' !in host
    ensures Firm("tcp://" + host) && '#' !in "tcp://" + host
  {
    assert ("tcp://" + host)[0] == 't';
  }

  /** A name with a colon in it gets past parsing: with no port after it, the colon is left in the
      host, and the rendering is another server. */
  lemma ColonNameIsAccepted(t: IpText, host: string)
    requires ColonName(host) && t.parse(host).None?
    ensures Parse("tcp://" + host) == Ok(Server(Tcp, host, 53, None, None))
    ensures !RoundTrips(t, Server(Tcp, host, 53, None, None))
  {
    ColonNameStaysWhole(host);
    UnnamedHostParses(host);
    CountIsPresence(host, ':');
    ColonNameDoesNot(t, Server(Tcp, host, 53, None, None));
    hide Parse, RoundTrips, IsPlausibleHost, Count, LastIndexOf, ParsePort, SplitAuthority;
  }

  /** There is such a name. */
  lemma ColonNameExists()
    ensures ColonName("a:b")
  {
    var host := "a:b";
    assert host[..2] == "a:" && host[..2][..1] == "a" && host[..1][..0] == "";
    assert host == "a" + [':'] + "b";
    LastIndexAt("a", ':', "b");
    CountAppend("a", ":b", ':');
    assert ":b"[..1] == ":" && ":"[..0] == "" && "a"[..0] == "";
    assert Count("a", ':') == 0 && Count(":b", ':') == 1;
    assert host == "a" + ":b";
    assert host[2..] == "b" && !IsDigit("b"[0]);
    hide Count, LastIndexOf;
  }

  // --- what operators write -------------------------------------------------------------------------

  /** What a host may be made of. */
  lemma HostCharsAre(c: char)
    ensures HostChar(c) <==> c in LETTERS || c in CAPITALS || c in "0123456789" || c in "-_.:"
  {
    LettersAre(c);
    CapitalsAre(c);
    hide LETTERS, CAPITALS;
    if '0' <= c <= '9' {
      assert "0123456789"[c as int - '0' as int] == c;
    }
  }

  lemma {:induction false} PortSpellings(n: nat)
    ensures ParsePort(ShowNat(n)) == ParsePort("+" + ShowNat(n)) == ParsePort("0" + ShowNat(n))
         == if n <= 65535 then Some(n) else None
  {
    var s := ShowNat(n);
    assert IsDigit(s[0]);
    assert ("+" + s)[1..] == s;
    LeadingZero(s);
    hide ShowNat, DecimalValue;
  }

  lemma {:induction false} LeadingZero(s: string)
    requires AllDigits(s)
    ensures AllDigits("0" + s) && DecimalValue("0" + s) == DecimalValue(s)
  {
    var z := "0" + s;
    if s == "" {
      assert z == "0" && z[..0] == "" && DecimalValue("") == 0;
    } else {
      LeadingZero(s[..|s| - 1]);
      assert z[..|z| - 1] == "0" + s[..|s| - 1];
    }
  }

  /** A word in letters of either case that names a scheme. */
  lemma SchemeWordOk(w: string, p: Protocol)
    requires Fold(w) == Scheme(p)
    ensures ':' !in w && '#' !in w && w != "" && !IsWhite(w[0])
    ensures FromScheme(Fold(w)) == Some(p)
  {
    SchemeReadsBack(p);
    assert Fold(Scheme(p)) == Scheme(p);
    forall i | 0 <= i < |w| ensures w[i] != ':' && w[i] != '#' {
      assert Fold(w)[i] == FoldChar(w[i]);
    }
    assert Fold(w)[0] == FoldChar(w[0]);
    hide Scheme, FromScheme;
  }

  lemma RestParses(w: string, p: Protocol, rest: string, name: Option<string>)
    requires Fold(w) == Scheme(p)
    ensures ParseRest(w + "://" + rest, name) == ParsePath(p, rest, name)
  {
    SchemeWordOk(w, p);
    SplitOnceAt(w, "://", rest);
    hide Scheme, Fold, FromScheme, SplitOnce, ParsePath, IsWhite;
  }

  /** The end of a text that is neither blank nor takes a name. */
  predicate Tail(rest: string) {
    rest != "" && !IsWhite(rest[|rest| - 1]) && '#' !in rest
  }

  lemma SpelledIsFirm(w: string, p: Protocol, rest: string)
    requires Fold(w) == Scheme(p) && Tail(rest)
    ensures Firm(w + "://" + rest) && '#' !in w + "://" + rest
  {
    SchemeWordOk(w, p);
    hide Scheme, Fold, FromScheme, IsWhite;
    var s := w + "://" + rest;
    assert s[0] == w[0] && s[|s| - 1] == rest[|rest| - 1];
  }

  lemma SpelledParses(w: string, p: Protocol, rest: string)
    requires Fold(w) == Scheme(p) && Tail(rest)
    ensures Parse(w + "://" + rest) == ParsePath(p, rest, None)
  {
    hide Scheme, Fold, Parse, ParseRest, ParsePath, Firm;
    SpelledIsFirm(w, p, rest);
    UnnamedParses(w + "://" + rest);
    RestParses(w, p, rest, None);
  }

  lemma NamedSpelledParses(w: string, p: Protocol, rest: string, name: string)
    requires Fold(w) == Scheme(p) && Tail(rest) && NameOk(name)
    ensures Parse(w + "://" + rest + "#" + name) == ParsePath(p, rest, Some(name))
  {
    hide Scheme, Fold, Parse, ParseRest, ParsePath, Firm, NameOk;
    SpelledIsFirm(w, p, rest);
    NamedParses(w + "://" + rest, name);
    RestParses(w, p, rest, Some(name));
  }

  /** A text that stands for a host and no port: a name or an address as it is, unless it has exactly
      one colon in it, or anything in brackets. */
  predicate Stands(text: string, host: string) {
    IsPlausibleHost(host) && ((text == host && Count(host, ':') != 1) || text == "[" + host + "]")
  }

  lemma BareHostStands(host: string)
    requires IsPlausibleHost(host) && Count(host, ':') != 1
    ensures SplitAuthority(host) == Some(Authority(host, None))
  {
    PlausibleEnds(host);
    PlausibleLacks(host, '@');
    LastIndexIs(host, '@');
    LastIndexIs(host, ':');
    CountIsPresence(host, ':');
    hide IsPlausibleHost, Trim, Count, LastIndexOf, ParsePort;
  }

  lemma BracketedTailSplits(host: string, tail: string)
    requires IsPlausibleHost(host) && (tail == "" || !IsWhite(tail[|tail| - 1]))
    ensures SplitAuthority("[" + host + "]" + tail)
         == if tail == "" then Some(Authority(host, None))
            else if tail[0] == ':' || tail[0] == '@' then WithPort(host, tail[1..]) else None
  {
    var s := "[" + host + "]" + tail;
    PlausibleLacks(host, ']');
    assert s[0] == '[' && s[1..] == host + "]" + tail;
    assert !IsWhite(']') && !IsWhite('[');
    assert s[|s| - 1] == if tail == "" then ']' else tail[|tail| - 1];
    TrimIsAll(s);
    SplitOnceAt(host, "]", tail);
    hide Trim, SplitOnce, IsPlausibleHost, IsWhite, WithPort;
  }

  lemma StandsForHost(text: string, host: string)
    requires Stands(text, host)
    ensures SplitAuthority(text) == Some(Authority(host, None))
    ensures '/' !in text && Tail(text)
  {
    PlausibleLacks(host, '/');
    PlausibleLacks(host, '#');
    PlausibleEnds(host);
    hide SplitAuthority, IsPlausibleHost, Count, Trim;
    if text == host && Count(host, ':') != 1 {
      BareHostStands(host);
    } else {
      BracketedTailSplits(host, "");
      assert "[" + host + "]" + "" == text;
      assert text[|text| - 1] == ']' && !IsWhite(']');
    }
  }

  lemma BareParses(w: string, p: Protocol, text: string, host: string)
    requires Fold(w) == Scheme(p) && Stands(text, host)
    ensures Parse(w + "://" + text) == Ok(Server(p, host, DefaultPort(p), None, None))
  {
    StandsForHost(text, host);
    SpelledParses(w, p, text);
    SplitOnceNone(text, "/");
    hide Scheme, Fold, Parse, SplitAuthority, SplitOnce, IsPlausibleHost, Count, Tail;
  }

  /** Texts without a port, the scheme in letters of either case: the scheme says how to speak and on
      which port, and no scheme is plain UDP. */
  lemma PortlessParses(w: string, text: string, host: string)
    requires Stands(text, host)
    ensures Fold(w) == "udp" ==> Parse(w + "://" + text) == Ok(Server(Udp, host, 53, None, None))
    ensures Fold(w) == "tcp" ==> Parse(w + "://" + text) == Ok(Server(Tcp, host, 53, None, None))
    ensures Fold(w) == "tls" ==> Parse(w + "://" + text) == Ok(Server(Tls, host, 853, None, None))
    ensures Fold(w) == "quic" ==> Parse(w + "://" + text) == Ok(Server(Quic, host, 853, None, None))
    ensures Fold(w) == "https" ==> Parse(w + "://" + text) == Ok(Server(Https, host, 443, None, None))
    ensures Fold(w) == "h3" ==> Parse(w + "://" + text) == Ok(Server(Http3, host, 443, None, None))
    ensures Parse(text) == Ok(Server(Udp, host, 53, None, None))
  {
    hide Parse, Stands, Fold, Scheme;
    assert Scheme(Udp) == "udp" && Scheme(Tcp) == "tcp" && Scheme(Tls) == "tls" by { SchemeWords(); }
    assert Scheme(Quic) == "quic" && Scheme(Https) == "https" && Scheme(Http3) == "h3" by { SchemeWords(); }
    SchemelessIsUdp(text, host);
    forall p | Fold(w) == Scheme(p) ensures Parse(w + "://" + text) == Ok(Server(p, host, DefaultPort(p), None, None)) {
      BareParses(w, p, text, host);
    }
  }

  lemma SchemeWords()
    ensures Scheme(Udp) == "udp" && Scheme(Tcp) == "tcp" && Scheme(Tls) == "tls"
    ensures Scheme(Quic) == "quic" && Scheme(Https) == "https" && Scheme(Http3) == "h3"
  {
  }

  /** The words that name a scheme, and no other. */
  lemma UnknownSchemeIsRefused(w: string, rest: string)
    requires Tail(rest) && (w == "" || !IsWhite(w[0])) && ':' !in w && '#' !in w
    requires Fold(w) !in ["udp", "tcp", "tls", "quic", "https", "h3"]
    ensures Parse(w + "://" + rest) == Err(UnknownScheme(Fold(w)))
  {
    var s := w + "://" + rest;
    assert !IsWhite(':') && s[0] == (if w == "" then ':' else w[0]) && s[|s| - 1] == rest[|rest| - 1];
    assert FromScheme(Fold(w)) == None;
    UnnamedParses(s);
    SplitOnceAt(w, "://", rest);
    hide Parse, Fold, FromScheme, SplitOnce, IsWhite;
  }

  lemma AtPortSplits(host: string, port: string)
    requires IsPlausibleHost(host) && AllDigits(port) && port != ""
    ensures SplitAuthority(host + "@" + port) == WithPort(host, port)
    ensures SplitAuthority("[" + host + "]" + ("@" + port)) == WithPort(host, port)
    ensures SplitAuthority("[" + host + "]" + (":" + port)) == WithPort(host, port)
  {
    var s := host + "@" + port;
    PlausibleEnds(host);
    DigitsEnd(port);
    DigitsAre(port, '@');
    assert s[0] == host[0] && s[|s| - 1] == port[|port| - 1];
    TrimIsAll(s);
    hide Trim, IsPlausibleHost, WithPort, Count, HostChar, IsDigit, AllDigits, IsWhite, LastIndexOf;
    LastIndexAt(host, '@', port);
    LastIndexIs(s, '@');
    assert s[..|host|] == host && s[|host| + 1..] == port;
    BracketedTailSplits(host, "@" + port);
    BracketedTailSplits(host, ":" + port);
    assert ("@" + port)[1..] == port == (":" + port)[1..];
  }

  /** A host and a port in one of the four spellings. */
  predicate StandsWithPort(text: string, host: string, port: nat) {
    && IsPlausibleHost(host)
    && (|| text == host + "@" + ShowNat(port)
        || text == "[" + host + "]" + ("@" + ShowNat(port))
        || text == "[" + host + "]" + (":" + ShowNat(port))
        || (text == host + ":" + ShowNat(port) && ':' !in host))
  }

  lemma PortTextEnds(text: string, host: string, port: nat)
    requires StandsWithPort(text, host, port)
    ensures '/' !in text && Tail(text)
  {
    var digits := ShowNat(port);
    PlausibleLacks(host, '/');
    PlausibleLacks(host, '#');
    DigitsEnd(digits);
    DigitsAre(digits, '/');
    DigitsAre(digits, '#');
    hide IsPlausibleHost, ShowNat, AllDigits, IsWhite;
    assert text[|text| - 1] == digits[|digits| - 1];
  }

  lemma PortStands(text: string, host: string, port: nat)
    requires StandsWithPort(text, host, port) && port <= 65535
    ensures SplitAuthority(text) == Some(Authority(host, Some(port)))
  {
    var digits := ShowNat(port);
    PortReadsBack(port);
    hide SplitAuthority, IsPlausibleHost, ShowNat, ParsePort, AllDigits;
    AtPortSplits(host, digits);
    if text == host + ":" + digits && ':' !in host {
      ColonFreeHostReadsBack(host, port);
    }
  }

  /** A port after a colon, or after an `@` as Unbound writes it, is the port, for hosts with colons in
      them too where an `@` or brackets set them off; only port 0 is none. */
  lemma WrittenPortParses(w: string, p: Protocol, text: string, host: string, port: nat)
    requires Fold(w) == Scheme(p) && StandsWithPort(text, host, port) && port <= 65535
    ensures Parse(w + "://" + text) == if port == 0 then Err(PortZero) else Ok(Server(p, host, port, None, None))
  {
    PortStands(text, host, port);
    PortTextEnds(text, host, port);
    assert IsPlausibleHost(host);
    SpelledParses(w, p, text);
    SplitOnceNone(text, "/");
    hide Scheme, Fold, Parse, SplitAuthority, SplitOnce, IsPlausibleHost, StandsWithPort, Tail;
  }

  /** A path goes with the two schemes over HTTP, and with no other. */
  lemma PathParses(w: string, p: Protocol, text: string, host: string, path: string)
    requires Fold(w) == Scheme(p) && Stands(text, host) && '#' !in path && (path == "" || !IsWhite(path[|path| - 1]))
    ensures p == Https || p == Http3 ==>
      Parse(w + "://" + (text + "/" + path)) == Ok(Server(p, host, 443, Some("/" + path), None))
    ensures p != Https && p != Http3 ==> Parse(w + "://" + (text + "/" + path)) == Err(PathNotAllowed)
  {
    var rest := text + "/" + path;
    StandsForHost(text, host);
    assert Tail(rest) by {
      assert !IsWhite('/');
      assert rest[|rest| - 1] == if path == "" then '/' else path[|path| - 1];
    }
    SpelledParses(w, p, rest);
    SplitOnceAt(text, "/", path);
    hide Scheme, Fold, Parse, SplitAuthority, SplitOnce, IsPlausibleHost, Count, Tail, IsWhite;
  }

  /** An identity goes with the four encrypted schemes, and with no plain one. */
  lemma NameParses(w: string, p: Protocol, text: string, host: string, name: string)
    requires Fold(w) == Scheme(p) && Stands(text, host) && NameOk(name)
    ensures p == Udp || p == Tcp ==> Parse(w + "://" + text + "#" + name) == Err(NameOnPlain)
    ensures p != Udp && p != Tcp ==>
      Parse(w + "://" + text + "#" + name) == Ok(Server(p, host, if p == Tls || p == Quic then 853 else 443, None, Some(name)))
  {
    StandsForHost(text, host);
    NamedSpelledParses(w, p, text, name);
    SplitOnceNone(text, "/");
    hide Scheme, Fold, Parse, SplitAuthority, SplitOnce, IsPlausibleHost, Count, Tail, NameOk;
  }

  /** Nothing, and nothing after the sign that announces a name, are told from each other. */
  lemma BlankIsRefused(base: string, blank: string)
    requires Firm(base) && '#' !in base && Trim(blank) == ""
    ensures Parse(blank) == Err(Empty) && Parse(base + "#" + blank) == Err(EmptyFragment)
  {
    var head := base + "#";
    var s := head + blank;
    TrimStartIsSuffix(blank);
    SomethingStays(TrimStart(blank));
    AllWhite(blank);
    TrimEndAfter(head, blank);
    assert s[0] == base[0];
    assert TrimStart(s) == s;
    SplitOnceAt(base, "#", "");
    assert base + "#" + "" == head;
    hide ParseRest, SplitOnce, TrimStart, TrimEnd, IsWhite;
  }

  lemma SomethingStays(s: string)
    requires s != "" ==> !IsWhite(s[0])
    ensures TrimEnd(s) == "" ==> s == ""
  {
    if s != "" {
      TrimEndAfter(s[..1], s[1..]);
      assert s == s[..1] + s[1..];
    }
  }

  lemma {:induction false} AllWhite(s: string)
    requires TrimStart(s) == ""
    ensures TrimEnd(s) == ""
  {
    if s != "" {
      AllWhite(s[1..]);
      WhiteBefore(s[..1], s[1..]);
      assert s[..1] + s[1..] == s;
    }
  }

  lemma {:induction false} WhiteBefore(a: string, s: string)
    requires |a| == 1 && IsWhite(a[0]) && TrimEnd(s) == ""
    ensures TrimEnd(a + s) == ""
  {
    if s == "" {
      assert (a + s)[..0] == "";
    } else {
      WhiteBefore(a, s[..|s| - 1]);
      assert (a + s)[..|a + s| - 1] == a + s[..|s| - 1];
    }
  }

  predicate HostChars(host: string) {
    forall i :: 0 <= i < |host| ==> HostChar(host[i])
  }

  lemma HostCharsLack(host: string)
    requires host != "" && HostChars(host)
    ensures '/' !in host && '@' !in host && Tail(host) && !IsWhite(host[0]) && host[0] != '['
  {
    assert HostChar(host[0]) && HostChar(host[|host| - 1]);
    assert !HostChar('/') && !HostChar('#') && !HostChar('@') && !HostChar('[');
  }

  lemma LoneHostSplits(host: string)
    requires host != "" && HostChars(host) && ':' !in host
    ensures SplitAuthority(host) == Some(Authority(host, None))
  {
    HostCharsLack(host);
    hide HostChars, LastIndexOf, IsWhite, Trim;
    TrimIsAll(host);
    LastIndexIs(host, '@');
    LastIndexIs(host, ':');
    CountIsPresence(host, ':');
    hide Count;
  }

  lemma LoneHostParses(host: string)
    requires host != "" && HostChars(host) && ':' !in host
    ensures Parse("tcp" + "://" + host) == ParseServer(Tcp, host, None, None)
  {
    HostCharsLack(host);
    SchemeWords();
    LowerCaseTcp();
    hide Parse, Scheme, Fold, Tail, HostChars, SplitOnce, ParseServer;
    SpelledParses("tcp", Tcp, host);
    SplitOnceNone(host, "/");
  }

  lemma LowerCaseTcp()
    ensures Fold("tcp") == "tcp"
  {
  }

  /** Of texts in the right characters, how long a name may be, and that it neither begins nor ends
      with a dot. */
  lemma PlausibleNames(host: string)
    requires host != "" && HostChars(host) && ':' !in host
    ensures Parse("tcp://" + host)
         == if |host| <= 253 && host[0] != '.' && host[|host| - 1] != '.' then Ok(Server(Tcp, host, 53, None, None))
            else Err(ImplausibleHost(host))
  {
    LoneHostParses(host);
    LoneHostSplits(host);
    hide Parse, SplitAuthority;
    assert "tcp" + "://" == "tcp://";
  }

  /** The host is judged before the port and the name. */
  lemma HostIsJudgedFirst(p: Protocol, authority: string, path: Option<string>, name: Option<string>)
    requires SplitAuthority(authority).Some? && !IsPlausibleHost(SplitAuthority(authority).value.host)
    ensures ParseServer(p, authority, path, name) == Err(ImplausibleHost(SplitAuthority(authority).value.host))
  {
    hide SplitAuthority, IsPlausibleHost;
  }

  /** White space between scheme, authority and path does no harm. */
  lemma BlanksAroundAuthority(text: string)
    ensures SplitAuthority(text) == SplitAuthority(Trim(text))
  {
    TrimEnds(text);
    hide Trim, SplitBracketed, SplitPlain, Count;
  }

  /** The text rendered for the resolver, where the identity defaults to the host. */
  lemma RenderedAs(t: IpText, host: string, port: nat, name: string, path: string)
    ensures var h := BracketOrHost(t, host);
      && Render(t, Server(Udp, host, port, None, None), None) == "udp://" + h + ":" + ShowNat(port)
      && Render(t, Server(Tls, host, port, None, None), None) == "tls://" + h + ":" + ShowNat(port) + "#" + host
      && Render(t, Server(Https, host, port, Some(path), Some(name)), None)
         == "https://" + h + ":" + ShowNat(port) + path + "#" + name
  {
    SchemeWords();
    hide Scheme, ShowNat, BracketOrHost;
  }

  lemma SchemelessIsUdp(text: string, host: string)
    requires Stands(text, host)
    ensures Parse(text) == Ok(Server(Udp, host, 53, None, None))
  {
    StandsForHost(text, host);
    SchemelessParses(text, host);
    SplitOnceNone(text, "/");
    assert FromScheme("udp") == Some(Udp);
    hide Parse, SplitAuthority, SplitOnce, IsPlausibleHost, Count, Tail;
  }

  lemma SchemelessParses(text: string, host: string)
    requires Stands(text, host) && Tail(text) && '/' !in text
    ensures Parse(text) == ParseScheme("udp", text, None)
  {
    assert Firm(text) by {
      PlausibleEnds(host);
      assert !IsWhite('[');
    }
    UnnamedParses(text);
    NoSchemeWithoutSlash(text);
    hide Parse, IsPlausibleHost, Count, SplitOnce, ParseScheme, IsWhite;
  }

  lemma NoSchemeWithoutSlash(text: string)
    ensures SplitOnce(text, "://").Some? ==> '/' in text
  {
    SplitOnceParts(text, "://");
    hide SplitOnce;
    if SplitOnce(text, "://").Some? {
      assert text[|SplitOnce(text, "://").value.0| + 1] == '/';
    }
  }

  // --- the laws asked of address text can be met ------------------------------------------------------

  function ShowDecimal(ip: Ip): string {
    match ip
    case V4(n) => ShowNat(n)
    case V6(n) => ":" + ShowNat(n)
  }

  function ParseDecimal(s: string): Option<Ip> {
    if StartsWith(s, ":") then
      if AllDigits(s[1..]) && DecimalValue(s[1..]) < 0x1_0000_0000_0000_0000_0000_0000_0000_0000
      then Some(V6(DecimalValue(s[1..]))) else None
    else if AllDigits(s) && DecimalValue(s) < 0x1_0000_0000 then Some(V4(DecimalValue(s)))
    else None
  }

  function Pow10(k: nat): nat {
    if k == 0 then 1 else 10 * Pow10(k - 1)
  }

  lemma {:induction false} ShowNatLength(n: nat, k: nat)
    requires n < Pow10(k) && k > 0
    ensures |ShowNat(n)| <= k
  {
    if n >= 10 {
      assert Pow10(0) == 1;
      assert k > 1;
      ShowNatLength(n / 10, k - 1);
    }
  }

  /** Digits, or a colon and digits, few enough. */
  lemma DigitsArePlausible(digits: string)
    requires AllDigits(digits) && 0 < |digits| <= 40
    ensures IsPlausibleHost(digits) && IsPlausibleHost(":" + digits)
    ensures !StartsWith(digits, ":") && StartsWith(":" + digits, ":") && (":" + digits)[1..] == digits
  {
    assert IsDigit(digits[0]) && IsDigit(digits[|digits| - 1]);
    var s := ":" + digits;
    assert s[|s| - 1] == digits[|digits| - 1];
    assert forall i :: 0 < i < |s| ==> s[i] == digits[i - 1];
  }

  lemma DecimalIsPlausible(ip: Ip)
    ensures IsPlausibleHost(ShowDecimal(ip)) && ParseDecimal(ShowDecimal(ip)) == Some(ip)
  {
    hide ShowNat, Pow10, DecimalValue, AllDigits, IsPlausibleHost, StartsWith;
    Pow10Forty();
    var n: nat := match ip case V4(b) => b case V6(b) => b;
    ShowNatLength(n, 40);
    DigitsArePlausible(ShowNat(n));
  }

  lemma Pow10Forty()
    ensures Pow10(40) == 1_0000_0000_0000_0000_0000_0000_0000_0000_0000_0000
  {
    assert Pow10(5) == 10_0000;
    assert Pow10(10) == 100_0000_0000;
    assert Pow10(15) == 1000_0000_0000_0000;
    assert Pow10(20) == 1_0000_0000_0000_0000_0000;
    assert Pow10(25) == 10_0000_0000_0000_0000_0000_0000;
    assert Pow10(30) == 100_0000_0000_0000_0000_0000_0000_0000;
    assert Pow10(35) == 1000_0000_0000_0000_0000_0000_0000_0000_0000;
  }

  lemma DecimalColon(s: string)
    requires ParseDecimal(s).Some?
    ensures ParseDecimal(s).value.V6? <==> ':' in s
  {
    if StartsWith(s, ":") {
      assert s[0] == ':';
    } else {
      DigitsAre(s, ':');
    }
    hide DecimalValue;
  }

  /** Some way of writing addresses meets the laws, so what follows from them is not empty. */
  lemma LawfulTextExists()
    ensures Lawful(IpText(ParseDecimal, ShowDecimal))
  {
    var t := IpText(ParseDecimal, ShowDecimal);
    hide ParseDecimal, ShowDecimal, IsPlausibleHost;
    forall ip: Ip ensures t.parse(t.show(ip)) == Some(ip) && IsPlausibleHost(t.show(ip)) {
      DecimalIsPlausible(ip);
    }
    forall s: string | t.parse(s).Some? ensures t.parse(s).value.V6? <==> ':' in s {
      DecimalColon(s);
    }
  }
}
