/** URLs from their parts: what a scheme, an authority, a path, a query and a fragment are split into when they are
    written one after the other. */
module HttpUrlText {
  import opened Common
  import opened HttpTypes
  import opened HttpUrlChar
  import opened HttpLength
  import opened HttpUrl

  // ------------------------------------------------------------------ parts

  /** A name or an IPv4 address, or an address in brackets with an optional zone. */
  datatype HostName = Registered(name: seq<byte>) | Literal(address: seq<byte>, zone: Option<seq<byte>>)

  datatype Authority = Authority(userinfo: Option<seq<byte>>, host: HostName, port: Option<seq<byte>>)

  datatype Site = Site(scheme: seq<byte>, authority: Authority)

  datatype UrlParts =
    UrlParts(site: Option<Site>, path: seq<byte>, query: Option<seq<byte>>, fragment: Option<seq<byte>>)

  function Before(t: Option<seq<byte>>, ch: byte): seq<byte> {
    match t case None => [] case Some(s) => [ch] + s
  }

  function Behind(t: Option<seq<byte>>, ch: byte): seq<byte> {
    match t case None => [] case Some(s) => s + [ch]
  }

  function InHostName(h: HostName): seq<byte> {
    match h case Registered(name) => name case Literal(address, zone) => address + Before(zone, '%')
  }

  function HostNameText(h: HostName): seq<byte> {
    if h.Registered? then InHostName(h) else (['['] + InHostName(h)) + [']']
  }

  function AuthorityText(a: Authority): seq<byte> {
    (Behind(a.userinfo, '@') + HostNameText(a.host)) + Before(a.port, ':')
  }

  function SiteText(s: Option<Site>): seq<byte> {
    match s case None => [] case Some(x) => (x.scheme + [':', '/', '/']) + AuthorityText(x.authority)
  }

  function UrlText(x: UrlParts): seq<byte> {
    ((SiteText(x.site) + x.path) + Before(x.query, '?')) + Before(x.fragment, '#')
  }

  predicate HostNameFits(h: HostName) {
    match h
    case Registered(name) => name != [] && forall i :: 0 <= i < |name| ==> IsHostChar(name[i])
    case Literal(address, zone) =>
      && address != []
      && (forall i :: 0 <= i < |address| ==> IsHex(address[i]) || address[i] == ':' || address[i] == '.')
      && (zone.Some? ==> zone.value != [] && forall i :: 0 <= i < |zone.value| ==> IsZoneChar(zone.value[i]))
  }

  predicate AuthorityShape(a: Authority) {
    && HostNameFits(a.host)
    && (a.userinfo.Some? ==> forall i :: 0 <= i < |a.userinfo.value| ==> IsUserinfoChar(a.userinfo.value[i]))
    && (a.port.Some? ==> a.port.value != [] && Digits(a.port.value))
  }

  predicate AuthorityFits(a: Authority) {
    AuthorityShape(a) && (a.port.Some? ==> Decimal(a.port.value) <= 0xffff)
  }

  predicate PathFits(p: seq<byte>) { forall i :: 0 <= i < |p| ==> IsUrlChar(p[i]) }

  /** In front of the host, inside it, or behind an at sign in it. */
  predicate InServer(s: State) { s == Target(ReqServerStart) || s == Target(ReqServer) || s == Target(ReqServerWithAt) }

  /** A path that may stand behind the state s, a query and a fragment: behind a host the path begins with a slash or
      is missing; at the beginning of a URL it may also begin with an asterisk, and may not be missing. */
  predicate TailFits(s: State, x: UrlParts) {
    && (InServer(s) || s == RequestStart(ReqSpacesBeforeUrl)) && PathFits(x.path)
    && (if InServer(s)
        then (x.path != [] ==> x.path[0] == '/') && (x.path == [] && x.query == None ==> x.fragment == None)
        else x.path != [] && (x.path[0] == '/' || x.path[0] == '*'))
    && (x.query.Some?
        ==> forall i :: 0 <= i < |x.query.value| ==> IsUrlChar(x.query.value[i]) || x.query.value[i] == '?')
    && (x.fragment.Some? ==> FragmentFits(x.fragment.value))
  }

  predicate PartsFit(x: UrlParts) {
    match x.site
    case None => TailFits(RequestStart(ReqSpacesBeforeUrl), x)
    case Some(s) =>
      && s.scheme != [] && (forall i :: 0 <= i < |s.scheme| ==> IsAlpha(s.scheme[i])) && AuthorityFits(s.authority)
      && TailFits(Target(ReqServer), x)
  }

  predicate FragmentFits(g: seq<byte>) {
    forall i :: 0 <= i < |g| ==> IsUrlChar(g[i]) || g[i] == '?' || g[i] == '#'
  }

  /** Further hashes at the front are skipped. */
  function Hashes(g: seq<byte>): (k: nat)
    ensures k <= |g| && (forall i :: 0 <= i < k ==> g[i] == '#') && (k < |g| ==> g[k] != '#')
  {
    if g == [] || g[0] != '#' then 0 else 1 + Hashes(g[1..])
  }

  // ------------------------------------------------------------------ where the parts are

  function With(fields: Fields, f: UrlField, off: nat, len: nat): Fields {
    if len == 0 then fields else fields[f := Range(off, len)]
  }

  function TextLength(t: Option<seq<byte>>): nat { match t case None => 0 case Some(s) => |s| }

  function AuthorityRanges(a: Authority, base: nat, fields: Fields): Fields {
    var host := base + |Behind(a.userinfo, '@')| + if a.host.Literal? then 1 else 0;
    var port := base + |Behind(a.userinfo, '@')| + |HostNameText(a.host)| + 1;
    With(With(With(fields, Userinfo, base, TextLength(a.userinfo)), Host, host, |InHostName(a.host)|),
         Port, port, TextLength(a.port))
  }

  function SiteRanges(s: Option<Site>): Fields {
    match s
    case None => map[]
    case Some(x) => AuthorityRanges(x.authority, |x.scheme| + 3, map[Schema := Range(0, |x.scheme|)])
  }

  /** The hash at base, when there is one, and what follows it. */
  function FragmentRanges(g: Option<seq<byte>>, base: nat, fields: Fields): Fields {
    match g
    case None => fields
    case Some(t) => With(fields, Fragment, base + 1 + Hashes(t), |t| - Hashes(t))
  }

  /** The path, the query and the fragment, when the path begins at base. */
  function TailRanges(x: UrlParts, base: nat, fields: Fields): Fields {
    FragmentRanges(x.fragment, base + |x.path| + |Before(x.query, '?')|,
                   With(With(fields, Path, base, |x.path|), Query, base + |x.path| + 1, TextLength(x.query)))
  }

  function Ranges(x: UrlParts): Fields { TailRanges(x, |SiteText(x.site)|, SiteRanges(x.site)) }

  function PortNumber(x: UrlParts): nat
    requires PartsFit(x)
  {
    if x.site.Some? && x.site.value.authority.port.Some? then Decimal(x.site.value.authority.port.value) else 0
  }

  // ------------------------------------------------------------------ the target automaton, piece by piece

  /** Behind the text b: the state, whether an at sign has been seen, and the ranges so far. */
  ghost predicate ReadSoFar(b: seq<byte>, isConnect: bool, s: State, at: bool, fields: Fields) {
    && StateAt(b, isConnect, |b|) == s && AllRecorded(b, isConnect, |b|, fields)
    && (at <==> SeenAt(b, isConnect, |b|))
  }

  lemma NothingRead(isConnect: bool)
    ensures ReadSoFar([], isConnect, FirstState(isConnect), false, map[])
  {
    NothingRecorded([], isConnect);
  }

  lemma OneMore(b: seq<byte>, isConnect: bool, s: State, at: bool, fields: Fields, ch: byte)
    requires ReadSoFar(b, isConnect, s, at, fields)
    ensures var t := ParseUrlChar(s, ch);
            ReadSoFar(b + [ch], isConnect, t, at || t == Target(ReqServerWithAt), Recording(fields, FieldOf(t), |b|))
  {
    hide ParseUrlChar, FieldOf, Recorded;
    var w := b + [ch];
    assert w[..|b|] == b;
    forall i: nat | i <= |b| ensures StateAt(w, isConnect, i) == StateAt(b, isConnect, i) {
      StateOfPrefix(w, isConnect, |b|, i);
    }
    forall f ensures RecordedAt(w, isConnect, |b|, fields, f) {
      assert RecordedAt(b, isConnect, |b|, fields, f);
      assert Belongs(w, isConnect, |b|, f) == Belongs(b, isConnect, |b|, f);
    }
    RecordKeeps(w, isConnect, |b|, fields);
  }

  /** A byte that belongs to no field. */
  lemma Delimit(b: seq<byte>, isConnect: bool, s: State, at: bool, fields: Fields, ch: byte)
    requires ReadSoFar(b, isConnect, s, at, fields) && FieldOf(ParseUrlChar(s, ch)) == None
    ensures ReadSoFar(b + [ch], isConnect, ParseUrlChar(s, ch), at, fields)
  {
    hide ReadSoFar, ParseUrlChar;
    OneMore(b, isConnect, s, at, fields, ch);
  }

  function RecordMany(fields: Fields, f: UrlField, p: nat, n: nat): Fields {
    if n == 0 then fields
    else if f in fields then fields[f := Range(fields[f].off, fields[f].len + n)] else fields[f := Range(p, n)]
  }

  lemma RecordNext(fields: Fields, f: UrlField, p: nat, n: nat)
    ensures Record(RecordMany(fields, f, p, n), f, p + n) == RecordMany(fields, f, p, n + 1)
  {
  }

  /** A piece of a field: the first byte leads to t, and the others stay there. */
  lemma {:induction false} Piece(b: seq<byte>, isConnect: bool, s: State, at: bool, fields: Fields, w: seq<byte>,
                                 t: State, f: UrlField)
    requires ReadSoFar(b, isConnect, s, at, fields) && w != [] && FieldOf(t) == Some(f) && t != Target(ReqServerWithAt)
    requires ParseUrlChar(s, w[0]) == t && forall i :: 0 < i < |w| ==> ParseUrlChar(t, w[i]) == t
    ensures ReadSoFar(b + w, isConnect, t, at, RecordMany(fields, f, |b|, |w|))
    decreases |w|
  {
    hide ReadSoFar, ParseUrlChar, FieldOf;
    var n := |w| - 1;
    assert b + w == (b + w[..n]) + [w[n]];
    RecordNext(fields, f, |b|, n);
    if n == 0 {
      assert b + w[..0] == b;
      OneMore(b, isConnect, s, at, fields, w[0]);
    } else {
      Piece(b, isConnect, s, at, fields, w[..n], t, f);
      OneMore(b + w[..n], isConnect, t, at, RecordMany(fields, f, |b|, n), w[n]);
    }
  }

  lemma FieldOfTarget(p: TargetPoint)
    ensures FieldOf(Target(p)) == match p
              case ReqSchema => Some(Schema) case ReqServer => Some(Host) case ReqServerWithAt => Some(Host)
              case ReqPath => Some(Path) case ReqQueryString => Some(Query) case ReqFragment => Some(Fragment)
              case _ => None
  {
  }

  // ------------------------------------------------------------------ the authority, as one field

  predicate ServerChar(ch: byte) { IsUserinfoChar(ch) || ch == '[' || ch == ']' }

  lemma ServerByte(s: State, ch: byte)
    requires InServer(s)
    ensures ServerChar(ch) ==> ParseUrlChar(s, ch) == Target(ReqServer)
    ensures s != Target(ReqServerWithAt) ==> ParseUrlChar(s, '@') == Target(ReqServerWithAt)
    ensures ParseUrlChar(s, '/') == Target(ReqPath) && ParseUrlChar(s, '?') == Target(ReqQueryStringStart)
  {
  }

  lemma RecordTwice(fields: Fields, f: UrlField, p: nat, n: nat, m: nat)
    ensures RecordMany(RecordMany(fields, f, p, n), f, p + n, m) == RecordMany(fields, f, p, n + m)
  {
  }

  lemma RecordIsMany(fields: Fields, f: UrlField, p: nat)
    ensures Record(fields, f, p) == RecordMany(fields, f, p, 1)
  {
  }

  lemma ServerPiece(b: seq<byte>, isConnect: bool, s: State, at: bool, fields: Fields, w: seq<byte>)
    requires ReadSoFar(b, isConnect, s, at, fields) && InServer(s) && forall i :: 0 <= i < |w| ==> ServerChar(w[i])
    ensures ReadSoFar(b + w, isConnect, if w == [] then s else Target(ReqServer), at,
                      RecordMany(fields, Host, |b|, |w|))
  {
    hide ReadSoFar, ParseUrlChar, ServerChar;
    if w == [] {
      assert b + w == b;
    } else {
      FieldOfTarget(ReqServer);
      ServerByte(s, w[0]);
      forall i | 0 < i < |w| ensures ParseUrlChar(Target(ReqServer), w[i]) == Target(ReqServer) {
        ServerByte(Target(ReqServer), w[i]);
      }
      Piece(b, isConnect, s, at, fields, w, Target(ReqServer), Host);
    }
  }

  /** The user information and its at sign. */
  lemma UserRead(b: seq<byte>, isConnect: bool, fields: Fields, u: Option<seq<byte>>)
    requires ReadSoFar(b, isConnect, Target(ReqServerStart), false, fields)
    requires u.Some? ==> forall i :: 0 <= i < |u.value| ==> IsUserinfoChar(u.value[i])
    ensures ReadSoFar(b + Behind(u, '@'), isConnect,
                      if u.Some? then Target(ReqServerWithAt) else Target(ReqServerStart), u.Some?,
                      RecordMany(fields, Host, |b|, |Behind(u, '@')|))
  {
    hide ReadSoFar, ParseUrlChar, IsUserinfoChar;
    match u
    case None => assert b + [] == b;
    case Some(t) =>
      ServerPiece(b, isConnect, Target(ReqServerStart), false, fields, t);
      var s := if t == [] then Target(ReqServerStart) else Target(ReqServer);
      ServerByte(s, '@');
      FieldOfTarget(ReqServerWithAt);
      OneMore(b + t, isConnect, s, false, RecordMany(fields, Host, |b|, |t|), '@');
      RecordNext(fields, Host, |b|, |t|);
      assert (b + t) + ['@'] == b + (t + ['@']);
  }

  lemma HostNameChars(h: HostName)
    requires HostNameFits(h)
    ensures HostNameText(h) != [] && InHostName(h) != []
    ensures forall i :: 0 <= i < |HostNameText(h)| ==> ServerChar(HostNameText(h)[i])
  {
    var t := InHostName(h);
    forall i | 0 <= i < |t| ensures ServerChar(t[i]) {
      if h.Literal? && i >= |h.address| {
        assert t[i] == Before(h.zone, '%')[i - |h.address|];
      }
    }
  }

  lemma PortChars(port: Option<seq<byte>>)
    requires port.Some? ==> Digits(port.value)
    ensures forall i :: 0 <= i < |Before(port, ':')| ==> ServerChar(Before(port, ':')[i])
  {
  }

  /** An authority is one field for the target automaton, which only notes whether there is an at sign. */
  lemma AuthorityRead(b: seq<byte>, isConnect: bool, fields: Fields, a: Authority)
    requires ReadSoFar(b, isConnect, Target(ReqServerStart), false, fields) && AuthorityFits(a)
    ensures ReadSoFar(b + AuthorityText(a), isConnect, Target(ReqServer), a.userinfo.Some?,
                      RecordMany(fields, Host, |b|, |AuthorityText(a)|))
  {
    hide ReadSoFar, ParseUrlChar, IsUserinfoChar, ServerChar, HostNameFits, Decimal, Digits;
    var user, rest := Behind(a.userinfo, '@'), HostNameText(a.host) + Before(a.port, ':');
    UserRead(b, isConnect, fields, a.userinfo);
    HostNameChars(a.host);
    PortChars(a.port);
    var s := if a.userinfo.Some? then Target(ReqServerWithAt) else Target(ReqServerStart);
    ServerPiece(b + user, isConnect, s, a.userinfo.Some?, RecordMany(fields, Host, |b|, |user|), rest);
    RecordTwice(fields, Host, |b|, |user|, |rest|);
    assert AuthorityText(a) == user + rest && (b + user) + rest == b + AuthorityText(a);
  }

  // ------------------------------------------------------------------ the authority, in its parts

  ghost predicate HostSoFar(b: seq<byte>, at: bool, s: HostState, fields: Fields) {
    HostAt(b, at, |b|) == s && HostRecorded(b, at, |b|, fields)
  }

  lemma {:induction false} HostOfPrefix(text: seq<byte>, at: bool, n: nat, i: nat)
    requires i <= n <= |text|
    ensures HostAt(text[..n], at, i) == HostAt(text, at, i)
  {
    hide ParseHostChar;
    if i > 0 {
      HostOfPrefix(text, at, n, i - 1);
    }
  }

  lemma HostMore(b: seq<byte>, at: bool, s: HostState, fields: Fields, ch: byte)
    requires HostSoFar(b, at, s, fields)
    ensures var t := ParseHostChar(s, ch);
            HostSoFar(b + [ch], at, t, Recording(fields, HostFieldOf(t), |b|))
  {
    hide ParseHostChar, HostFieldOf, Recorded;
    var w := b + [ch];
    assert w[..|b|] == b;
    forall i: nat | i <= |b| ensures HostAt(w, at, i) == HostAt(b, at, i) {
      HostOfPrefix(w, at, |b|, i);
    }
    forall f ensures HostRecordedAt(w, at, |b|, fields, f) {
      assert HostRecordedAt(b, at, |b|, fields, f);
      assert HostBelongs(w, at, |b|, f) == HostBelongs(b, at, |b|, f);
    }
    HostRecordKeeps(w, at, |b|, fields);
  }

  lemma {:induction false} HostPiece(b: seq<byte>, at: bool, s: HostState, fields: Fields, w: seq<byte>, t: HostState,
                                     f: UrlField)
    requires HostSoFar(b, at, s, fields) && w != [] && HostFieldOf(t) == Some(f)
    requires ParseHostChar(s, w[0]) == t && forall i :: 0 < i < |w| ==> ParseHostChar(t, w[i]) == t
    ensures HostSoFar(b + w, at, t, RecordMany(fields, f, |b|, |w|))
    decreases |w|
  {
    hide HostSoFar, ParseHostChar, HostFieldOf;
    var n := |w| - 1;
    assert b + w == (b + w[..n]) + [w[n]];
    RecordNext(fields, f, |b|, n);
    if n == 0 {
      assert b + w[..0] == b;
      HostMore(b, at, s, fields, w[0]);
    } else {
      HostPiece(b, at, s, fields, w[..n], t, f);
      HostMore(b + w[..n], at, t, RecordMany(fields, f, |b|, n), w[n]);
    }
  }

  lemma UserParts(u: Option<seq<byte>>)
    requires u.Some? ==> forall i :: 0 <= i < |u.value| ==> IsUserinfoChar(u.value[i])
    ensures HostSoFar(Behind(u, '@'), u.Some?, HostStart, RecordMany(map[], Userinfo, 0, TextLength(u)))
  {
    hide ParseHostChar, IsUserinfoChar, HostSoFar;
    var s := if u.Some? then UserinfoStart else HostStart;
    NothingHostRecorded([], u.Some?);
    assert HostSoFar([], u.Some?, s, map[]) by { NoHostYet(u.Some?); }
    match u
    case None =>
    case Some(t) =>
      if t != [] {
        UserBytes(UserinfoStart, t[0]);
        forall i | 0 < i < |t| ensures ParseHostChar(InUserinfo, t[i]) == InUserinfo { UserBytes(InUserinfo, t[i]); }
        HostPiece([], true, UserinfoStart, map[], t, InUserinfo, Userinfo);
        assert [] + t == t;
      }
      var s1 := if t == [] then UserinfoStart else InUserinfo;
      UserBytes(s1, '@');
      HostMore(t, true, s1, RecordMany(map[], Userinfo, 0, |t|), '@');
  }

  lemma NoHostYet(at: bool)
    ensures HostSoFar([], at, if at then UserinfoStart else HostStart, map[])
  {
    NothingHostRecorded([], at);
  }

  lemma UserBytes(s: HostState, ch: byte)
    requires s == UserinfoStart || s == InUserinfo
    ensures IsUserinfoChar(ch) ==> ParseHostChar(s, ch) == InUserinfo
    ensures ParseHostChar(s, '@') == HostStart
  {
  }

  lemma NameParts(b: seq<byte>, at: bool, fields: Fields, name: seq<byte>)
    requires HostSoFar(b, at, HostStart, fields) && name != [] && forall i :: 0 <= i < |name| ==> IsHostChar(name[i])
    ensures HostSoFar(b + name, at, InHost, RecordMany(fields, Host, |b|, |name|))
  {
    hide HostSoFar;
    HostPiece(b, at, HostStart, fields, name, InHost, Host);
  }

  lemma ZoneParts(b: seq<byte>, at: bool, fields: Fields, zone: seq<byte>)
    requires HostSoFar(b, at, V6, fields) && zone != [] && forall i :: 0 <= i < |zone| ==> IsZoneChar(zone[i])
    ensures HostSoFar(b + (['%'] + zone), at, Zone, RecordMany(fields, Host, |b|, 1 + |zone|))
  {
    hide HostSoFar;
    HostMore(b, at, V6, fields, '%');
    RecordIsMany(fields, Host, |b|);
    HostPiece(b + ['%'], at, ZoneStart, RecordMany(fields, Host, |b|, 1), zone, Zone, Host);
    RecordTwice(fields, Host, |b|, 1, |zone|);
    assert (b + ['%']) + zone == b + (['%'] + zone);
  }

  lemma LiteralParts(b: seq<byte>, at: bool, fields: Fields, h: HostName)
    requires HostSoFar(b, at, HostStart, fields) && HostNameFits(h) && h.Literal?
    ensures HostSoFar(b + HostNameText(h), at, V6End, RecordMany(fields, Host, |b| + 1, |InHostName(h)|))
  {
    hide HostSoFar, IsZoneChar;
    HostMore(b, at, HostStart, fields, '[');
    HostPiece(b + ['['], at, V6Start, fields, h.address, V6, Host);
    var b1 := (b + ['[']) + h.address;
    var f1 := RecordMany(fields, Host, |b| + 1, |h.address|);
    var s := if h.zone.Some? then Zone else V6;
    if h.zone.Some? {
      ZoneParts(b1, at, f1, h.zone.value);
      RecordTwice(fields, Host, |b| + 1, |h.address|, 1 + |h.zone.value|);
    } else {
      assert b1 + [] == b1;
    }
    var b2 := b1 + Before(h.zone, '%');
    HostMore(b2, at, s, RecordMany(fields, Host, |b| + 1, |InHostName(h)|), ']');
    assert b2 + [']'] == b + HostNameText(h);
  }

  lemma PortParts(b: seq<byte>, at: bool, s: HostState, fields: Fields, port: seq<byte>)
    requires HostSoFar(b, at, s, fields) && (s == InHost || s == V6End) && port != [] && Digits(port)
    ensures HostSoFar(b + ([':'] + port), at, InPort, RecordMany(fields, Port, |b| + 1, |port|))
  {
    hide HostSoFar;
    HostMore(b, at, s, fields, ':');
    HostPiece(b + [':'], at, PortStart, fields, port, InPort, Port);
    assert (b + [':']) + port == b + ([':'] + port);
  }

  lemma HasShape(a: Authority)
    requires AuthorityFits(a)
    ensures AuthorityShape(a)
  {
  }

  /** The host automaton finds the parts of an authority where they were written. */
  lemma AuthorityParts(a: Authority)
    requires AuthorityShape(a)
    ensures var s := HostAt(AuthorityText(a), a.userinfo.Some?, |AuthorityText(a)|);
            HostMayEnd(s) && HostRecorded(AuthorityText(a), a.userinfo.Some?, |AuthorityText(a)|,
                                          AuthorityRanges(a, 0, map[]))
  {
    hide HostSoFar, ParseHostChar, IsUserinfoChar, HostNameText, InHostName, Decimal, Digits, HostAt, HostRecorded;
    var at, user := a.userinfo.Some?, Behind(a.userinfo, '@');
    UserParts(a.userinfo);
    var f0 := RecordMany(map[], Userinfo, 0, TextLength(a.userinfo));
    HostNameChars(a.host);
    var off := |user| + if a.host.Literal? then 1 else 0;
    var s := if a.host.Literal? then V6End else InHost;
    if a.host.Literal? {
      LiteralParts(user, at, f0, a.host);
    } else {
      RegisteredIs(a.host);
      NameParts(user, at, f0, a.host.name);
    }
    var b, f1 := user + HostNameText(a.host), RecordMany(f0, Host, off, |InHostName(a.host)|);
    if a.port.Some? {
      PortParts(b, at, s, f1, a.port.value);
      s := InPort;
    } else {
      assert b + [] == b;
    }
    SoFarIs(AuthorityText(a), at, s, RecordMany(f1, Port, |b| + 1, TextLength(a.port)));
    RangesAreMany(a);
  }

  lemma RegisteredIs(h: HostName)
    requires h.Registered?
    ensures HostNameText(h) == h.name && InHostName(h) == h.name
  {
  }

  lemma SoFarIs(b: seq<byte>, at: bool, s: HostState, fields: Fields)
    requires HostSoFar(b, at, s, fields)
    ensures HostAt(b, at, |b|) == s && HostRecorded(b, at, |b|, fields)
  {
  }

  lemma RangesAreMany(a: Authority)
    ensures AuthorityRanges(a, 0, map[])
         == RecordMany(RecordMany(RecordMany(map[], Userinfo, 0, TextLength(a.userinfo)), Host,
                                  |Behind(a.userinfo, '@')| + (if a.host.Literal? then 1 else 0), |InHostName(a.host)|),
                       Port, |Behind(a.userinfo, '@') + HostNameText(a.host)| + 1, TextLength(a.port))
  {
    hide HostNameText, InHostName;
  }

  // ------------------------------------------------------------------ the rest of the URL

  lemma PathByte(s: State, ch: byte)
    requires InServer(s) || s == RequestStart(ReqSpacesBeforeUrl)
    ensures ParseUrlChar(s, '/') == Target(ReqPath)
    ensures s == RequestStart(ReqSpacesBeforeUrl) ==> ParseUrlChar(s, '*') == Target(ReqPath)
    ensures IsUrlChar(ch) ==> ParseUrlChar(Target(ReqPath), ch) == Target(ReqPath)
  {
  }

  /** Where a path may begin: s is the state in front of it, and whether it may be missing. */
  lemma PathRead(b: seq<byte>, s: State, at: bool, fields: Fields, p: seq<byte>)
    requires ReadSoFar(b, false, s, at, fields) && Path !in fields && PathFits(p)
    requires InServer(s) || s == RequestStart(ReqSpacesBeforeUrl)
    requires p != [] ==> p[0] == '/' || (p[0] == '*' && !InServer(s))
    ensures ReadSoFar(b + p, false, if p == [] then s else Target(ReqPath), at, With(fields, Path, |b|, |p|))
  {
    hide ReadSoFar, ParseUrlChar, IsUrlChar;
    if p == [] {
      assert b + p == b;
    } else {
      FieldOfTarget(ReqPath);
      PathByte(s, p[0]);
      forall i | 0 < i < |p| ensures ParseUrlChar(Target(ReqPath), p[i]) == Target(ReqPath) { PathByte(s, p[i]); }
      Piece(b, false, s, at, fields, p, Target(ReqPath), Path);
    }
  }

  lemma QueryByte(s: State, ch: byte)
    ensures InServer(s) || s == Target(ReqPath) ==> ParseUrlChar(s, '?') == Target(ReqQueryStringStart)
    ensures (s == Target(ReqQueryStringStart) || s == Target(ReqQueryString)) && (IsUrlChar(ch) || ch == '?') ==>
              ParseUrlChar(s, ch) == Target(ReqQueryString)
  {
  }

  /** The question mark and what follows it. */
  lemma QueryRead(b: seq<byte>, s: State, at: bool, fields: Fields, q: seq<byte>)
    requires ReadSoFar(b, false, s, at, fields) && Query !in fields && (InServer(s) || s == Target(ReqPath))
    requires forall i :: 0 <= i < |q| ==> IsUrlChar(q[i]) || q[i] == '?'
    ensures ReadSoFar(b + (['?'] + q), false, Target(if q == [] then ReqQueryStringStart else ReqQueryString), at,
                      With(fields, Query, |b| + 1, |q|))
  {
    hide ReadSoFar, ParseUrlChar, IsUrlChar;
    QueryByte(s, '?');
    FieldOfTarget(ReqQueryStringStart);
    FieldOfTarget(ReqQueryString);
    Delimit(b, false, s, at, fields, '?');
    assert (b + ['?']) + q == b + (['?'] + q);
    if q != [] {
      QueryByte(Target(ReqQueryStringStart), q[0]);
      forall i | 0 < i < |q| ensures ParseUrlChar(Target(ReqQueryString), q[i]) == Target(ReqQueryString) {
        QueryByte(Target(ReqQueryString), q[i]);
      }
      Piece(b + ['?'], false, Target(ReqQueryStringStart), at, fields, q, Target(ReqQueryString), Query);
    } else {
      assert b + (['?'] + q) == b + ['?'];
    }
  }

  predicate MayFragment(s: State) {
    || s == Target(ReqPath) || s == Target(ReqQueryStringStart) || s == Target(ReqQueryString)
    || s == Target(ReqFragmentStart)
  }

  lemma FragmentByte(s: State, ch: byte)
    ensures MayFragment(s) ==> ParseUrlChar(s, '#') == Target(ReqFragmentStart)
    ensures IsUrlChar(ch) || ch == '?' ==> ParseUrlChar(Target(ReqFragmentStart), ch) == Target(ReqFragment)
    ensures IsUrlChar(ch) || ch == '?' || ch == '#' ==> ParseUrlChar(Target(ReqFragment), ch) == Target(ReqFragment)
  {
  }

  /** One hash or several. */
  lemma {:induction false} HashesRead(b: seq<byte>, s: State, at: bool, fields: Fields, w: seq<byte>)
    requires ReadSoFar(b, false, s, at, fields) && forall i :: 0 <= i < |w| ==> w[i] == '#'
    requires MayFragment(s)
    ensures ReadSoFar(b + w, false, if w == [] then s else Target(ReqFragmentStart), at, fields)
    decreases |w|
  {
    hide ReadSoFar, ParseUrlChar;
    if w == [] {
      assert b + w == b;
    } else {
      var n := |w| - 1;
      HashesRead(b, s, at, fields, w[..n]);
      var t := if n == 0 then s else Target(ReqFragmentStart);
      FragmentByte(t, '#');
      FieldOfTarget(ReqFragmentStart);
      Delimit(b + w[..n], false, t, at, fields, '#');
      assert b + w == (b + w[..n]) + ['#'];
    }
  }

  lemma FragmentRest(b: seq<byte>, at: bool, fields: Fields, w: seq<byte>)
    requires ReadSoFar(b, false, Target(ReqFragmentStart), at, fields) && Fragment !in fields && FragmentFits(w)
    requires w != [] ==> w[0] != '#'
    ensures ReadSoFar(b + w, false, Target(if w == [] then ReqFragmentStart else ReqFragment), at,
                      With(fields, Fragment, |b|, |w|))
  {
    hide ReadSoFar, ParseUrlChar, IsUrlChar;
    if w == [] {
      assert b + w == b;
    } else {
      FieldOfTarget(ReqFragment);
      FragmentByte(Target(ReqFragmentStart), w[0]);
      forall i | 0 < i < |w| ensures ParseUrlChar(Target(ReqFragment), w[i]) == Target(ReqFragment) {
        FragmentByte(Target(ReqFragment), w[i]);
      }
      Piece(b, false, Target(ReqFragmentStart), at, fields, w, Target(ReqFragment), Fragment);
    }
  }

  /** The hash and what follows it. */
  lemma FragmentRead(b: seq<byte>, s: State, at: bool, fields: Fields, g: seq<byte>)
    requires ReadSoFar(b, false, s, at, fields) && Fragment !in fields && FragmentFits(g)
    requires MayFragment(s) && s != Target(ReqFragmentStart)
    ensures ReadSoFar(b + (['#'] + g), false, Target(if |g| == Hashes(g) then ReqFragmentStart else ReqFragment), at,
                      FragmentRanges(Some(g), |b|, fields))
  {
    hide ReadSoFar, FragmentFits, With;
    var k := Hashes(g);
    var hashes, rest := ['#'] + g[..k], g[k..];
    HashesRead(b, s, at, fields, hashes);
    RestFits(g, k);
    FragmentRest(b + hashes, at, fields, rest);
    CutInTwo(b, g, k);
  }

  lemma RestFits(g: seq<byte>, k: nat)
    requires FragmentFits(g) && k <= |g|
    ensures FragmentFits(g[k..])
  {
    hide IsUrlChar;
  }

  lemma CutInTwo(b: seq<byte>, g: seq<byte>, k: nat)
    requires k <= |g|
    ensures (b + (['#'] + g[..k])) + g[k..] == b + (['#'] + g) && |b + (['#'] + g[..k])| == |b| + 1 + k
  {
    assert g[..k] + g[k..] == g;
  }

  /** The fields that come behind the site. */
  predicate NoTail(fields: Fields) { Path !in fields && Query !in fields && Fragment !in fields }

  lemma TailRead(b: seq<byte>, s: State, at: bool, fields: Fields, x: UrlParts)
    requires ReadSoFar(b, false, s, at, fields) && NoTail(fields) && TailFits(s, x)
    ensures var text := ((b + x.path) + Before(x.query, '?')) + Before(x.fragment, '#');
            && StateAt(text, false, |text|) != Start(Dead) && (SeenAt(text, false, |text|) <==> at)
            && AllRecorded(text, false, |text|, TailRanges(x, |b|, fields))
  {
    hide ReadSoFar, IsUrlChar, AuthorityFits, AuthorityShape, StateAt;
    PathRead(b, s, at, fields, x.path);
    var s1, f1 := if x.path == [] then s else Target(ReqPath), With(fields, Path, |b|, |x.path|);
    var b1 := b + x.path;
    var s2, f2 := s1, f1;
    if x.query.Some? {
      QueryRead(b1, s1, at, f1, x.query.value);
      s2 := Target(if x.query.value == [] then ReqQueryStringStart else ReqQueryString);
    } else {
      assert b1 + [] == b1;
    }
    f2 := With(f1, Query, |b1| + 1, TextLength(x.query));
    var b2 := b1 + Before(x.query, '?');
    var s3 := s2;
    if x.fragment.Some? {
      FragmentRead(b2, s2, at, f2, x.fragment.value);
      s3 := Target(if |x.fragment.value| == Hashes(x.fragment.value) then ReqFragmentStart else ReqFragment);
    } else {
      assert b2 + [] == b2;
    }
    var f3 := FragmentRanges(x.fragment, |b2|, f2);
    ReadFacts(b2 + Before(x.fragment, '#'), false, s3, at, f3);
  }

  lemma ReadFacts(b: seq<byte>, isConnect: bool, s: State, at: bool, fields: Fields)
    requires ReadSoFar(b, isConnect, s, at, fields)
    ensures StateAt(b, isConnect, |b|) == s && (SeenAt(b, isConnect, |b|) <==> at)
    ensures AllRecorded(b, isConnect, |b|, fields)
  {
  }

  lemma SchemeBytes(ch: byte)
    requires IsAlpha(ch)
    ensures ParseUrlChar(RequestStart(ReqSpacesBeforeUrl), ch) == Target(ReqSchema)
    ensures ParseUrlChar(Target(ReqSchema), ch) == Target(ReqSchema)
  {
  }

  lemma SlashBytes()
    ensures ParseUrlChar(Target(ReqSchema), ':') == Target(ReqSchemaSlash)
    ensures ParseUrlChar(Target(ReqSchemaSlash), '/') == Target(ReqSchemaSlashSlash)
    ensures ParseUrlChar(Target(ReqSchemaSlashSlash), '/') == Target(ReqServerStart)
  {
  }

  /** A scheme and the slashes. */
  lemma SchemeRead(scheme: seq<byte>)
    requires scheme != [] && forall i :: 0 <= i < |scheme| ==> IsAlpha(scheme[i])
    ensures ReadSoFar(scheme, false, Target(ReqSchema), false, map[Schema := Range(0, |scheme|)])
  {
    hide ReadSoFar, ParseUrlChar, IsAlpha;
    NothingRead(false);
    forall i | 0 <= i < |scheme|
      ensures ParseUrlChar(RequestStart(ReqSpacesBeforeUrl), scheme[i]) == Target(ReqSchema)
      ensures ParseUrlChar(Target(ReqSchema), scheme[i]) == Target(ReqSchema)
    {
      SchemeBytes(scheme[i]);
    }
    FieldOfTarget(ReqSchema);
    Piece([], false, RequestStart(ReqSpacesBeforeUrl), false, map[], scheme, Target(ReqSchema), Schema);
    assert [] + scheme == scheme;
  }

  lemma SlashesRead(b: seq<byte>, fields: Fields)
    requires ReadSoFar(b, false, Target(ReqSchema), false, fields)
    ensures ReadSoFar(b + [':'], false, Target(ReqSchemaSlash), false, fields)
    ensures ReadSoFar((b + [':']) + ['/'], false, Target(ReqSchemaSlashSlash), false, fields)
    ensures ReadSoFar(b + [':', '/', '/'], false, Target(ReqServerStart), false, fields)
  {
    hide ReadSoFar, ParseUrlChar;
    SlashBytes();
    FieldOfTarget(ReqSchemaSlash);
    FieldOfTarget(ReqSchemaSlashSlash);
    FieldOfTarget(ReqServerStart);
    Delimit(b, false, Target(ReqSchema), false, fields, ':');
    Delimit(b + [':'], false, Target(ReqSchemaSlash), false, fields, '/');
    Delimit((b + [':']) + ['/'], false, Target(ReqSchemaSlashSlash), false, fields, '/');
    assert ((b + [':']) + ['/']) + ['/'] == b + [':', '/', '/'];
  }

  /** A scheme, the slashes and an authority. */
  lemma SiteRead(x: Site)
    requires x.scheme != [] && (forall i :: 0 <= i < |x.scheme| ==> IsAlpha(x.scheme[i])) && AuthorityFits(x.authority)
    ensures ReadSoFar(SiteText(Some(x)), false, Target(ReqServer), x.authority.userinfo.Some?,
                      map[Schema := Range(0, |x.scheme|), Host := Range(|x.scheme| + 3, |AuthorityText(x.authority)|)])
  {
    hide ReadSoFar, ParseUrlChar, IsAlpha, AuthorityFits, AuthorityText;
    var fields: Fields := map[Schema := Range(0, |x.scheme|)];
    SchemeRead(x.scheme);
    SlashesRead(x.scheme, fields);
    AuthorityRead(x.scheme + [':', '/', '/'], false, fields, x.authority);
    AuthorityNotEmpty(x.authority);
  }

  lemma AuthorityNotEmpty(a: Authority)
    requires AuthorityFits(a)
    ensures AuthorityText(a) != []
  {
    hide HostNameFits, HostNameText;
    HostNameChars(a.host);
  }

  // ------------------------------------------------------------------ the whole URL

  /** What the target automaton assigns: the authority is one field. */
  function Coarse(x: UrlParts): Fields {
    match x.site
    case None => map[]
    case Some(s) =>
      map[Schema := Range(0, |s.scheme|), Host := Range(|s.scheme| + 3, |AuthorityText(s.authority)|)]
  }

  lemma UrlRead(x: UrlParts)
    requires PartsFit(x)
    ensures var text := UrlText(x);
            && text != [] && StateAt(text, false, |text|) != Start(Dead)
            && (SeenAt(text, false, |text|) <==> x.site.Some? && x.site.value.authority.userinfo.Some?)
            && AllRecorded(text, false, |text|, TailRanges(x, |SiteText(x.site)|, Coarse(x)))
  {
    hide ReadSoFar, StateAt, SeenAt, AllRecorded, TailRanges, AuthorityText, AuthorityFits, AuthorityShape, PathFits,
         FragmentFits;
    match x.site
    case None =>
      NothingRead(false);
      TailRead([], RequestStart(ReqSpacesBeforeUrl), false, map[], x);
      assert [] + x.path == x.path;
    case Some(s) =>
      SiteRead(s);
      TailRead(SiteText(x.site), Target(ReqServer), s.authority.userinfo.Some?, Coarse(x), x);
  }

  lemma TailKeeps(x: UrlParts, base: nat, fields: Fields, f: UrlField)
    requires NoTail(fields) && f != Path && f != Query && f != Fragment
    ensures var r := TailRanges(x, base, fields);
            (f in r <==> f in fields) && (f in fields ==> r[f] == fields[f])
  {
  }

  lemma HostSlice(x: UrlParts)
    requires PartsFit(x) && x.site.Some?
    ensures var s := x.site.value; var r := Range(|s.scheme| + 3, |AuthorityText(s.authority)|);
            InBounds(UrlText(x), r) && Text(UrlText(x), r) == AuthorityText(s.authority)
  {
    hide AuthorityText, AuthorityFits, AuthorityShape, PathFits, FragmentFits;
    var s := x.site.value;
    AuthorityNotEmpty(s.authority);
    var head, tail := s.scheme + [':', '/', '/'], x.path + (Before(x.query, '?') + Before(x.fragment, '#'));
    assert UrlText(x) == (head + AuthorityText(s.authority)) + tail;
  }

  /** The fields of the authority's parts are moved to where the authority begins. */
  lemma MovedRanges(a: Authority, base: nat)
    ensures AuthorityRanges(a, base, map[]) == Shifted(AuthorityRanges(a, 0, map[]), base)
  {
    hide HostNameText, InHostName;
  }

  lemma RefinedParts(x: UrlParts)
    requires PartsFit(x) && x.site.Some?
    ensures var s := x.site.value; var full := TailRanges(x, |SiteText(x.site)|, Coarse(x));
            Host in full && Refine(full, AuthorityRanges(s.authority, 0, map[])) == Ranges(x)
  {
    hide AuthorityText, HostNameText, InHostName, AuthorityFits, AuthorityShape, PathFits, FragmentFits, TailRanges,
         AuthorityRanges,
         SiteText, SiteRanges;
    var a, base, k := x.site.value.authority, |SiteText(x.site)|, |x.site.value.scheme| + 3;
    TailKeeps(x, base, Coarse(x), Host);
    MovedRanges(a, k);
    SiteIsMoved(x.site.value);
    LaterPieces(x, base, Coarse(x), SiteRanges(x.site), AuthorityRanges(a, k, map[]));
  }

  lemma SiteIsMoved(s: Site)
    requires AuthorityFits(s.authority)
    ensures SiteRanges(Some(s)) == map[Schema := Range(0, |s.scheme|),
                                       Host := Range(|s.scheme| + 3, |AuthorityText(s.authority)|)]
                                   + AuthorityRanges(s.authority, |s.scheme| + 3, map[])
    ensures NoTail(SiteRanges(Some(s)))
  {
    hide AuthorityText, HostNameText, InHostName, AuthorityFits, AuthorityShape;
    HostWritten(s.authority);
  }

  lemma HostWritten(a: Authority)
    requires AuthorityFits(a)
    ensures InHostName(a.host) != []
  {
    hide HostNameFits, HostNameText, InHostName;
    HostNameChars(a.host);
  }

  /** Replacing the authority before or behind the tail has been added is the same. */
  lemma LaterPieces(x: UrlParts, base: nat, coarse: Fields, fine: Fields, parts: Fields)
    requires NoTail(coarse) && NoTail(fine) && fine == coarse + parts
    ensures TailRanges(x, base, coarse) + parts == TailRanges(x, base, fine)
  {
  }

  lemma PortSlice(a: Authority)
    requires AuthorityShape(a) && a.port.Some?
    ensures var hf := AuthorityRanges(a, 0, map[]);
            Port in hf && InBounds(AuthorityText(a), hf[Port]) && Text(AuthorityText(a), hf[Port]) == a.port.value
  {
    hide HostNameText, InHostName, HostNameFits;
    var front := Behind(a.userinfo, '@') + HostNameText(a.host);
    assert AuthorityText(a) == (front + [':']) + a.port.value;
  }

  lemma NoPort(a: Authority)
    requires a.port == None
    ensures Port !in AuthorityRanges(a, 0, map[])
  {
    hide HostNameText, InHostName;
  }

  /** The authority is well formed for the host automaton. */
  lemma AuthorityAccepted(a: Authority)
    requires AuthorityFits(a)
    ensures var text, at := AuthorityText(a), a.userinfo.Some?;
            HostMayEnd(HostAt(text, at, |text|)) && PortFits(text, at)
  {
    hide HostAt, HostRecorded, HostText, AuthorityText, AuthorityRanges, AuthorityFits, AuthorityShape, Decimal, Digits;
    var text, at := AuthorityText(a), a.userinfo.Some?;
    HasShape(a);
    AuthorityParts(a);
    HostTexts(text, at, AuthorityRanges(a, 0, map[]));
    if a.port.Some? {
      PortSlice(a);
      PortFitsIn(a);
    } else {
      NoPort(a);
    }
  }

  lemma PortFitsIn(a: Authority)
    requires AuthorityFits(a) && a.port.Some?
    ensures Digits(a.port.value) && Decimal(a.port.value) <= 0xffff
  {
    hide HostNameFits;
  }

  lemma PartsAccepted(x: UrlParts)
    requires PartsFit(x)
    ensures UrlAccepted(UrlText(x), false)
  {
    hide StateAt, SeenAt, AllRecorded, TailRanges, AuthorityText, AuthorityFits, AuthorityShape, PathFits,
         FragmentFits, FieldText, HostAt,
         PortFits, ConnectTarget, UrlText;
    var buf, full := UrlText(x), TailRanges(x, |SiteText(x.site)|, Coarse(x));
    UrlRead(x);
    SplitTexts(buf, false, full);
    TailKeeps(x, |SiteText(x.site)|, Coarse(x), Host);
    TailKeeps(x, |SiteText(x.site)|, Coarse(x), Schema);
    if x.site.Some? {
      HostSlice(x);
      AuthorityAccepted(x.site.value.authority);
    }
  }

  lemma PartsAssigned(x: UrlParts)
    requires PartsFit(x)
    ensures Assigned(UrlText(x), false, Ranges(x))
  {
    hide StateAt, SeenAt, AllRecorded, TailRanges, AuthorityText, AuthorityFits, AuthorityShape, PathFits,
         FragmentFits, HostAt,
         HostRecorded, UrlText, AuthorityRanges, SiteRanges, Refine;
    var buf, full := UrlText(x), TailRanges(x, |SiteText(x.site)|, Coarse(x));
    UrlRead(x);
    match x.site
    case None =>
      TailKeeps(x, |SiteText(x.site)|, Coarse(x), Host);
      NoHostAssigned(buf, false, full);
      assert SiteRanges(x.site) == Coarse(x) by { NoSite(x); }
    case Some(s) =>
      HostSlice(x);
      HasShape(s.authority);
      AuthorityParts(s.authority);
      RefinedParts(x);
      TailKeeps(x, |SiteText(x.site)|, Coarse(x), Host);
      HostAssigned(buf, false, full, AuthorityRanges(s.authority, 0, map[]));
  }

  lemma NoSite(x: UrlParts)
    requires x.site == None
    ensures SiteRanges(x.site) == Coarse(x)
  {
  }

  lemma OneAssignment(buf: seq<byte>, isConnect: bool, F: Fields, G: Fields, full: Fields, hf: Fields)
    requires Assigned(buf, isConnect, F) && Assigned(buf, isConnect, G)
    requires AllRecorded(buf, isConnect, |buf|, full) && PartsRecorded(buf, isConnect, full, hf)
    ensures F == G
  {
    hide AllRecorded, PartsRecorded, Refine;
  }

  lemma PortWritten(x: UrlParts)
    requires PartsFit(x)
    ensures var ranges := Ranges(x);
            if x.site.Some? && x.site.value.authority.port.Some?
            then Port in ranges && InBounds(UrlText(x), ranges[Port])
                 && Text(UrlText(x), ranges[Port]) == x.site.value.authority.port.value
            else Port !in ranges
  {
    hide AuthorityText, AuthorityRanges, AuthorityFits, AuthorityShape, PathFits, FragmentFits, UrlText, TailRanges,
         Refine, HostNameText;
    match x.site
    case None => TailKeeps(x, |SiteText(x.site)|, SiteRanges(x.site), Port);
    case Some(s) =>
      var full := TailRanges(x, |SiteText(x.site)|, Coarse(x));
      HostSlice(x);
      TailKeeps(x, |SiteText(x.site)|, Coarse(x), Host);
      RefinedParts(x);
      HasShape(s.authority);
      if s.authority.port.Some? {
        PortSlice(s.authority);
        RefinedPort(UrlText(x), full, AuthorityRanges(s.authority, 0, map[]));
      } else {
        NoPort(s.authority);
        TailKeeps(x, |SiteText(x.site)|, Coarse(x), Port);
        NotRefined(full, AuthorityRanges(s.authority, 0, map[]));
      }
  }

  lemma NotRefined(full: Fields, hf: Fields)
    requires Host in full && Port !in full && Port !in hf
    ensures Port !in Refine(full, hf)
  {
  }

  /** Whoever keeps the contract of http_parser_parse_url accepts a URL that is written from parts, and gives back
      exactly these parts. */
  lemma Composed(x: UrlParts, ok: bool, fields: Fields, port: nat)
    requires PartsFit(x) && ParsedRight(UrlText(x), false, ok, fields, port)
    ensures ok && fields == Ranges(x) && port == PortNumber(x)
  {
    hide UrlAccepted, Decomposes, WellSpelled, Assigned, Ranges, UrlText, AuthorityFits, AuthorityShape, PathFits,
         FragmentFits, Digits,
         Decimal, AllRecorded, SeenAt, StateAt, AuthorityText, AuthorityRanges, HostRecorded, TailRanges, HostAt;
    PartsAccepted(x);
    PartsAssigned(x);
    UrlRead(x);
    var full := TailRanges(x, |SiteText(x.site)|, Coarse(x));
    var hf: Fields := map[];
    if x.site.Some? {
      HostSlice(x);
      TailKeeps(x, |SiteText(x.site)|, Coarse(x), Host);
      HasShape(x.site.value.authority);
      AuthorityParts(x.site.value.authority);
      hf := AuthorityRanges(x.site.value.authority, 0, map[]);
    } else {
      TailKeeps(x, |SiteText(x.site)|, Coarse(x), Host);
    }
    OneAssignment(UrlText(x), false, fields, Ranges(x), full, hf);
    PortWritten(x);
  }

  /** Writing a URL from parts and parsing it. */
  method ParseParts(x: UrlParts) returns (ok: bool, fields: Fields, port: nat)
    requires PartsFit(x) && |UrlText(x)| < UINT16_MODULUS
    ensures ok && fields == Ranges(x) && port == PortNumber(x)
  {
    hide ParsedRight, UrlText, Ranges, PortNumber, PartsFit, HttpUrl.UrlFits;
    ghost var full;
    ok, fields, port, full := ParseUrl(UrlText(x), false);
    ShortUrlFits(UrlText(x), false);
    Composed(x, ok, fields, port);
  }

  // ------------------------------------------------------------------ CONNECT

  /** A host and a port, as CONNECT wants them. */
  lemma ConnectAccepted(a: Authority)
    requires AuthorityFits(a)
    ensures UrlAccepted(AuthorityText(a), true) <==> a.port.Some? && TextLength(a.userinfo) == 0
    ensures Assigned(AuthorityText(a), true, AuthorityRanges(a, 0, map[]))
  {
    hide StateAt, SeenAt, AllRecorded, HostRecorded, FieldText, HostText, HostAt, AuthorityText, AuthorityFits,
         AuthorityShape, PortFits,
         ReadSoFar, Refine, HostNameText, InHostName;
    var buf, at := AuthorityText(a), a.userinfo.Some?;
    var full: Fields := map[Host := Range(0, |buf|)];
    var hf := AuthorityRanges(a, 0, map[]);
    NothingRead(true);
    AuthorityRead([], true, map[], a);
    AuthorityNotEmpty(a);
    assert [] + buf == buf;
    ReadFacts(buf, true, Target(ReqServer), at, full);
    SplitTexts(buf, true, full);
    assert Text(buf, full[Host]) == buf;
    AuthorityAccepted(a);
    HasShape(a);
    AuthorityParts(a);
    HostTexts(buf, at, hf);
    HostWritten(a);
    HostAssigned(buf, true, full, hf);
    WholeHost(full, hf, |buf|);
    PartsPresent(a);
  }

  lemma PartsPresent(a: Authority)
    requires AuthorityFits(a)
    ensures var hf := AuthorityRanges(a, 0, map[]);
            (Port in hf <==> a.port.Some?) && (Userinfo in hf <==> TextLength(a.userinfo) > 0) && Host in hf
  {
    hide HostNameText, InHostName, HostNameFits;
    HostWritten(a);
  }

  lemma WholeHost(full: Fields, hf: Fields, n: nat)
    requires full == map[Host := Range(0, n)] && Host in hf
    ensures Refine(full, hf) == hf
  {
    assert Shifted(hf, 0) == hf;
  }

  lemma ComposedConnect(a: Authority, ok: bool, fields: Fields, port: nat)
    requires AuthorityFits(a) && ParsedRight(AuthorityText(a), true, ok, fields, port)
    ensures ok <==> a.port.Some? && TextLength(a.userinfo) == 0
    ensures ok ==> fields == AuthorityRanges(a, 0, map[]) && port == Decimal(a.port.value)
  {
    hide UrlAccepted, Decomposes, WellSpelled, Assigned, AuthorityFits, AuthorityShape, Digits, Decimal, AllRecorded,
         SeenAt,
         AuthorityText, AuthorityRanges, HostRecorded, HostAt, StateAt, ReadSoFar;
    ConnectAccepted(a);
    if ok {
      var buf, at := AuthorityText(a), a.userinfo.Some?;
      var full: Fields := map[Host := Range(0, |buf|)];
      NothingRead(true);
      AuthorityRead([], true, map[], a);
      AuthorityNotEmpty(a);
      assert [] + buf == buf;
      ReadFacts(buf, true, Target(ReqServer), at, full);
      HasShape(a);
      AuthorityParts(a);
      assert Text(buf, full[Host]) == buf;
      var hf := AuthorityRanges(a, 0, map[]);
      OneAssignment(buf, true, fields, hf, full, hf);
      PortSlice(a);
    }
  }
}
