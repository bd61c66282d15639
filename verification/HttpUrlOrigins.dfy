/** Every URL that is accepted is written from parts: the converse of the composition. */
module HttpUrlOrigins {
  import opened Common
  import opened HttpTypes
  import opened HttpUrlChar
  import opened HttpStep
  import opened HttpLength
  import opened HttpUrl
  import opened HttpTargets
  import opened HttpUrlText

  predicate QueryChar(ch: byte) { IsUrlChar(ch) || ch == '?' }

  predicate FragmentChar(ch: byte) { IsUrlChar(ch) || ch == '?' || ch == '#' }

  predicate AddressChar(ch: byte) { IsHex(ch) || ch == ':' || ch == '.' }

  predicate HostByte(ch: byte) { ServerChar(ch) || ch == '@' }

  /** No two at signs next to each other. */
  predicate AtsApart(w: seq<byte>) { forall i :: 0 < i < |w| && w[i] == '@' ==> w[i - 1] != '@' }

  // ------------------------------------------------------------------ the target automaton

  lemma NextAlive(buf: seq<byte>, b: seq<byte>, r: seq<byte>, s: State)
    requires buf == b + r && r != [] && StateAt(buf, false, |buf|) != Start(Dead) && StateAt(b, false, |b|) == s
    ensures ParseUrlChar(s, r[0]).Target?
  {
    hide ParseUrlChar;
    AliveBefore(buf, false, |b| + 1);
    assert buf[..|b|] == b;
    StateOfPrefix(buf, false, |b|, |b|);
  }

  lemma StateOf(b: seq<byte>, s: State, at: bool, fields: Fields)
    requires ReadSoFar(b, false, s, at, fields)
    ensures StateAt(b, false, |b|) == s
  {
  }

  lemma OnlyQueryOrHash(s: State, ch: byte)
    requires ParseUrlChar(s, ch).Target?
    ensures s == Target(ReqPath) && !IsUrlChar(ch) ==> ch == '?' || ch == '#'
    ensures (s == Target(ReqQueryStringStart) || s == Target(ReqQueryString)) && !QueryChar(ch) ==> ch == '#'
    ensures (s == Target(ReqFragmentStart) || s == Target(ReqFragment)) ==> FragmentChar(ch)
    ensures InServer(s) && !HostByte(ch) ==> ch == '/' || ch == '?'
    ensures s == Target(ReqSchema) && !IsAlpha(ch) ==> ch == ':'
    ensures (s == Target(ReqSchemaSlash) || s == Target(ReqSchemaSlashSlash)) ==> ch == '/'
    ensures s == RequestStart(ReqSpacesBeforeUrl) ==> ch == '/' || ch == '*' || IsAlpha(ch)
  {
  }

  lemma FragmentOrigin(b: seq<byte>, s: State, at: bool, fields: Fields, g: seq<byte>)
    requires ReadSoFar(b, false, s, at, fields) && Fragment !in fields
    requires MayFragment(s) && s != Target(ReqFragmentStart)
    requires var buf := b + (['#'] + g); StateAt(buf, false, |buf|) != Start(Dead)
    ensures FragmentFits(g)
  {
    hide ReadSoFar, ParseUrlChar, StateAt, IsUrlChar, Front, FragmentRanges;
    var buf, n := b + (['#'] + g), Front(g, FragmentChar);
    if n < |g| {
      var front, rest := g[..n], g[n..];
      FragmentRead(b, s, at, fields, front);
      var t := Target(if |front| == Hashes(front) then ReqFragmentStart else ReqFragment);
      StateOf(b + (['#'] + front), t, at, FragmentRanges(Some(front), |b|, fields));
      CutInTwo(b, g, n);
      NextAlive(buf, b + (['#'] + front), rest, t);
      OnlyQueryOrHash(t, rest[0]);
    }
  }

  predicate QueryFits(query: Option<seq<byte>>) {
    query.Some? ==> forall i :: 0 <= i < |query.value| ==> IsUrlChar(query.value[i]) || query.value[i] == '?'
  }

  /** A fragment, or nothing. */
  lemma HashOrigin(b: seq<byte>, s: State, at: bool, fields: Fields, r: seq<byte>) returns (fragment: Option<seq<byte>>)
    requires ReadSoFar(b, false, s, at, fields) && Fragment !in fields
    requires StateAt(b + r, false, |b + r|) != Start(Dead)
    requires r != [] ==> r[0] == '#' && MayFragment(s) && s != Target(ReqFragmentStart)
    ensures r == Before(fragment, '#') && (fragment.Some? ==> FragmentFits(fragment.value))
    ensures fragment.Some? <==> r != []
  {
    hide ReadSoFar, StateAt, FragmentFits;
    if r == [] {
      fragment := None;
    } else {
      fragment := Some(r[1..]);
      CutHead(b, r);
      FragmentOrigin(b, s, at, fields, r[1..]);
    }
  }

  /** A query and a fragment, behind a path or a host. */
  lemma QueryOrigin(b: seq<byte>, s: State, at: bool, fields: Fields, r: seq<byte>)
    returns (query: Option<seq<byte>>, fragment: Option<seq<byte>>)
    requires ReadSoFar(b, false, s, at, fields) && Query !in fields && Fragment !in fields
    requires s == Target(ReqPath) || InServer(s)
    requires StateAt(b + r, false, |b + r|) != Start(Dead)
    requires r != [] ==> r[0] == '?' || (r[0] == '#' && s == Target(ReqPath))
    ensures r == Before(query, '?') + Before(fragment, '#') && QueryFits(query)
    ensures fragment.Some? ==> FragmentFits(fragment.value)
    ensures InServer(s) && query == None ==> fragment == None
  {
    hide ReadSoFar, ParseUrlChar, StateAt, IsUrlChar, FragmentFits, Front;
    query := None;
    if r == [] || r[0] == '#' {
      fragment := HashOrigin(b, s, at, fields, r);
      assert [] + r == r;
    } else {
      var n := Front(r[1..], QueryChar);
      var q, rest := r[1..][..n], r[1..][n..];
      query := Some(q);
      QueryRead(b, s, at, fields, q);
      var t := Target(if q == [] then ReqQueryStringStart else ReqQueryString);
      var b1, f1 := b + (['?'] + q), With(fields, Query, |b| + 1, |q|);
      CutHead(b, r);
      CutAt(['?'], r[1..], n);
      Associates(b, ['?'] + q, rest);
      StateOf(b1, t, at, f1);
      if rest != [] {
        NextAlive(b + r, b1, rest, t);
        OnlyQueryOrHash(t, rest[0]);
      }
      fragment := HashOrigin(b1, t, at, f1, rest);
    }
  }

  lemma TailIs(s: State, path: seq<byte>, query: Option<seq<byte>>, fragment: Option<seq<byte>>)
    requires InServer(s) || s == RequestStart(ReqSpacesBeforeUrl)
    requires PathFits(path) && QueryFits(query) && (fragment.Some? ==> FragmentFits(fragment.value))
    requires if InServer(s) then (path != [] ==> path[0] == '/') && (path == [] && query == None ==> fragment == None)
             else path != [] && (path[0] == '/' || path[0] == '*')
    ensures TailFits(s, UrlParts(None, path, query, fragment))
  {
    hide FragmentFits;
  }

  lemma TailOrigin(b: seq<byte>, s: State, at: bool, fields: Fields, r: seq<byte>)
    returns (path: seq<byte>, query: Option<seq<byte>>, fragment: Option<seq<byte>>)
    requires ReadSoFar(b, false, s, at, fields) && NoTail(fields) && StateAt(b + r, false, |b + r|) != Start(Dead)
    requires InServer(s) || s == RequestStart(ReqSpacesBeforeUrl)
    requires if InServer(s) then r != [] ==> r[0] == '/' || r[0] == '?' else r != [] && (r[0] == '/' || r[0] == '*')
    ensures r == (path + Before(query, '?')) + Before(fragment, '#')
    ensures TailFits(s, UrlParts(None, path, query, fragment))
  {
    hide ReadSoFar, ParseUrlChar, StateAt, FragmentFits, Front, IsUrlChar, QueryFits, TailFits;
    var n := Front(r, IsUrlChar);
    path := r[..n];
    var rest := r[n..];
    CutAt(b, r, n);
    PathStarts(r, n);
    PathRead(b, s, at, fields, path);
    var t, f1 := if path == [] then s else Target(ReqPath), With(fields, Path, |b|, |path|);
    if rest != [] {
      StateOf(b + path, t, at, f1);
      NextAlive(b + r, b + path, rest, t);
      OnlyQueryOrHash(t, rest[0]);
    }
    query, fragment := QueryOrigin(b + path, t, at, f1, rest);
    Associates(path, Before(query, '?'), Before(fragment, '#'));
    TailIs(s, path, query, fragment);
  }

  lemma PathStarts(r: seq<byte>, n: nat)
    requires n == Front(r, IsUrlChar)
    ensures r != [] && (r[0] == '/' || r[0] == '*') ==> n > 0
    ensures r != [] && r[0] == '?' ==> n == 0
  {
  }

  // ------------------------------------------------------------------ the authority as one field

  lemma HostByteStays(s: State, ch: byte)
    requires InServer(s) && HostByte(ch) && ParseUrlChar(s, ch).Target?
    ensures var t := ParseUrlChar(s, ch);
            && FieldOf(t) == Some(Host) && t == Target(if ch == '@' then ReqServerWithAt else ReqServer)
            && (s == Target(ReqServerWithAt) ==> ch != '@')
  {
  }

  /** Bytes of a host, as long as they are allowed. */
  lemma {:induction false} ServerRead(b: seq<byte>, fields: Fields, w: seq<byte>, rest: seq<byte>) returns (s: State)
    requires ReadSoFar(b, false, Target(ReqServerStart), false, fields)
    requires (forall i :: 0 <= i < |w| ==> HostByte(w[i]))
    requires var buf := (b + w) + rest; StateAt(buf, false, |buf|) != Start(Dead)
    ensures InServer(s) && ReadSoFar(b + w, false, s, '@' in w, RecordMany(fields, Host, |b|, |w|))
    ensures AtsApart(w) && (if w == [] then s == Target(ReqServerStart)
                            else s == Target(if w[|w| - 1] == '@' then ReqServerWithAt else ReqServer))
    decreases |w|
  {
    hide ReadSoFar, ParseUrlChar, StateAt, FieldOf, HostByte;
    if w == [] {
      s := Target(ReqServerStart);
      assert b + w == b;
    } else {
      var n := |w| - 1;
      var front, ch := w[..n], w[n];
      assert w == front + [ch];
      var more := [ch] + rest;
      Associates(b, front, [ch]);
      Associates(b + front, [ch], rest);
      var t := ServerRead(b, fields, front, more);
      StateOf(b + front, t, '@' in front, RecordMany(fields, Host, |b|, n));
      NextAlive((b + w) + rest, b + front, more, t);
      HostByteStays(t, ch);
      OneMore(b + front, false, t, '@' in front, RecordMany(fields, Host, |b|, n), ch);
      RecordNext(fields, Host, |b|, n);
      s := ParseUrlChar(t, ch);
    }
  }

  // ------------------------------------------------------------------ the authority in its parts

  lemma HostAlive(text: seq<byte>, at: bool, b: seq<byte>, r: seq<byte>, s: HostState)
    requires text == b + r && r != [] && HostMayEnd(HostAt(text, at, |text|)) && HostAt(b, at, |b|) == s
    ensures ParseHostChar(s, r[0]) != HostDead
  {
    hide ParseHostChar;
    assert text[..|b|] == b;
    HostOfPrefix(text, at, |b|, |b|);
    if HostAt(text, at, |b| + 1) == HostDead {
      HostDeadStays(text, at, |b| + 1);
    }
  }

  lemma HostEnds(text: seq<byte>, at: bool, b: seq<byte>, s: HostState)
    requires text == b && HostMayEnd(HostAt(text, at, |text|)) && HostAt(b, at, |b|) == s
    ensures HostMayEnd(s)
  {
  }

  lemma OnlyHostBytes(s: HostState, ch: byte)
    requires ParseHostChar(s, ch) != HostDead
    ensures (s == UserinfoStart || s == InUserinfo) && !IsUserinfoChar(ch) ==> ch == '@'
    ensures s == HostStart ==> ch == '[' || IsHostChar(ch)
    ensures s == InHost && !IsHostChar(ch) ==> ch == ':'
    ensures s == V6End ==> ch == ':'
    ensures s == V6Start ==> AddressChar(ch)
    ensures s == V6 && !AddressChar(ch) ==> ch == ']' || ch == '%'
    ensures s == ZoneStart ==> IsZoneChar(ch)
    ensures s == Zone && !IsZoneChar(ch) ==> ch == ']'
    ensures s == PortStart || s == InPort ==> IsNum(ch)
  {
  }

  lemma SoFarState(b: seq<byte>, at: bool, s: HostState, fields: Fields)
    requires HostSoFar(b, at, s, fields)
    ensures HostAt(b, at, |b|) == s
  {
  }

  /** Everything behind the colon is a digit. */
  lemma DigitsOrigin(text: seq<byte>, at: bool, b: seq<byte>, s: HostState, fields: Fields, port: seq<byte>)
    requires HostSoFar(b, at, s, fields) && (s == InHost || s == V6End) && text == b + ([':'] + port)
    requires HostMayEnd(HostAt(text, at, |text|))
    ensures port != [] && Digits(port)
  {
    hide HostSoFar, ParseHostChar, HostAt, HostMayEnd;
    var n := Front(port, IsNum);
    var front, rest := port[..n], port[n..];
    CutAt([':'], port, n);
    Associates(b, [':'] + front, rest);
    assert port == front + rest;
    if front != [] {
      PortParts(b, at, s, fields, front);
      SoFarState(b + ([':'] + front), at, InPort, RecordMany(fields, Port, |b| + 1, |front|));
      if rest != [] {
        HostAlive(text, at, b + ([':'] + front), rest, InPort);
        OnlyHostBytes(InPort, rest[0]);
      }
      assert rest == [];
    } else {
      ColonRead(b, at, s, fields);
      SoFarState(b + [':'], at, PortStart, fields);
      assert [':'] + front == [':'];
      if rest != [] {
        HostAlive(text, at, b + [':'], rest, PortStart);
        OnlyHostBytes(PortStart, rest[0]);
      } else {
        HostEnds(text, at, b + [':'], PortStart);
        NotEndInside(PortStart);
      }
    }
  }

  lemma ColonRead(b: seq<byte>, at: bool, s: HostState, fields: Fields)
    requires HostSoFar(b, at, s, fields) && (s == InHost || s == V6End)
    ensures HostSoFar(b + [':'], at, PortStart, fields)
  {
    hide HostSoFar;
    HostMore(b, at, s, fields, ':');
  }

  /** A port, or nothing, behind a host. */
  lemma PortOrigin(text: seq<byte>, at: bool, b: seq<byte>, s: HostState, fields: Fields, r: seq<byte>)
    returns (port: Option<seq<byte>>)
    requires HostSoFar(b, at, s, fields) && (s == InHost || s == V6End) && text == b + r
    requires HostMayEnd(HostAt(text, at, |text|)) && (r != [] && s == InHost ==> !IsHostChar(r[0]))
    ensures r == Before(port, ':') && (port.Some? ==> port.value != [] && Digits(port.value))
  {
    hide HostSoFar, ParseHostChar, HostAt;
    if r == [] {
      port := None;
    } else {
      SoFarState(b, at, s, fields);
      HostAlive(text, at, b, r, s);
      OnlyHostBytes(s, r[0]);
      port := Some(r[1..]);
      CutHead(b, r);
      DigitsOrigin(text, at, b, s, fields, r[1..]);
    }
  }

  /** The user information is what stands before the first at sign. */
  lemma UserOrigin(text: seq<byte>) returns (u: seq<byte>, r: seq<byte>)
    requires HostMayEnd(HostAt(text, true, |text|))
    ensures text == (u + ['@']) + r && forall i :: 0 <= i < |u| ==> IsUserinfoChar(u[i])
  {
    hide ParseHostChar, HostAt, IsUserinfoChar, HostMayEnd, Front;
    var n := Front(text, IsUserinfoChar);
    var rest := text[n..];
    u := text[..n];
    CutAt([], text, n);
    UserFront(u);
    var s := if u == [] then UserinfoStart else InUserinfo;
    if rest == [] {
      assert text == u;
      HostEnds(text, true, u, s);
      NotEndUser(s);
    } else {
      HostAlive(text, true, u, rest, s);
      OnlyHostBytes(s, rest[0]);
      CutHead(u, rest);
      Associates(u, [rest[0]], rest[1..]);
    }
    r := if rest == [] then [] else rest[1..];
  }

  lemma NotEndUser(s: HostState)
    requires s == UserinfoStart || s == InUserinfo
    ensures !HostMayEnd(s)
  {
  }

  lemma {:induction false} UserFront(t: seq<byte>)
    requires forall i :: 0 <= i < |t| ==> IsUserinfoChar(t[i])
    ensures HostAt(t, true, |t|) == if t == [] then UserinfoStart else InUserinfo
  {
    hide ParseHostChar, IsUserinfoChar;
    if t != [] {
      var n := |t| - 1;
      UserFront(t[..n]);
      HostOfPrefix(t, true, n, n);
      UserBytes(if n == 0 then UserinfoStart else InUserinfo, t[n]);
    }
  }

  /** A name, and what follows it. */
  lemma NameOrigin(text: seq<byte>, at: bool, b: seq<byte>, fields: Fields, r: seq<byte>)
    returns (h: HostName, port: Option<seq<byte>>)
    requires HostSoFar(b, at, HostStart, fields) && text == b + r && HostMayEnd(HostAt(text, at, |text|))
    requires r != [] && IsHostChar(r[0])
    ensures HostNameFits(h) && r == HostNameText(h) + Before(port, ':')
    ensures port.Some? ==> port.value != [] && Digits(port.value)
  {
    hide HostSoFar, ParseHostChar, HostAt, HostMayEnd, Front, IsHostChar;
    var n := Front(r, IsHostChar);
    var name, rest := r[..n], r[n..];
    FrontPositive(r, IsHostChar);
    CutAt(b, r, n);
    NameParts(b, at, fields, name);
    h := Registered(name);
    port := PortOrigin(text, at, b + name, InHost, RecordMany(fields, Host, |b|, |name|), rest);
  }

  /** A zone and the closing bracket, or the bracket alone. */
  lemma ZoneOrigin(text: seq<byte>, at: bool, b: seq<byte>, fields: Fields, r: seq<byte>)
    returns (zone: Option<seq<byte>>, behind: seq<byte>)
    requires HostSoFar(b, at, V6, fields) && text == b + r && HostMayEnd(HostAt(text, at, |text|))
    requires r != [] ==> !AddressChar(r[0])
    ensures r == (Before(zone, '%') + [']']) + behind
    ensures zone.Some? ==> zone.value != [] && forall i :: 0 <= i < |zone.value| ==> IsZoneChar(zone.value[i])
  {
    hide HostSoFar, ParseHostChar, HostAt, HostMayEnd, Front, IsZoneChar;
    SoFarState(b, at, V6, fields);
    if r == [] {
      HostEnds(text, at, b, V6);
      NotEndInside(V6);
    } else {
      HostAlive(text, at, b, r, V6);
      OnlyHostBytes(V6, r[0]);
      CutHead(b, r);
    }
    if r[0] == ']' {
      zone, behind := None, r[1..];
      assert [] + [']'] == [']'];
    } else {
      var n := Front(r[1..], IsZoneChar);
      var z, rest := r[1..][..n], r[1..][n..];
      CutAt(['%'], r[1..], n);
      Associates(b, ['%'] + z, rest);
      ZoneNotEmpty(text, at, b, fields, r[1..]);
      ZoneParts(b, at, fields, z);
      SoFarState(b + (['%'] + z), at, Zone, RecordMany(fields, Host, |b|, 1 + |z|));
      if rest == [] {
        HostEnds(text, at, b + (['%'] + z), Zone);
        NotEndInside(Zone);
      } else {
        HostAlive(text, at, b + (['%'] + z), rest, Zone);
        OnlyHostBytes(Zone, rest[0]);
        CutHead(['%'] + z, rest);
        Associates(['%'] + z, [']'], rest[1..]);
      }
      zone, behind := Some(z), if rest == [] then [] else rest[1..];
    }
  }

  lemma NotEndInside(s: HostState)
    requires s == V6Start || s == V6 || s == Zone || s == ZoneStart || s == HostStart || s == PortStart
    ensures !HostMayEnd(s)
  {
  }

  lemma ZoneNotEmpty(text: seq<byte>, at: bool, b: seq<byte>, fields: Fields, r: seq<byte>)
    requires HostSoFar(b, at, V6, fields) && text == b + (['%'] + r) && HostMayEnd(HostAt(text, at, |text|))
    ensures Front(r, IsZoneChar) > 0
  {
    hide HostSoFar, HostAt, HostMayEnd, Front, IsZoneChar;
    HostMore(b, at, V6, fields, '%');
    SoFarState(b + ['%'], at, ZoneStart, Recording(fields, Some(Host), |b|));
    Associates(b, ['%'], r);
    if r == [] {
      assert text == b + ['%'];
      HostEnds(text, at, b + ['%'], ZoneStart);
      NotEndInside(ZoneStart);
    } else {
      HostAlive(text, at, b + ['%'], r, ZoneStart);
      OnlyHostBytes(ZoneStart, r[0]);
      FrontPositive(r, IsZoneChar);
    }
  }

  /** An address in brackets, and what follows it. */
  lemma LiteralOrigin(text: seq<byte>, at: bool, b: seq<byte>, fields: Fields, r: seq<byte>)
    returns (h: HostName, port: Option<seq<byte>>)
    requires HostSoFar(b, at, HostStart, fields) && text == b + (['['] + r) && HostMayEnd(HostAt(text, at, |text|))
    ensures HostNameFits(h) && ['['] + r == HostNameText(h) + Before(port, ':')
    ensures port.Some? ==> port.value != [] && Digits(port.value)
  {
    hide HostSoFar, HostAt, HostMayEnd, Front, IsZoneChar, IsHex;
    var n := Front(r, AddressChar);
    var address, rest := r[..n], r[n..];
    BracketRead(b, at, fields);
    var b1 := b + ['['];
    Associates(b, ['['], r);
    AddressNotEmpty(text, at, b1, fields, r);
    CutAt(b1, r, n);
    AddressParts(b1, at, fields, address);
    var zone, behind := ZoneOrigin(text, at, b1 + address, RecordMany(fields, Host, |b1|, |address|), rest);
    h := Literal(address, zone);
    LiteralParts(b, at, fields, h);
    LiteralText(h, rest, behind);
    Associates(b, HostNameText(h), behind);
    port := PortOrigin(text, at, b + HostNameText(h), V6End, RecordMany(fields, Host, |b| + 1, |InHostName(h)|),
                       behind);
  }

  lemma BracketRead(b: seq<byte>, at: bool, fields: Fields)
    requires HostSoFar(b, at, HostStart, fields)
    ensures HostSoFar(b + ['['], at, V6Start, fields)
  {
    hide HostSoFar;
    HostMore(b, at, HostStart, fields, '[');
  }

  lemma AddressParts(b: seq<byte>, at: bool, fields: Fields, address: seq<byte>)
    requires HostSoFar(b, at, V6Start, fields) && address != []
    requires forall i :: 0 <= i < |address| ==> AddressChar(address[i])
    ensures HostSoFar(b + address, at, V6, RecordMany(fields, Host, |b|, |address|))
  {
    hide HostSoFar;
    HostPiece(b, at, V6Start, fields, address, V6, Host);
  }

  lemma AddressNotEmpty(text: seq<byte>, at: bool, b: seq<byte>, fields: Fields, r: seq<byte>)
    requires HostSoFar(b, at, V6Start, fields) && text == b + r && HostMayEnd(HostAt(text, at, |text|))
    ensures Front(r, AddressChar) > 0
  {
    hide HostSoFar, HostAt, HostMayEnd, Front, ParseHostChar;
    SoFarState(b, at, V6Start, fields);
    if r == [] {
      HostEnds(text, at, b, V6Start);
      NotEndInside(V6Start);
    } else {
      HostAlive(text, at, b, r, V6Start);
      OnlyHostBytes(V6Start, r[0]);
      FrontPositive(r, AddressChar);
    }
  }

  lemma LiteralText(h: HostName, rest: seq<byte>, behind: seq<byte>)
    requires h.Literal? && rest == (Before(h.zone, '%') + [']']) + behind
    ensures ['['] + (h.address + rest) == HostNameText(h) + behind
  {
    var inside := h.address + Before(h.zone, '%');
    assert ['['] + (h.address + rest) == ((['['] + inside) + [']']) + behind;
  }

  /** A text that the host automaton accepts is an authority. */
  lemma AuthorityOrigin(text: seq<byte>, at: bool) returns (a: Authority)
    requires HostMayEnd(HostAt(text, at, |text|)) && PortFits(text, at)
    ensures AuthorityFits(a) && text == AuthorityText(a) && a.userinfo.Some? == at
  {
    hide HostSoFar, HostAt, HostMayEnd, HostNameFits, HostNameText, IsUserinfoChar, Digits, Decimal, HostText,
         ParseHostChar;
    var u: Option<seq<byte>>, r := None, text;
    if at {
      var t;
      t, r := UserOrigin(text);
      u := Some(t);
    }
    assert text == Behind(u, '@') + r;
    UserParts(u);
    var b, fields := Behind(u, '@'), RecordMany(map[], Userinfo, 0, TextLength(u));
    SoFarState(b, at, HostStart, fields);
    var h, port;
    if r == [] {
      assert text == b;
      HostEnds(text, at, b, HostStart);
      NotEndInside(HostStart);
      assert false;
      h, port := Registered([]), None;
    } else {
      HostAlive(text, at, b, r, HostStart);
      OnlyHostBytes(HostStart, r[0]);
      if r[0] == '[' {
        CutHead(b, r);
        h, port := LiteralOrigin(text, at, b, fields, r[1..]);
      } else {
        h, port := NameOrigin(text, at, b, fields, r);
      }
    }
    a := Authority(u, h, port);
    Associates(b, HostNameText(h), Before(port, ':'));
    PortSmall(a, at);
  }

  /** What the host automaton calls the port is what stands behind the colon. */
  lemma PortSmall(a: Authority, at: bool)
    requires AuthorityShape(a) && PortFits(AuthorityText(a), at) && a.userinfo.Some? == at
    ensures a.port.Some? ==> Decimal(a.port.value) <= 0xffff
  {
    hide HostAt, HostRecorded, HostText, AuthorityText, AuthorityRanges, HostNameFits, Decimal, Digits, IsUserinfoChar;
    if a.port.Some? {
      AuthorityParts(a);
      HostTexts(AuthorityText(a), at, AuthorityRanges(a, 0, map[]));
      PortSlice(a);
    }
  }

  // ------------------------------------------------------------------ the whole URL

  lemma Unfinished(buf: seq<byte>, s: State)
    requires UrlAccepted(buf, false) && StateAt(buf, false, |buf|) == s
    ensures UrlMayEnd(s) && StateAt(buf, false, |buf|) != Start(Dead) && buf != []
  {
    hide StateAt, FieldText, HostText, SeenAt, ConnectTarget, UrlMayEnd, HostAt;
    AcceptedMayEnd(buf, false);
  }

  lemma NotMayEnd(s: State)
    requires s == Target(ReqSchema) || s == Target(ReqSchemaSlash) || s == Target(ReqSchemaSlashSlash)
    ensures !UrlMayEnd(s)
  {
  }

  /** Nothing is missing at the end, as far as the target automaton can tell. */
  ghost predicate Complete(buf: seq<byte>) { buf != [] && UrlMayEnd(StateAt(buf, false, |buf|)) }

  lemma CompleteAlive(buf: seq<byte>)
    requires Complete(buf)
    ensures StateAt(buf, false, |buf|) != Start(Dead)
  {
    hide StateAt;
  }

  /** One byte of "://": it must be there. */
  lemma SlashThere(buf: seq<byte>, b: seq<byte>, fields: Fields, r: seq<byte>, s: State)
    requires Complete(buf) && buf == b + r && ReadSoFar(b, false, s, false, fields)
    requires s == Target(ReqSchema) || s == Target(ReqSchemaSlash) || s == Target(ReqSchemaSlashSlash)
    requires s == Target(ReqSchema) && r != [] ==> !IsAlpha(r[0])
    ensures r != [] && r[0] == if s == Target(ReqSchema) then ':' else '/'
  {
    hide ReadSoFar, StateAt, ParseUrlChar, UrlMayEnd;
    StateOf(b, s, false, fields);
    if r == [] {
      assert buf == b;
      NotMayEnd(s);
    } else {
      CompleteAlive(buf);
      NextAlive(buf, b, r, s);
      OnlyQueryOrHash(s, r[0]);
    }
  }

  /** The scheme, and what follows the slashes. */
  lemma SchemeOrigin(buf: seq<byte>) returns (scheme: seq<byte>, r: seq<byte>)
    requires Complete(buf) && IsAlpha(buf[0])
    ensures buf == (scheme + [':', '/', '/']) + r
    ensures scheme != [] && forall i :: 0 <= i < |scheme| ==> IsAlpha(scheme[i])
  {
    hide ReadSoFar, StateAt, UrlMayEnd, IsAlpha, Front;
    var n := Front(buf, IsAlpha);
    FrontPositive(buf, IsAlpha);
    scheme := buf[..n];
    var r0 := buf[n..];
    var fields: Fields := map[Schema := Range(0, |scheme|)];
    CutAt([], buf, n);
    SchemeRead(scheme);
    SlashesRead(scheme, fields);
    SlashThere(buf, scheme, fields, r0, Target(ReqSchema));
    var r1 := r0[1..];
    CutHead(scheme, r0);
    Associates(scheme, [':'], r1);
    SlashThere(buf, scheme + [':'], fields, r1, Target(ReqSchemaSlash));
    var r2 := r1[1..];
    CutHead(scheme + [':'], r1);
    Associates(scheme + [':'], ['/'], r2);
    SlashThere(buf, (scheme + [':']) + ['/'], fields, r2, Target(ReqSchemaSlashSlash));
    r := r2[1..];
    CutHead((scheme + [':']) + ['/'], r2);
    Associates((scheme + [':']) + ['/'], ['/'], r);
    assert ((scheme + [':']) + ['/']) + ['/'] == scheme + [':', '/', '/'];
  }

  /** What the splitter has made of a URL whose host field is w. */
  lemma HostIs(buf: seq<byte>, full: Fields, off: nat, w: seq<byte>, at: bool)
    requires UrlAccepted(buf, false) && AllRecorded(buf, false, |buf|, full) && (SeenAt(buf, false, |buf|) <==> at)
    requires Schema in full && off + |w| <= |buf| && buf[off..off + |w|] == w
    requires if w == [] then Host !in full else Host in full && full[Host] == Range(off, |w|)
    ensures HostMayEnd(HostAt(w, at, |w|)) && PortFits(w, at)
  {
    hide StateAt, AllRecorded, FieldText, HostText, SeenAt, HostAt, HostMayEnd, PortFits, ConnectTarget;
    SplitTexts(buf, false, full);
  }

  lemma SiteOrigin(buf: seq<byte>) returns (x: UrlParts)
    requires UrlAccepted(buf, false) && buf != [] && IsAlpha(buf[0])
    ensures PartsFit(x) && UrlText(x) == buf
  {
    hide ReadSoFar, UrlAccepted, IsAlpha, Front, HostByte, StateAt, AuthorityFits, AuthorityText, FragmentFits,
         TailFits,
         AllRecorded, SeenAt, HostAt, HostMayEnd, PortFits, TailRanges, UrlText, UrlMayEnd;
    Unfinished(buf, StateAt(buf, false, |buf|));
    var scheme, r := SchemeOrigin(buf);
    var b, n := scheme + [':', '/', '/'], Front(r, HostByte);
    var fields: Fields := map[Schema := Range(0, |scheme|)];
    var w, tail := r[..n], r[n..];
    SchemeRead(scheme);
    SlashesRead(scheme, fields);
    CutAt(b, r, n);
    var t := ServerRead(b, fields, w, tail);
    var at, f1 := '@' in w, RecordMany(fields, Host, |b|, |w|);
    if tail != [] {
      StateOf(b + w, t, at, f1);
      NextAlive(buf, b + w, tail, t);
      OnlyQueryOrHash(t, tail[0]);
    }
    var path, query, fragment := TailOrigin(b + w, t, at, f1, tail);
    var rest := UrlParts(None, path, query, fragment);
    TailRead(b + w, t, at, f1, rest);
    Grouped(b + w, path, Before(query, '?'), Before(fragment, '#'));
    TailKeeps(rest, |b + w|, f1, Host);
    TailKeeps(rest, |b + w|, f1, Schema);
    HostIs(buf, TailRanges(rest, |b + w|, f1), |b|, w, at);
    var a := AuthorityOrigin(w, at);
    x := UrlParts(Some(Site(scheme, a)), path, query, fragment);
    AnyServer(t, rest, x);
    TextIs(x, b + w);
  }

  lemma Grouped(b: seq<byte>, p: seq<byte>, q: seq<byte>, g: seq<byte>)
    ensures ((b + p) + q) + g == b + ((p + q) + g)
  {
  }

  lemma AnyServer(t: State, x: UrlParts, y: UrlParts)
    requires InServer(t) && TailFits(t, x) && y.path == x.path && y.query == x.query && y.fragment == x.fragment
    ensures TailFits(Target(ReqServer), y)
  {
    hide FragmentFits, IsUrlChar;
  }

  lemma TextIs(x: UrlParts, front: seq<byte>)
    requires SiteText(x.site) == front
    ensures UrlText(x) == ((front + x.path) + Before(x.query, '?')) + Before(x.fragment, '#')
  {
    hide SiteText;
  }

  /** Every URL that the splitter accepts is written from parts in this way. */
  lemma UrlOrigin(buf: seq<byte>) returns (x: UrlParts)
    requires UrlAccepted(buf, false)
    ensures PartsFit(x) && UrlText(x) == buf
  {
    hide ReadSoFar, UrlAccepted, IsAlpha, StateAt, TailFits, UrlText, ParseUrlChar;
    Unfinished(buf, StateAt(buf, false, |buf|));
    NothingRead(false);
    StateOf([], RequestStart(ReqSpacesBeforeUrl), false, map[]);
    assert [] + buf == buf;
    NextAlive(buf, [], buf, RequestStart(ReqSpacesBeforeUrl));
    OnlyQueryOrHash(RequestStart(ReqSpacesBeforeUrl), buf[0]);
    if IsAlpha(buf[0]) {
      x := SiteOrigin(buf);
    } else {
      var path, query, fragment := TailOrigin([], RequestStart(ReqSpacesBeforeUrl), false, map[], buf);
      x := UrlParts(None, path, query, fragment);
      TextIs(x, []);
      Grouped([], path, Before(query, '?'), Before(fragment, '#'));
    }
  }

  /** A URL is accepted exactly if it is written from parts; and then these are what is reported. */
  lemma AcceptedExactly(buf: seq<byte>)
    ensures UrlAccepted(buf, false) <==> exists x :: PartsFit(x) && UrlText(x) == buf
  {
    hide UrlAccepted, PartsFit, UrlText;
    if UrlAccepted(buf, false) {
      var x := UrlOrigin(buf);
    }
    forall x | PartsFit(x) && UrlText(x) == buf ensures UrlAccepted(buf, false) {
      PartsAccepted(x);
    }
  }
}
