/** http_parser_parse_url: splitting a URL into its fields, against the automata that assign every byte to
    a field or to the delimiters. */
module HttpUrl {
  import opened Common
  import opened HttpTypes
  import opened HttpUrlChar
  import opened HttpLength

  datatype UrlField = Schema | Host | Port | Path | Query | Fragment | Userinfo

  /** off and len are 16-bit in the source. */
  datatype Range = Range(off: nat, len: nat)

  type Fields = map<UrlField, Range>

  const UINT16_MODULUS: nat := 0x1_0000

  // ------------------------------------------------------------------ the target automaton on a whole URL

  function FirstState(isConnect: bool): State {
    if isConnect then Target(ReqServerStart) else RequestStart(ReqSpacesBeforeUrl)
  }

  /** The state after the first i bytes. */
  function StateAt(buf: seq<byte>, isConnect: bool, i: nat): State
    requires i <= |buf|
  {
    if i == 0 then FirstState(isConnect) else ParseUrlChar(StateAt(buf, isConnect, i - 1), buf[i - 1])
  }

  lemma {:induction false} StateOfPrefix(u: seq<byte>, isConnect: bool, n: nat, i: nat)
    requires i <= n <= |u|
    ensures StateAt(u[..n], isConnect, i) == StateAt(u, isConnect, i)
  {
    hide ParseUrlChar;
    if i > 0 {
      StateOfPrefix(u, isConnect, n, i - 1);
    }
  }

  /** The field that a byte belongs to when it has led to state s; None for a delimiter. */
  function FieldOf(s: State): Option<UrlField> {
    match s
    case Target(ReqSchema) => Some(Schema)
    case Target(ReqServer) => Some(Host)
    case Target(ReqServerWithAt) => Some(Host)
    case Target(ReqPath) => Some(Path)
    case Target(ReqQueryString) => Some(Query)
    case Target(ReqFragment) => Some(Fragment)
    case _ => None
  }

  /** The order in which a URL passes through the states. */
  function Rank(s: State): nat {
    match s
    case Target(ReqSchema) => 1
    case Target(ReqSchemaSlash) => 2
    case Target(ReqSchemaSlashSlash) => 3
    case Target(ReqServerStart) => 4
    case Target(ReqServer) => 5
    case Target(ReqServerWithAt) => 5
    case Target(ReqPath) => 6
    case Target(ReqQueryStringStart) => 7
    case Target(ReqQueryString) => 8
    case Target(ReqFragmentStart) => 9
    case Target(ReqFragment) => 10
    case Start(_) => 11
    case _ => 0
  }

  function FieldRank(f: UrlField): nat {
    match f
    case Schema => 1 case Host => 5 case Path => 6 case Query => 8 case Fragment => 10
    case Port => 12 case Userinfo => 12
  }

  lemma FieldHasRank(s: State, f: UrlField)
    ensures FieldOf(s) == Some(f) <==> Rank(s) == FieldRank(f)
  {
  }

  lemma RankGrows(s: State, ch: byte)
    requires s.Target? || s == RequestStart(ReqSpacesBeforeUrl) || s == Start(Dead)
    ensures var t := ParseUrlChar(s, ch); Rank(s) <= Rank(t) && (t.Target? || t == Start(Dead))
  {
  }

  lemma {:induction false} RankMonotone(buf: seq<byte>, isConnect: bool, i: nat, j: nat)
    requires i <= j <= |buf|
    ensures Rank(StateAt(buf, isConnect, i)) <= Rank(StateAt(buf, isConnect, j))
    ensures var s := StateAt(buf, isConnect, j); s.Target? || s == Start(Dead) || (j == 0 && s == FirstState(isConnect))
    decreases j
  {
    hide ParseUrlChar, Rank;
    if j > 0 {
      RankMonotone(buf, isConnect, if i < j then i else j - 1, j - 1);
      RankGrows(StateAt(buf, isConnect, j - 1), buf[j - 1]);
    }
  }

  /** The bytes of f among the first p are exactly the range recorded for it. */
  predicate Recorded(fields: Fields, f: UrlField, belongs: seq<bool>) {
    if f in fields
    then && fields[f].len > 0 && fields[f].off + fields[f].len <= |belongs|
         && (forall i :: 0 <= i < |belongs| ==> (belongs[i] <==> fields[f].off <= i < fields[f].off + fields[f].len))
    else forall i :: 0 <= i < |belongs| ==> !belongs[i]
  }

  /** Which of the first p bytes the target automaton assigns to f. */
  function Belongs(buf: seq<byte>, isConnect: bool, p: nat, f: UrlField): (b: seq<bool>)
    requires p <= |buf|
    ensures |b| == p && forall i :: 0 <= i < p ==> b[i] == (FieldOf(StateAt(buf, isConnect, i + 1)) == Some(f))
  {
    seq(p, i requires 0 <= i < p => FieldOf(StateAt(buf, isConnect, i + 1)) == Some(f))
  }

  ghost predicate AllRecorded(buf: seq<byte>, isConnect: bool, p: nat, fields: Fields)
    requires p <= |buf|
  {
    forall f :: RecordedAt(buf, isConnect, p, fields, f)
  }

  predicate RecordedAt(buf: seq<byte>, isConnect: bool, p: nat, fields: Fields, f: UrlField)
    requires p <= |buf|
  {
    Recorded(fields, f, Belongs(buf, isConnect, p, f))
  }

  /** The user information ends with an at sign somewhere in the first p bytes. */
  ghost predicate SeenAt(buf: seq<byte>, isConnect: bool, p: nat)
    requires p <= |buf|
  {
    exists j: nat :: 1 <= j <= p && StateAt(buf, isConnect, j) == Target(ReqServerWithAt)
  }

  /** A field goes on only directly after one of its bytes: no URL returns to a field it has left. */
  lemma FieldGoesOn(buf: seq<byte>, isConnect: bool, p: nat, fields: Fields, f: UrlField)
    requires p < |buf| && AllRecorded(buf, isConnect, p, fields)
    requires FieldOf(StateAt(buf, isConnect, p + 1)) == Some(f) && f in fields
    ensures fields[f].off + fields[f].len == p && FieldOf(StateAt(buf, isConnect, p)) == Some(f)
  {
    hide StateAt, Rank, FieldOf;
    var b := Belongs(buf, isConnect, p, f);
    assert RecordedAt(buf, isConnect, p, fields, f);
    var i := fields[f].off;
    assert b[i];
    RankMonotone(buf, isConnect, i + 1, p);
    RankMonotone(buf, isConnect, p, p + 1);
    FieldHasRank(StateAt(buf, isConnect, i + 1), f);
    FieldHasRank(StateAt(buf, isConnect, p), f);
    FieldHasRank(StateAt(buf, isConnect, p + 1), f);
    assert b[p - 1];
  }

  /** Recording the byte at p. */
  function Record(fields: Fields, f: UrlField, p: nat): Fields {
    if f in fields then fields[f := Range(fields[f].off, fields[f].len + 1)] else fields[f := Range(p, 1)]
  }

  function Recording(fields: Fields, f: Option<UrlField>, p: nat): Fields {
    match f case Some(g) => Record(fields, g, p) case None => fields
  }

  lemma RecordKeeps(buf: seq<byte>, isConnect: bool, p: nat, fields: Fields)
    requires p < |buf| && AllRecorded(buf, isConnect, p, fields)
    ensures AllRecorded(buf, isConnect, p + 1, Recording(fields, FieldOf(StateAt(buf, isConnect, p + 1)), p))
  {
    hide StateAt, FieldOf;
    var s := StateAt(buf, isConnect, p + 1);
    var fields' := Recording(fields, FieldOf(s), p);
    if FieldOf(s).Some? && FieldOf(s).value in fields {
      FieldGoesOn(buf, isConnect, p, fields, FieldOf(s).value);
    }
    var n := p + 1;
    forall f ensures RecordedAt(buf, isConnect, n, fields', f) {
      assert RecordedAt(buf, isConnect, p, fields, f);
      assert Belongs(buf, isConnect, p + 1, f)[..p] == Belongs(buf, isConnect, p, f);
    }
  }

  /** What a 16-bit offset and length keep of a range. */
  function Wrap(r: Range): Range { Range(r.off % UINT16_MODULUS, r.len % UINT16_MODULUS) }

  function Wrapped(fields: Fields): Fields { map f | f in fields :: Wrap(fields[f]) }

  /** Where 16 bits reach. */
  predicate Reaches(fields: Fields) {
    forall f :: f in fields ==> fields[f].off < UINT16_MODULUS && fields[f].len < UINT16_MODULUS
  }

  lemma WrappedIs(fields: Fields)
    ensures Wrapped(fields) == fields <==> Reaches(fields)
  {
    if Wrapped(fields) == fields {
      forall f | f in fields ensures fields[f].off < UINT16_MODULUS && fields[f].len < UINT16_MODULUS {
        assert Wrapped(fields)[f] == Wrap(fields[f]);
      }
    }
  }

  lemma WrapNext(r: Range)
    ensures Wrap(Range(r.off, r.len + 1)) == Range(Wrap(r).off, (Wrap(r).len + 1) % UINT16_MODULUS)
  {
  }

  lemma WrapOne(p: nat)
    ensures Wrap(Range(p, 1)) == Range(p % UINT16_MODULUS, 1)
  {
  }

  lemma WrapRecord(fields: Fields, f: UrlField, p: nat)
    ensures f in fields ==>
              Wrapped(Record(fields, f, p))
              == Wrapped(fields)[f := Range(Wrapped(fields)[f].off, (Wrapped(fields)[f].len + 1) % UINT16_MODULUS)]
    ensures f !in fields ==> Wrapped(Record(fields, f, p)) == Wrapped(fields)[f := Range(p % UINT16_MODULUS, 1)]
  {
    hide Wrap;
    if f in fields {
      WrapNext(fields[f]);
    } else {
      WrapOne(p);
    }
  }

  /** The loop of http_parser_parse_url: it fails when a byte is not allowed. full holds the ranges themselves,
      of which the source keeps 16 bits. */
  method SplitUrl(buf: seq<byte>, isConnect: bool) returns (ok: bool, fields: Fields, foundAt: bool, ghost full: Fields)
    ensures ok <==> StateAt(buf, isConnect, |buf|) != Start(Dead)
    ensures ok ==> AllRecorded(buf, isConnect, |buf|, full) && fields == Wrapped(full)
    ensures ok ==> (foundAt <==> SeenAt(buf, isConnect, |buf|))
  {
    hide ParseUrlChar, Rank, Recorded, Wrapped, Record;
    var s, oldUf := FirstState(isConnect), None;
    ok, fields, foundAt, full := true, map[], false, map[];
    assert Wrapped(full) == fields by { NothingWrapped(); }
    assert AllRecorded(buf, isConnect, 0, fields) by { NothingRecorded(buf, isConnect); }
    for p := 0 to |buf|
      invariant ok && s == StateAt(buf, isConnect, p) && (p > 0 ==> s != Start(Dead))
      invariant AllRecorded(buf, isConnect, p, full) && fields == Wrapped(full) && fields.Keys == full.Keys
      invariant FieldOf(s).Some? ==> oldUf == FieldOf(s)
      invariant oldUf.Some? ==> oldUf.value in fields
      invariant foundAt <==> SeenAt(buf, isConnect, p)
    {
      RankMonotone(buf, isConnect, p, p + 1);
      s := ParseUrlChar(s, buf[p]);
      assert s == StateAt(buf, isConnect, p + 1);
      if s == Start(Dead) {
        DeadStays(buf, isConnect, p + 1);
        return false, fields, foundAt, full;
      }
      if s == Target(ReqServerWithAt) {
        foundAt := true;
      }
      RecordKeeps(buf, isConnect, p, full);
      var uf := FieldOf(s);
      if uf.Some? {
        if uf.value in full {
          FieldGoesOn(buf, isConnect, p, full, uf.value);
        }
        WrapRecord(full, uf.value, p);
        RecordedKeys(full, uf.value, p);
        full := Record(full, uf.value, p);
        if uf == oldUf {
          fields := fields[uf.value := Range(fields[uf.value].off, (fields[uf.value].len + 1) % UINT16_MODULUS)];
        } else {
          fields := fields[uf.value := Range(p % UINT16_MODULUS, 1)];
          oldUf := uf;
        }
      }
    }
  }

  lemma NothingWrapped()
    ensures Wrapped(map[]) == map[]
  {
  }

  lemma RecordedKeys(fields: Fields, f: UrlField, p: nat)
    ensures Record(fields, f, p).Keys == fields.Keys + {f}
  {
  }

  lemma NothingRecorded(buf: seq<byte>, isConnect: bool)
    ensures AllRecorded(buf, isConnect, 0, map[])
  {
  }

  lemma {:induction false} DeadStays(buf: seq<byte>, isConnect: bool, p: nat)
    requires 0 < p <= |buf| && StateAt(buf, isConnect, p) == Start(Dead)
    ensures StateAt(buf, isConnect, |buf|) == Start(Dead)
    decreases |buf| - p
  {
    if p < |buf| {
      RankMonotone(buf, isConnect, p, p + 1);
      DeadStays(buf, isConnect, p + 1);
    }
  }

  /** A URL that is allowed to its end has been allowed all the way. */
  lemma AliveBefore(buf: seq<byte>, isConnect: bool, i: nat)
    requires 0 < i <= |buf| && StateAt(buf, isConnect, |buf|) != Start(Dead)
    ensures StateAt(buf, isConnect, i).Target?
  {
    hide ParseUrlChar, Rank;
    RankMonotone(buf, isConnect, i - 1, i);
    if StateAt(buf, isConnect, i) == Start(Dead) {
      DeadStays(buf, isConnect, i);
    }
  }

  // ------------------------------------------------------------------ the host automaton

  datatype HostState =
    | HostDead | UserinfoStart | InUserinfo | HostStart | V6Start | InHost | V6 | V6End
    | ZoneStart | Zone | PortStart | InPort

  /** http_parse_host_char */
  function ParseHostChar(s: HostState, ch: byte): HostState {
    match s
    case InUserinfo => ParseUserinfoChar(ch)
    case UserinfoStart => ParseUserinfoChar(ch)
    case HostStart => if ch == '[' then V6Start else if IsHostChar(ch) then InHost else HostDead
    case InHost => if IsHostChar(ch) then InHost else if ch == ':' then PortStart else HostDead
    case V6End => if ch == ':' then PortStart else HostDead
    case V6 =>
      if ch == ']' then V6End
      else if IsHex(ch) || ch == ':' || ch == '.' then V6
      else if ch == '%' then ZoneStart
      else HostDead
    case V6Start => if IsHex(ch) || ch == ':' || ch == '.' then V6 else HostDead
    case Zone => if ch == ']' then V6End else if IsZoneChar(ch) then Zone else HostDead
    case ZoneStart => if IsZoneChar(ch) then Zone else HostDead
    case InPort => if IsNum(ch) then InPort else HostDead
    case PortStart => if IsNum(ch) then InPort else HostDead
    case HostDead => HostDead
  }

  function ParseUserinfoChar(ch: byte): HostState {
    if ch == '@' then HostStart else if IsUserinfoChar(ch) then InUserinfo else HostDead
  }

  predicate IsZoneChar(ch: byte) { IsAlphaNum(ch) || ch in {'%', '.', '-', '_', '~'} }

  function HostFieldOf(s: HostState): Option<UrlField> {
    match s
    case InUserinfo => Some(Userinfo)
    case InHost => Some(Host)
    case V6 => Some(Host)
    case ZoneStart => Some(Host)
    case Zone => Some(Host)
    case InPort => Some(Port)
    case _ => None
  }

  function HostRank(s: HostState): nat {
    match s
    case UserinfoStart => 0 case InUserinfo => 1 case HostStart => 2 case V6Start => 3
    case InHost => 4 case V6 => 4 case ZoneStart => 4 case Zone => 4
    case V6End => 5 case PortStart => 6 case InPort => 7 case HostDead => 8
  }

  function HostFieldRank(f: UrlField): nat {
    match f
    case Userinfo => 1 case Host => 4 case Port => 7 case _ => 9
  }

  /** States in which a host may end. */
  predicate HostMayEnd(s: HostState) { s.InHost? || s.V6End? || s.InPort? }

  function HostAt(text: seq<byte>, foundAt: bool, i: nat): HostState
    requires i <= |text|
  {
    if i == 0 then (if foundAt then UserinfoStart else HostStart)
    else ParseHostChar(HostAt(text, foundAt, i - 1), text[i - 1])
  }

  function HostBelongs(text: seq<byte>, foundAt: bool, p: nat, f: UrlField): (b: seq<bool>)
    requires p <= |text|
    ensures |b| == p && forall i :: 0 <= i < p ==> b[i] == (HostFieldOf(HostAt(text, foundAt, i + 1)) == Some(f))
  {
    seq(p, i requires 0 <= i < p => HostFieldOf(HostAt(text, foundAt, i + 1)) == Some(f))
  }

  predicate HostRecordedAt(text: seq<byte>, foundAt: bool, p: nat, fields: Fields, f: UrlField)
    requires p <= |text|
  {
    Recorded(fields, f, HostBelongs(text, foundAt, p, f))
  }

  ghost predicate HostRecorded(text: seq<byte>, foundAt: bool, p: nat, fields: Fields)
    requires p <= |text|
  {
    forall f :: HostRecordedAt(text, foundAt, p, fields, f)
  }

  lemma HostFieldHasRank(s: HostState, f: UrlField)
    ensures HostFieldOf(s) == Some(f) <==> HostRank(s) == HostFieldRank(f)
  {
  }

  lemma HostRankGrows(s: HostState, ch: byte)
    ensures HostRank(s) <= HostRank(ParseHostChar(s, ch))
  {
  }

  lemma {:induction false} HostRankMonotone(text: seq<byte>, foundAt: bool, i: nat, j: nat)
    requires i <= j <= |text|
    ensures HostRank(HostAt(text, foundAt, i)) <= HostRank(HostAt(text, foundAt, j))
    decreases j
  {
    hide ParseHostChar, HostRank;
    if i < j {
      HostRankMonotone(text, foundAt, i, j - 1);
      HostRankGrows(HostAt(text, foundAt, j - 1), text[j - 1]);
    }
  }

  lemma HostFieldGoesOn(text: seq<byte>, foundAt: bool, p: nat, fields: Fields, f: UrlField)
    requires p < |text| && HostRecorded(text, foundAt, p, fields)
    requires HostFieldOf(HostAt(text, foundAt, p + 1)) == Some(f) && f in fields
    ensures fields[f].off + fields[f].len == p && HostFieldOf(HostAt(text, foundAt, p)) == Some(f)
  {
    hide HostAt, HostRank, HostFieldOf;
    var b := HostBelongs(text, foundAt, p, f);
    assert HostRecordedAt(text, foundAt, p, fields, f);
    var i := fields[f].off;
    assert b[i];
    HostRankMonotone(text, foundAt, i + 1, p);
    HostRankMonotone(text, foundAt, p, p + 1);
    HostFieldHasRank(HostAt(text, foundAt, i + 1), f);
    HostFieldHasRank(HostAt(text, foundAt, p), f);
    HostFieldHasRank(HostAt(text, foundAt, p + 1), f);
    assert b[p - 1];
  }

  lemma HostRecordKeeps(text: seq<byte>, foundAt: bool, p: nat, fields: Fields)
    requires p < |text| && HostRecorded(text, foundAt, p, fields)
    ensures HostRecorded(text, foundAt, p + 1, Recording(fields, HostFieldOf(HostAt(text, foundAt, p + 1)), p))
  {
    hide HostAt, HostFieldOf;
    var s := HostAt(text, foundAt, p + 1);
    var fields' := Recording(fields, HostFieldOf(s), p);
    if HostFieldOf(s).Some? && HostFieldOf(s).value in fields {
      HostFieldGoesOn(text, foundAt, p, fields, HostFieldOf(s).value);
    }
    var n := p + 1;
    forall f ensures HostRecordedAt(text, foundAt, n, fields', f) {
      assert HostRecordedAt(text, foundAt, p, fields, f);
      assert HostBelongs(text, foundAt, p + 1, f)[..p] == HostBelongs(text, foundAt, p, f);
    }
  }

  /** Where a field of the host begins: the automaton comes from outside the field. */
  lemma HostFieldEnters(s: HostState, ch: byte)
    ensures var t := ParseHostChar(s, ch);
            && (t == InHost && s != InHost ==> HostFieldOf(s) == None)
            && (t == V6 && s != V6 ==> HostFieldOf(s) == None)
            && (t == InPort && s != InPort ==> HostFieldOf(s) == None)
            && (t == InUserinfo && s != InUserinfo ==> HostFieldOf(s) == None)
            && (t == ZoneStart || t == Zone ==> HostFieldOf(s) == Some(Host))
  {
  }

  lemma {:induction false} HostDeadStays(text: seq<byte>, foundAt: bool, p: nat)
    requires p <= |text| && HostAt(text, foundAt, p) == HostDead
    ensures HostAt(text, foundAt, |text|) == HostDead
    decreases |text| - p
  {
    if p < |text| {
      HostDeadStays(text, foundAt, p + 1);
    }
  }

  /** off is set when the field begins; len counts its bytes. */
  function Take(fields: Fields, f: UrlField, p: nat, begins: bool): Fields {
    if begins || f !in fields then fields[f := Range(p % UINT16_MODULUS, 1)]
    else fields[f := Range(fields[f].off, (fields[f].len + 1) % UINT16_MODULUS)]
  }

  lemma TakeIsRecord(text: seq<byte>, foundAt: bool, p: nat, fields: Fields, f: UrlField, begins: bool)
    requires p < |text| < UINT16_MODULUS && HostRecorded(text, foundAt, p, fields)
    requires HostFieldOf(HostAt(text, foundAt, p + 1)) == Some(f)
    requires begins ==> HostFieldOf(HostAt(text, foundAt, p)) == None
    ensures Take(fields, f, p, begins) == Record(fields, f, p)
  {
    hide HostAt, HostFieldOf;
    if f in fields {
      HostFieldGoesOn(text, foundAt, p, fields, f);
    }
  }

  lemma NothingHostRecorded(text: seq<byte>, foundAt: bool)
    ensures HostRecorded(text, foundAt, 0, map[])
  {
  }

  /** What ParseHost does to the fields at a byte that leads from s to t. */
  function TakeHostByte(fields: Fields, p: nat, s: HostState, t: HostState): Fields {
    match t
    case InHost => Take(fields, Host, p, s != InHost)
    case V6 => Take(fields, Host, p, s != V6)
    case ZoneStart => Take(fields, Host, p, false)
    case Zone => Take(fields, Host, p, false)
    case InPort => Take(fields, Port, p, s != InPort)
    case InUserinfo => Take(fields, Userinfo, p, s != InUserinfo)
    case _ => fields
  }

  lemma TakeHostByteKeeps(text: seq<byte>, foundAt: bool, p: nat, fields: Fields)
    requires p < |text| < UINT16_MODULUS && HostRecorded(text, foundAt, p, fields)
    ensures HostRecorded(text, foundAt, p + 1,
                         TakeHostByte(fields, p, HostAt(text, foundAt, p), HostAt(text, foundAt, p + 1)))
  {
    var s, t := HostAt(text, foundAt, p), HostAt(text, foundAt, p + 1);
    HostFieldEnters(s, text[p]);
    hide ParseHostChar, HostRecorded, Take, Record;
    HostRecordKeeps(text, foundAt, p, fields);
    match t
    case InHost => TakeIsRecord(text, foundAt, p, fields, Host, s != InHost);
    case V6 => TakeIsRecord(text, foundAt, p, fields, Host, s != V6);
    case ZoneStart => TakeIsRecord(text, foundAt, p, fields, Host, false);
    case Zone => TakeIsRecord(text, foundAt, p, fields, Host, false);
    case InPort => TakeIsRecord(text, foundAt, p, fields, Port, s != InPort);
    case InUserinfo => TakeIsRecord(text, foundAt, p, fields, Userinfo, s != InUserinfo);
    case _ =>
  }

  /** http_parse_host over the text of the host field; offsets count from its start. */
  method ParseHost(text: seq<byte>, foundAt: bool) returns (ok: bool, fields: Fields)
    requires |text| < UINT16_MODULUS
    ensures ok <==> HostMayEnd(HostAt(text, foundAt, |text|))
    ensures ok ==> HostRecorded(text, foundAt, |text|, fields)
  {
    hide ParseHostChar, HostRecorded, TakeHostByte;
    var s := if foundAt then UserinfoStart else HostStart;
    fields := map[];
    NothingHostRecorded(text, foundAt);
    for p := 0 to |text|
      invariant s == HostAt(text, foundAt, p) && s != HostDead
      invariant HostRecorded(text, foundAt, p, fields)
    {
      var t := ParseHostChar(s, text[p]);
      assert t == HostAt(text, foundAt, p + 1);
      if t == HostDead {
        HostDeadStays(text, foundAt, p + 1);
        return false, fields;
      }
      TakeHostByteKeeps(text, foundAt, p, fields);
      fields := TakeHostByte(fields, p, s, t);
      s := t;
    }
    ok := HostMayEnd(s);
  }

  // ------------------------------------------------------------------ the port

  /** A char is signed. */
  function Signed(ch: byte): int { if ch < 0x80 as char then ch as int else ch as int - 0x100 }

  /** The conversion of the port, which refuses values above 65535. The source takes it for granted that the
      characters are digits; the sum is an unsigned 64-bit number. */
  method ParsePort(text: seq<byte>) returns (ok: bool, port: nat)
    ensures ok ==> port <= 0xffff
    ensures Digits(text) ==> (ok <==> Decimal(text) <= 0xffff) && (ok ==> port == Decimal(text))
  {
    port := 0;
    for i := 0 to |text|
      invariant port <= 0xffff && (Digits(text) ==> port == Decimal(text[..i]))
    {
      assert text[..i + 1][..i] == text[..i];
      if Digits(text) {
        PortStep(port, text[i]);
      }
      port := (port * 10 + (Signed(text[i]) - '0' as int)) % UINT64_MODULUS;
      if port > 0xffff {
        if Digits(text) {
          DecimalGrows(text, i + 1, |text|);
        }
        assert text[..|text|] == text;
        return false, port;
      }
    }
    assert text[..|text|] == text;
    ok := true;
  }

  lemma PortStep(port: nat, ch: byte)
    requires port <= 0xffff && IsNum(ch)
    ensures (port * 10 + (Signed(ch) - '0' as int)) % UINT64_MODULUS == port * 10 + DigitValue(ch)
  {
  }

  lemma {:induction false} DecimalGrows(s: seq<byte>, i: nat, j: nat)
    requires i <= j <= |s| && Digits(s)
    ensures Decimal(s[..i]) <= Decimal(s[..j])
    decreases j
  {
    if i < j {
      DecimalGrows(s, i, j - 1);
      assert s[..j][..j - 1] == s[..j - 1];
    }
  }

  // ------------------------------------------------------------------ the whole URL

  predicate InBounds(buf: seq<byte>, r: Range) { 0 < r.len && r.off + r.len <= |buf| }

  function Text(buf: seq<byte>, r: Range): seq<byte>
    requires r.off + r.len <= |buf|
  {
    buf[r.off..r.off + r.len]
  }

  function Shift(r: Range, base: nat): Range { Range(base + r.off, r.len) }

  /** The order of the fields in a URL. */
  function Order(f: UrlField): nat {
    match f
    case Schema => 0 case Userinfo => 1 case Host => 2 case Port => 3 case Path => 4 case Query => 5 case Fragment => 6
  }

  predicate Covered(fields: Fields, i: nat) {
    exists f :: f in fields && fields[f].off <= i < fields[f].off + fields[f].len
  }

  predicate Delimiter(ch: byte) { ch in {':', '/', '@', '[', ']', '?', '#'} }

  /** Non-empty ranges inside the URL, in order and apart; what lies between them is delimiters. */
  ghost predicate Decomposes(buf: seq<byte>, fields: Fields) {
    && (forall f :: f in fields ==> InBounds(buf, fields[f]))
    && (forall f, g :: f in fields && g in fields && Order(f) < Order(g) ==>
          fields[f].off + fields[f].len <= fields[g].off)
    && (forall i: nat :: i < |buf| ==> Covered(fields, i) || Delimiter(buf[i]))
  }

  lemma DelimiterByte(s: State, ch: byte)
    requires ParseUrlChar(s, ch).Target? && FieldOf(ParseUrlChar(s, ch)) == None
    ensures Delimiter(ch)
  {
  }

  lemma RecordedRange(buf: seq<byte>, isConnect: bool, split: Fields, f: UrlField, i: nat)
    requires AllRecorded(buf, isConnect, |buf|, split) && i < |buf|
    ensures f in split ==> InBounds(buf, split[f])
    ensures FieldOf(StateAt(buf, isConnect, i + 1)) == Some(f) <==>
              f in split && split[f].off <= i < split[f].off + split[f].len
  {
    hide StateAt, FieldOf;
    assert RecordedAt(buf, isConnect, |buf|, split, f);
    assert Belongs(buf, isConnect, |buf|, f)[i] == (FieldOf(StateAt(buf, isConnect, i + 1)) == Some(f));
  }

  lemma SplitOrder(buf: seq<byte>, isConnect: bool, split: Fields, f: UrlField, g: UrlField)
    requires AllRecorded(buf, isConnect, |buf|, split) && f in split && g in split && FieldRank(f) < FieldRank(g)
    ensures split[f].off + split[f].len <= split[g].off
  {
    hide StateAt, FieldOf, Rank;
    assert RecordedAt(buf, isConnect, |buf|, split, f) && RecordedAt(buf, isConnect, |buf|, split, g);
    var i, j := split[g].off, split[f].off + split[f].len - 1;
    RecordedRange(buf, isConnect, split, g, i);
    RecordedRange(buf, isConnect, split, f, j);
    FieldHasRank(StateAt(buf, isConnect, i + 1), g);
    FieldHasRank(StateAt(buf, isConnect, j + 1), f);
    if i <= j {
      RankMonotone(buf, isConnect, i + 1, j + 1);
    }
  }

  /** The fields that the target automaton knows. */
  predicate Simple(f: UrlField) { f != Port && f != Userinfo }

  lemma SplitKeys(buf: seq<byte>, isConnect: bool, split: Fields, f: UrlField)
    requires AllRecorded(buf, isConnect, |buf|, split) && f in split
    ensures Simple(f) && InBounds(buf, split[f])
  {
    hide StateAt, FieldOf;
    assert RecordedAt(buf, isConnect, |buf|, split, f);
    var i := split[f].off;
    RecordedRange(buf, isConnect, split, f, i);
    SimpleFields(StateAt(buf, isConnect, i + 1));
  }

  lemma SimpleFields(s: State)
    ensures FieldOf(s).Some? ==> Simple(FieldOf(s).value)
  {
  }

  lemma SplitCovers(buf: seq<byte>, isConnect: bool, split: Fields, i: nat)
    requires AllRecorded(buf, isConnect, |buf|, split) && i < |buf|
    requires StateAt(buf, isConnect, |buf|) != Start(Dead)
    ensures Covered(split, i) || Delimiter(buf[i])
  {
    hide ParseUrlChar, FieldOf, Rank, Delimiter;
    var s := StateAt(buf, isConnect, i + 1);
    RankMonotone(buf, isConnect, i, i + 1);
    if s == Start(Dead) {
      DeadStays(buf, isConnect, i + 1);
    }
    if FieldOf(s).Some? {
      RecordedRange(buf, isConnect, split, FieldOf(s).value, i);
    } else {
      DelimiterByte(StateAt(buf, isConnect, i), buf[i]);
    }
  }

  // the same for the text of the host

  lemma HostDelimiterByte(s: HostState, ch: byte)
    requires ParseHostChar(s, ch) != HostDead && HostFieldOf(ParseHostChar(s, ch)) == None
    ensures Delimiter(ch)
  {
  }

  lemma HostRecordedRange(text: seq<byte>, foundAt: bool, hf: Fields, f: UrlField, i: nat)
    requires HostRecorded(text, foundAt, |text|, hf) && i < |text|
    ensures f in hf ==> InBounds(text, hf[f])
    ensures HostFieldOf(HostAt(text, foundAt, i + 1)) == Some(f) <==> f in hf && hf[f].off <= i < hf[f].off + hf[f].len
  {
    hide HostAt, HostFieldOf;
    assert HostRecordedAt(text, foundAt, |text|, hf, f);
    assert HostBelongs(text, foundAt, |text|, f)[i] == (HostFieldOf(HostAt(text, foundAt, i + 1)) == Some(f));
  }

  lemma HostOrder(text: seq<byte>, foundAt: bool, hf: Fields, f: UrlField, g: UrlField)
    requires HostRecorded(text, foundAt, |text|, hf) && f in hf && g in hf && HostFieldRank(f) < HostFieldRank(g)
    ensures hf[f].off + hf[f].len <= hf[g].off
  {
    hide HostAt, HostFieldOf, HostRank;
    assert HostRecordedAt(text, foundAt, |text|, hf, f) && HostRecordedAt(text, foundAt, |text|, hf, g);
    var i, j := hf[g].off, hf[f].off + hf[f].len - 1;
    HostRecordedRange(text, foundAt, hf, g, i);
    HostRecordedRange(text, foundAt, hf, f, j);
    HostFieldHasRank(HostAt(text, foundAt, i + 1), g);
    HostFieldHasRank(HostAt(text, foundAt, j + 1), f);
    if i <= j {
      HostRankMonotone(text, foundAt, i + 1, j + 1);
    }
  }

  lemma HostKeys(text: seq<byte>, foundAt: bool, hf: Fields, f: UrlField)
    requires HostRecorded(text, foundAt, |text|, hf) && f in hf
    ensures (f == Userinfo || f == Host || f == Port) && InBounds(text, hf[f])
  {
    hide HostAt, HostFieldOf;
    assert HostRecordedAt(text, foundAt, |text|, hf, f);
    HostRecordedRange(text, foundAt, hf, f, hf[f].off);
    HostFieldKinds(HostAt(text, foundAt, hf[f].off + 1));
  }

  lemma HostFieldKinds(s: HostState)
    ensures HostFieldOf(s).Some? ==> HostFieldOf(s).value in {Userinfo, Host, Port}
  {
  }

  lemma HostCovers(text: seq<byte>, foundAt: bool, hf: Fields, i: nat)
    requires HostRecorded(text, foundAt, |text|, hf) && i < |text|
    requires HostMayEnd(HostAt(text, foundAt, |text|))
    ensures Covered(hf, i) || Delimiter(text[i])
  {
    hide ParseHostChar, HostFieldOf, Delimiter;
    var s := HostAt(text, foundAt, i + 1);
    if s == HostDead {
      HostDeadStays(text, foundAt, i + 1);
    }
    if HostFieldOf(s).Some? {
      HostRecordedRange(text, foundAt, hf, HostFieldOf(s).value, i);
    } else {
      HostDelimiterByte(HostAt(text, foundAt, i), text[i]);
    }
  }

  /** Behind the host there has been a host. */
  lemma {:induction false} HostSeen(text: seq<byte>, foundAt: bool, i: nat)
    requires i <= |text|
    requires var s := HostAt(text, foundAt, i); HostFieldOf(s) == Some(Host) || s.V6End? || s.PortStart? || s.InPort?
    ensures exists j: nat :: 1 <= j <= i && HostFieldOf(HostAt(text, foundAt, j)) == Some(Host)
    decreases i
  {
    if HostFieldOf(HostAt(text, foundAt, i)) != Some(Host) {
      HostSeen(text, foundAt, i - 1);
    }
  }

  lemma HostPresent(text: seq<byte>, foundAt: bool, hf: Fields)
    requires HostRecorded(text, foundAt, |text|, hf) && HostMayEnd(HostAt(text, foundAt, |text|))
    ensures Host in hf
  {
    hide ParseHostChar;
    HostSeen(text, foundAt, |text|);
    var j: nat :| 1 <= j <= |text| && HostFieldOf(HostAt(text, foundAt, j)) == Some(Host);
    HostRecordedRange(text, foundAt, hf, Host, j - 1);
  }

  lemma PortDigits(text: seq<byte>, foundAt: bool, hf: Fields)
    requires HostRecorded(text, foundAt, |text|, hf) && Port in hf
    ensures InBounds(text, hf[Port]) && Digits(Text(text, hf[Port]))
  {
    HostKeys(text, foundAt, hf, Port);
    var t := Text(text, hf[Port]);
    forall k | 0 <= k < |t| ensures IsNum(t[k]) {
      HostRecordedRange(text, foundAt, hf, Port, hf[Port].off + k);
    }
  }

  // ------------------------------------------------------------------ http_parser_parse_url

  /** The fields with the host field replaced by what the host automaton found in it. */
  function Refine(split: Fields, hf: Fields): Fields
    requires Host in split
  {
    split + Shifted(hf, split[Host].off)
  }

  function Shifted(hf: Fields, base: nat): Fields { map f | f in hf :: Shift(hf[f], base) }

  lemma RefinedDecomposes(buf: seq<byte>, isConnect: bool, split: Fields, foundAt: bool, hf: Fields)
    requires AllRecorded(buf, isConnect, |buf|, split) && StateAt(buf, isConnect, |buf|) != Start(Dead)
    requires Host in split && InBounds(buf, split[Host])
    requires var text := Text(buf, split[Host]);
             HostRecorded(text, foundAt, |text|, hf) && HostMayEnd(HostAt(text, foundAt, |text|))
    ensures Host in hf
    ensures Decomposes(buf, Refine(split, hf))
  {
    hide StateAt, HostAt, AllRecorded, HostRecorded, FieldRank, HostFieldRank, Delimiter, HostMayEnd;
    var text := Text(buf, split[Host]);
    var all := Refine(split, hf);
    HostPresent(text, foundAt, hf);
    forall f | f in all ensures InBounds(buf, all[f]) {
      if f in hf { HostKeys(text, foundAt, hf, f); } else { SplitKeys(buf, isConnect, split, f); }
    }
    forall f, g | f in all && g in all && Order(f) < Order(g)
      ensures all[f].off + all[f].len <= all[g].off
    {
      RefinedOrder(buf, isConnect, split, foundAt, hf, f, g);
    }
    forall i: nat | i < |buf| ensures Covered(all, i) || Delimiter(buf[i]) {
      RefinedCovers(buf, isConnect, split, foundAt, hf, i);
    }
  }

  lemma Ranks(f: UrlField, g: UrlField)
    requires Order(f) < Order(g)
    ensures Simple(f) && Simple(g) ==> FieldRank(f) < FieldRank(g)
    ensures f in {Userinfo, Host, Port} && g in {Userinfo, Host, Port} ==> HostFieldRank(f) < HostFieldRank(g)
    ensures f in {Userinfo, Host, Port} && !(g in {Userinfo, Host, Port}) ==> FieldRank(Host) < FieldRank(g)
    ensures g in {Userinfo, Host, Port} && !(f in {Userinfo, Host, Port}) ==> FieldRank(f) < FieldRank(Host)
  {
  }

  lemma RefinedOrder(buf: seq<byte>, isConnect: bool, split: Fields, foundAt: bool, hf: Fields,
                     f: UrlField, g: UrlField)
    requires AllRecorded(buf, isConnect, |buf|, split) && Host in split && InBounds(buf, split[Host]) && Host in hf
    requires var text := Text(buf, split[Host]); HostRecorded(text, foundAt, |text|, hf)
    requires var all := Refine(split, hf); f in all && g in all && Order(f) < Order(g)
    ensures var all := Refine(split, hf); all[f].off + all[f].len <= all[g].off
  {
    hide AllRecorded, HostRecorded, FieldRank, HostFieldRank, Order;
    var text := Text(buf, split[Host]);
    Ranks(f, g);
    if f in hf { HostKeys(text, foundAt, hf, f); } else { SplitKeys(buf, isConnect, split, f); }
    if g in hf { HostKeys(text, foundAt, hf, g); } else { SplitKeys(buf, isConnect, split, g); }
    if f in hf && g in hf {
      HostOrder(text, foundAt, hf, f, g);
    } else if f in hf {
      SplitOrder(buf, isConnect, split, Host, g);
    } else if g in hf {
      SplitOrder(buf, isConnect, split, f, Host);
    } else {
      SplitOrder(buf, isConnect, split, f, g);
    }
  }

  lemma RefinedCovers(buf: seq<byte>, isConnect: bool, split: Fields, foundAt: bool, hf: Fields, i: nat)
    requires AllRecorded(buf, isConnect, |buf|, split) && StateAt(buf, isConnect, |buf|) != Start(Dead) && i < |buf|
    requires Host in split && InBounds(buf, split[Host]) && Host in hf
    requires var text := Text(buf, split[Host]);
             HostRecorded(text, foundAt, |text|, hf) && HostMayEnd(HostAt(text, foundAt, |text|))
    ensures Covered(Refine(split, hf), i) || Delimiter(buf[i])
  {
    hide StateAt, HostAt, AllRecorded, HostRecorded, Delimiter, HostMayEnd;
    var all := Refine(split, hf);
    var host := split[Host];
    if host.off <= i < host.off + host.len {
      var text := Text(buf, host);
      assert text[i - host.off] == buf[i];
      HostCovers(text, foundAt, hf, i - host.off);
      if Covered(hf, i - host.off) {
        var f :| f in hf && hf[f].off <= i - host.off < hf[f].off + hf[f].len;
        assert all[f] == Shift(hf[f], host.off);
      }
    } else {
      SplitCovers(buf, isConnect, split, i);
      if Covered(split, i) {
        var f :| f in split && split[f].off <= i < split[f].off + split[f].len;
        SplitKeys(buf, isConnect, split, f);
        if f in hf {
          HostKeys(Text(buf, host), foundAt, hf, f);
        }
        assert all[f] == split[f];
      }
    }
  }

  lemma SplitDecomposes(buf: seq<byte>, isConnect: bool, split: Fields)
    requires AllRecorded(buf, isConnect, |buf|, split) && StateAt(buf, isConnect, |buf|) != Start(Dead)
    ensures Decomposes(buf, split)
  {
    hide StateAt, AllRecorded, FieldRank, Delimiter;
    forall f | f in split ensures InBounds(buf, split[f]) && Simple(f) {
      SplitKeys(buf, isConnect, split, f);
    }
    forall f, g | f in split && g in split && Order(f) < Order(g)
      ensures split[f].off + split[f].len <= split[g].off
    {
      Ranks(f, g);
      SplitOrder(buf, isConnect, split, f, g);
    }
    forall i: nat | i < |buf| ensures Covered(split, i) || Delimiter(buf[i]) {
      SplitCovers(buf, isConnect, split, i);
    }
  }

  /** The bytes that are marked. */
  function Picked(text: seq<byte>, b: seq<bool>): seq<byte>
    requires |b| <= |text|
  {
    if b == [] then []
    else Picked(text, b[..|b| - 1]) + if b[|b| - 1] then [text[|b| - 1]] else []
  }

  lemma {:induction false} PickedRange(text: seq<byte>, b: seq<bool>, off: nat, len: nat)
    requires |b| <= |text| && forall i :: 0 <= i < |b| ==> (b[i] <==> off <= i < off + len)
    ensures Picked(text, b) == if off >= |b| then [] else text[off..if off + len < |b| then off + len else |b|]
    decreases |b|
  {
    if b != [] {
      var n := |b| - 1;
      PickedRange(text, b[..n], off, len);
      if n < off {
        assert !b[n];
      } else if n < off + len {
        assert b[n] && text[off..n + 1] == text[off..n] + [text[n]];
      } else {
        assert !b[n];
      }
    }
  }

  lemma RecordedText(text: seq<byte>, fields: Fields, f: UrlField, b: seq<bool>)
    requires |b| == |text| && Recorded(fields, f, b)
    ensures f in fields <==> Picked(text, b) != []
    ensures f in fields ==> InBounds(text, fields[f]) && Picked(text, b) == Text(text, fields[f])
  {
    if f in fields {
      PickedRange(text, b, fields[f].off, fields[f].len);
    } else {
      PickedRange(text, b, |text|, 0);
    }
  }

  /** The text of a field, and of a part of the host, by the automata alone. */
  function FieldText(buf: seq<byte>, isConnect: bool, f: UrlField): seq<byte> {
    Picked(buf, Belongs(buf, isConnect, |buf|, f))
  }

  function HostText(text: seq<byte>, at: bool, f: UrlField): seq<byte> {
    Picked(text, HostBelongs(text, at, |text|, f))
  }

  lemma FieldTextIs(buf: seq<byte>, isConnect: bool, split: Fields, f: UrlField)
    requires AllRecorded(buf, isConnect, |buf|, split)
    ensures f in split <==> FieldText(buf, isConnect, f) != []
    ensures f in split ==> InBounds(buf, split[f]) && FieldText(buf, isConnect, f) == Text(buf, split[f])
  {
    hide Recorded, Picked, Belongs;
    assert RecordedAt(buf, isConnect, |buf|, split, f);
    RecordedText(buf, split, f, Belongs(buf, isConnect, |buf|, f));
  }

  lemma HostTextIs(text: seq<byte>, at: bool, hf: Fields, f: UrlField)
    requires HostRecorded(text, at, |text|, hf)
    ensures f in hf <==> HostText(text, at, f) != []
    ensures f in hf ==> InBounds(text, hf[f]) && HostText(text, at, f) == Text(text, hf[f])
  {
    hide Recorded, Picked, HostBelongs;
    assert HostRecordedAt(text, at, |text|, hf, f);
    RecordedText(text, hf, f, HostBelongs(text, at, |text|, f));
  }

  predicate PortFits(text: seq<byte>, at: bool) {
    var port := HostText(text, at, Port);
    Digits(port) && Decimal(port) <= 0xffff
  }

  /** Which URLs are accepted: every byte is allowed; a scheme needs a host; the host is well formed and its
      port is a 16-bit number; and a CONNECT target consists of a host and a port. */
  ghost predicate UrlAccepted(buf: seq<byte>, isConnect: bool) {
    var host, at := FieldText(buf, isConnect, Host), SeenAt(buf, isConnect, |buf|);
    && buf != [] && StateAt(buf, isConnect, |buf|) != Start(Dead)
    && (FieldText(buf, isConnect, Schema) != [] ==> host != [])
    && (host != [] ==> HostMayEnd(HostAt(host, at, |host|)) && PortFits(host, at))
    && (isConnect ==> ConnectTarget(buf, host, at))
  }

  predicate ConnectTarget(buf: seq<byte>, host: seq<byte>, at: bool) {
    && host != [] && HostText(host, at, Port) != [] && HostText(host, at, Userinfo) == []
    && (forall f :: f in {Schema, Path, Query, Fragment} ==> FieldText(buf, true, f) == [])
  }

  lemma SplitTexts(buf: seq<byte>, isConnect: bool, split: Fields)
    requires AllRecorded(buf, isConnect, |buf|, split)
    ensures forall f :: f in split <==> FieldText(buf, isConnect, f) != []
    ensures forall f :: f in split ==> InBounds(buf, split[f]) && FieldText(buf, isConnect, f) == Text(buf, split[f])
    ensures Port !in split && Userinfo !in split
  {
    hide AllRecorded, FieldText;
    forall f
      ensures f in split <==> FieldText(buf, isConnect, f) != []
      ensures f in split ==>
                InBounds(buf, split[f]) && FieldText(buf, isConnect, f) == Text(buf, split[f]) && Simple(f)
    {
      FieldTextIs(buf, isConnect, split, f);
      if f in split {
        SplitKeys(buf, isConnect, split, f);
      }
    }
  }

  lemma HostTexts(text: seq<byte>, at: bool, hf: Fields)
    requires HostRecorded(text, at, |text|, hf)
    ensures forall f :: f in hf <==> HostText(text, at, f) != []
    ensures forall f :: f in hf ==> InBounds(text, hf[f]) && HostText(text, at, f) == Text(text, hf[f])
    ensures hf.Keys <= {Userinfo, Host, Port}
    ensures Port in hf ==> InBounds(text, hf[Port]) && Digits(Text(text, hf[Port]))
    ensures Port !in hf ==> PortFits(text, at)
  {
    hide HostRecorded, HostText, Digits;
    forall f
      ensures f in hf <==> HostText(text, at, f) != []
      ensures f in hf ==>
                InBounds(text, hf[f]) && HostText(text, at, f) == Text(text, hf[f]) && f in {Userinfo, Host, Port}
    {
      HostTextIs(text, at, hf, f);
      if f in hf {
        HostKeys(text, at, hf, f);
      }
    }
    if Port in hf {
      PortDigits(text, at, hf);
    } else {
      NoDigits();
    }
  }

  lemma RefinedPort(buf: seq<byte>, split: Fields, hf: Fields)
    requires Host in split && InBounds(buf, split[Host]) && Port in hf
    requires InBounds(Text(buf, split[Host]), hf[Port])
    ensures var fields := Refine(split, hf);
            Port in fields && InBounds(buf, fields[Port])
            && Text(buf, fields[Port]) == Text(Text(buf, split[Host]), hf[Port])
  {
    var host, r := split[Host], hf[Port];
    var shifted := Shifted(hf, host.off);
    assert Port in shifted && shifted[Port] == Range(host.off + r.off, r.len);
    assert (split + shifted)[Port] == shifted[Port];
    SliceOfSlice(buf, host, r);
  }

  lemma SliceOfSlice(buf: seq<byte>, host: Range, r: Range)
    requires InBounds(buf, host) && r.off + r.len <= host.len
    ensures Text(Text(buf, host), r) == Text(buf, Shift(r, host.off))
  {
    forall i | 0 <= i < r.len ensures Text(Text(buf, host), r)[i] == Text(buf, Shift(r, host.off))[i] {
      var j := r.off + i;
      assert Text(buf, host)[j] == buf[host.off + j];
    }
  }

  lemma ConnectKeys(buf: seq<byte>, split: Fields, at: bool, hf: Fields)
    requires AllRecorded(buf, true, |buf|, split) && Host in split && InBounds(buf, split[Host])
    requires var text := Text(buf, split[Host]); HostRecorded(text, at, |text|, hf) && Host in hf
    ensures Refine(split, hf).Keys == {Host, Port} <==> ConnectTarget(buf, Text(buf, split[Host]), at)
  {
    hide AllRecorded, HostRecorded, FieldText, HostText, Digits, PortFits;
    var text := Text(buf, split[Host]);
    var keys := Refine(split, hf).Keys;
    SplitTexts(buf, true, split);
    HostTexts(text, at, hf);
    assert keys == split.Keys + hf.Keys;
    OnlyHostAndPort(keys);
  }

  lemma OnlyHostAndPort(keys: set<UrlField>)
    ensures keys == {Host, Port} <==>
              Host in keys && Port in keys && Userinfo !in keys
              && Schema !in keys && Path !in keys && Query !in keys && Fragment !in keys
  {
    if Host in keys && Port in keys && Userinfo !in keys
       && Schema !in keys && Path !in keys && Query !in keys && Fragment !in keys {
      assert forall f :: f in keys ==> f == Host || f == Port;
    }
  }

  lemma NoHostNoConnect(buf: seq<byte>, host: seq<byte>, at: bool)
    requires host == []
    ensures !ConnectTarget(buf, host, at)
  {
  }

  // ------------------------------------------------------------------ spelling

  /** The characters a field may consist of. */
  predicate Spelled(f: UrlField, ch: byte) {
    match f
    case Schema => IsAlpha(ch)
    case Userinfo => IsUserinfoChar(ch)
    case Host => IsHostChar(ch) || IsZoneChar(ch) || ch == ':'
    case Port => IsNum(ch)
    case Path => IsUrlChar(ch)
    case Query => IsUrlChar(ch) || ch == '?'
    case Fragment => IsUrlChar(ch) || ch == '?' || ch == '#'
  }

  predicate SpelledIn(buf: seq<byte>, r: Range, f: UrlField) {
    forall i :: r.off <= i < r.off + r.len && i < |buf| ==> Spelled(f, buf[i])
  }

  ghost predicate WellSpelled(buf: seq<byte>, fields: Fields) {
    forall f :: f in fields ==> SpelledIn(buf, fields[f], f)
  }

  lemma ByteSpelled(s: State, ch: byte)
    ensures var f := FieldOf(ParseUrlChar(s, ch)); f.Some? && f.value != Host ==> Spelled(f.value, ch)
  {
  }

  lemma HostByteSpelled(s: HostState, ch: byte)
    ensures var f := HostFieldOf(ParseHostChar(s, ch)); f.Some? ==> Spelled(f.value, ch)
  {
  }

  lemma SplitSpelled(buf: seq<byte>, isConnect: bool, split: Fields, f: UrlField)
    requires AllRecorded(buf, isConnect, |buf|, split) && f in split && f != Host
    ensures SpelledIn(buf, split[f], f)
  {
    hide ParseUrlChar, FieldOf, Spelled;
    assert RecordedAt(buf, isConnect, |buf|, split, f);
    var b := Belongs(buf, isConnect, |buf|, f);
    forall i | split[f].off <= i < split[f].off + split[f].len && i < |buf| ensures Spelled(f, buf[i]) {
      assert b[i];
      ByteSpelled(StateAt(buf, isConnect, i), buf[i]);
    }
  }

  lemma HostSpelled(text: seq<byte>, at: bool, hf: Fields, f: UrlField)
    requires HostRecorded(text, at, |text|, hf) && f in hf
    ensures SpelledIn(text, hf[f], f)
  {
    hide ParseHostChar, HostFieldOf, Spelled;
    assert HostRecordedAt(text, at, |text|, hf, f);
    var b := HostBelongs(text, at, |text|, f);
    forall i | hf[f].off <= i < hf[f].off + hf[f].len && i < |text| ensures Spelled(f, text[i]) {
      assert b[i];
      HostByteSpelled(HostAt(text, at, i), text[i]);
    }
  }

  lemma AllSpelled(buf: seq<byte>, isConnect: bool, split: Fields)
    requires AllRecorded(buf, isConnect, |buf|, split) && Host !in split
    ensures WellSpelled(buf, split)
  {
    hide AllRecorded, SpelledIn;
    forall f | f in split ensures SpelledIn(buf, split[f], f) {
      SplitSpelled(buf, isConnect, split, f);
    }
  }

  /** With the host replaced by its parts. */
  lemma RefinedSpelled(buf: seq<byte>, isConnect: bool, split: Fields, at: bool, hf: Fields)
    requires AllRecorded(buf, isConnect, |buf|, split) && Host in split && InBounds(buf, split[Host]) && Host in hf
    requires var text := Text(buf, split[Host]); HostRecorded(text, at, |text|, hf)
    ensures WellSpelled(buf, Refine(split, hf))
  {
    hide AllRecorded, HostRecorded, SpelledIn;
    var text, all := Text(buf, split[Host]), Refine(split, hf);
    forall f | f in all ensures SpelledIn(buf, all[f], f) {
      if f in hf {
        HostSpelled(text, at, hf, f);
        HostKeys(text, at, hf, f);
        ShiftSpelled(buf, split[Host], hf[f], f);
        assert Shifted(hf, split[Host].off)[f] == Shift(hf[f], split[Host].off);
      } else {
        SplitSpelled(buf, isConnect, split, f);
      }
    }
  }

  lemma ShiftSpelled(buf: seq<byte>, host: Range, r: Range, f: UrlField)
    requires InBounds(buf, host) && InBounds(Text(buf, host), r) && SpelledIn(Text(buf, host), r, f)
    ensures SpelledIn(buf, Shift(r, host.off), f)
  {
    hide Spelled;
    forall i | host.off + r.off <= i < host.off + r.off + r.len && i < |buf| ensures Spelled(f, buf[i]) {
      assert Text(buf, host)[i - host.off] == buf[i];
    }
  }

  // ------------------------------------------------------------------ 16 bits

  function ShiftWrapped(hf: Fields, base: nat): Fields {
    map f | f in hf :: Range((base + hf[f].off) % UINT16_MODULUS, hf[f].len)
  }

  /** The fields with the host replaced, in 16-bit offsets. */
  function RefineWrapped(split: Fields, hf: Fields): Fields
    requires Host in split
  {
    split + ShiftWrapped(hf, split[Host].off)
  }

  /** 16 bits reach every field, and the end of the host. */
  predicate Short(full: Fields) {
    Reaches(full) && (Host in full ==> full[Host].off + full[Host].len <= UINT16_MODULUS)
  }

  /** The fields of the URL lie where 16 bits reach. */
  ghost predicate UrlFits(buf: seq<byte>, isConnect: bool) {
    forall full: Fields :: AllRecorded(buf, isConnect, |buf|, full) ==> Short(full)
  }

  /** Every URL below 64 KiB fits. */
  lemma ShortUrlFits(buf: seq<byte>, isConnect: bool)
    requires |buf| < UINT16_MODULUS
    ensures UrlFits(buf, isConnect)
  {
    hide AllRecorded;
    forall full: Fields | AllRecorded(buf, isConnect, |buf|, full) ensures Short(full) {
      forall f | f in full ensures InBounds(buf, full[f]) {
        SplitKeys(buf, isConnect, full, f);
      }
    }
  }

  lemma WrapInside(buf: seq<byte>, isConnect: bool, full: Fields, f: UrlField)
    requires AllRecorded(buf, isConnect, |buf|, full) && f in full
    ensures Wrap(full[f]).off + Wrap(full[f]).len <= |buf| && Wrap(full[f]).len < UINT16_MODULUS
    ensures Wrapped(full)[f] == Wrap(full[f])
  {
    hide AllRecorded;
    SplitKeys(buf, isConnect, full, f);
  }

  lemma PartInside(buf: seq<byte>, host: Range, at: bool, hf: Fields, f: UrlField)
    requires host.off + host.len <= |buf| && f in hf
    requires var text := Text(buf, host); HostRecorded(text, at, |text|, hf)
    ensures var r := ShiftWrapped(hf, host.off)[f]; r.off + r.len <= |buf|
  {
    hide HostRecorded;
    HostKeys(Text(buf, host), at, hf, f);
  }

  lemma ShortRefines(buf: seq<byte>, isConnect: bool, full: Fields, at: bool, hf: Fields)
    requires AllRecorded(buf, isConnect, |buf|, full) && Short(full) && Host in full && InBounds(buf, full[Host])
    requires var text := Text(buf, full[Host]); HostRecorded(text, at, |text|, hf)
    ensures Wrapped(full) == full && RefineWrapped(Wrapped(full), hf) == Refine(full, hf)
  {
    hide AllRecorded, HostRecorded;
    WrappedIs(full);
    var host := full[Host];
    forall f | f in hf ensures ShiftWrapped(hf, host.off)[f] == Shifted(hf, host.off)[f] {
      HostKeys(Text(buf, host), at, hf, f);
    }
    assert ShiftWrapped(hf, host.off) == Shifted(hf, host.off);
  }

  lemma {:induction false} PathStates(buf: seq<byte>, i: nat)
    requires 0 < i <= |buf| && buf[0] == '/' && forall j :: 0 <= j < |buf| ==> IsUrlChar(buf[j])
    ensures StateAt(buf, false, i) == Target(ReqPath)
  {
    hide IsUrlChar;
    if i > 1 {
      PathStates(buf, i - 1);
    }
    PathByte(buf[i - 1]);
  }

  lemma PathByte(ch: byte)
    requires IsUrlChar(ch)
    ensures ParseUrlChar(Target(ReqPath), ch) == Target(ReqPath)
    ensures ch == '/' ==> ParseUrlChar(RequestStart(ReqSpacesBeforeUrl), ch) == Target(ReqPath)
  {
  }

  /** A URL that is one path from its first byte to its last: behind 64 KiB 16 bits do not reach, and the length
      that is kept is too small. */
  lemma LongPath(buf: seq<byte>)
    requires buf != [] && buf[0] == '/' && forall j :: 0 <= j < |buf| ==> IsUrlChar(buf[j])
    ensures AllRecorded(buf, false, |buf|, map[Path := Range(0, |buf|)])
    ensures UrlFits(buf, false) <==> |buf| < UINT16_MODULUS
    ensures Wrap(Range(0, |buf|)).len == |buf| <==> |buf| < UINT16_MODULUS
  {
    hide StateAt, IsUrlChar;
    var full: Fields := map[Path := Range(0, |buf|)];
    forall f ensures RecordedAt(buf, false, |buf|, full, f) {
      forall i: nat | i < |buf| ensures Belongs(buf, false, |buf|, f)[i] <==> f == Path {
        PathStates(buf, i + 1);
      }
    }
    if |buf| < UINT16_MODULUS {
      ShortUrlFits(buf, false);
    } else {
      assert Path in full && full[Path].len >= UINT16_MODULUS;
      assert AllRecorded(buf, false, |buf|, full) && !Short(full);
    }
  }

  // ------------------------------------------------------------------ one result

  lemma RangeUnique(F: Fields, G: Fields, f: UrlField, b: seq<bool>)
    requires Recorded(F, f, b) && Recorded(G, f, b)
    ensures (f in F <==> f in G) && (f in F ==> F[f] == G[f])
  {
    if f in F {
      assert b[F[f].off] && b[F[f].off + F[f].len - 1];
    }
    if f in G {
      assert b[G[f].off] && b[G[f].off + G[f].len - 1];
    }
  }

  lemma SplitUnique(buf: seq<byte>, isConnect: bool, F: Fields, G: Fields)
    requires AllRecorded(buf, isConnect, |buf|, F) && AllRecorded(buf, isConnect, |buf|, G)
    ensures F == G
  {
    hide Recorded, Belongs;
    forall f ensures (f in F <==> f in G) && (f in F ==> F[f] == G[f]) {
      assert RecordedAt(buf, isConnect, |buf|, F, f) && RecordedAt(buf, isConnect, |buf|, G, f);
      RangeUnique(F, G, f, Belongs(buf, isConnect, |buf|, f));
    }
  }

  lemma HostUnique(text: seq<byte>, at: bool, F: Fields, G: Fields)
    requires HostRecorded(text, at, |text|, F) && HostRecorded(text, at, |text|, G)
    ensures F == G
  {
    hide Recorded, HostBelongs;
    forall f ensures (f in F <==> f in G) && (f in F ==> F[f] == G[f]) {
      assert HostRecordedAt(text, at, |text|, F, f) && HostRecordedAt(text, at, |text|, G, f);
      RangeUnique(F, G, f, HostBelongs(text, at, |text|, f));
    }
  }

  /** Within the host field of full, the host automaton assigns the ranges hf. */
  ghost predicate PartsRecorded(buf: seq<byte>, isConnect: bool, full: Fields, hf: Fields) {
    Host in full ==>
      && InBounds(buf, full[Host])
      && var text := Text(buf, full[Host]); HostRecorded(text, SeenAt(buf, isConnect, |buf|), |text|, hf)
  }

  /** The fields are those the two automata assign: there is only one such assignment. */
  ghost predicate Assigned(buf: seq<byte>, isConnect: bool, fields: Fields) {
    forall full: Fields, hf: Fields ::
      AllRecorded(buf, isConnect, |buf|, full) && PartsRecorded(buf, isConnect, full, hf) ==>
        fields == if Host in full then Refine(full, hf) else full
  }

  lemma HostAssigned(buf: seq<byte>, isConnect: bool, full: Fields, hf: Fields)
    requires AllRecorded(buf, isConnect, |buf|, full) && PartsRecorded(buf, isConnect, full, hf) && Host in full
    ensures Assigned(buf, isConnect, Refine(full, hf))
  {
    hide AllRecorded, HostRecorded, SeenAt, Refine;
    forall F: Fields, hG: Fields | AllRecorded(buf, isConnect, |buf|, F) && PartsRecorded(buf, isConnect, F, hG)
      ensures F == full && hG == hf
    {
      SplitUnique(buf, isConnect, full, F);
      HostUnique(Text(buf, full[Host]), SeenAt(buf, isConnect, |buf|), hf, hG);
    }
  }

  lemma NoHostAssigned(buf: seq<byte>, isConnect: bool, full: Fields)
    requires AllRecorded(buf, isConnect, |buf|, full) && Host !in full
    ensures Assigned(buf, isConnect, full)
  {
    hide AllRecorded, PartsRecorded, Refine;
    forall F: Fields, hG: Fields | AllRecorded(buf, isConnect, |buf|, F) && PartsRecorded(buf, isConnect, F, hG)
      ensures F == full
    {
      SplitUnique(buf, isConnect, full, F);
    }
  }

  // ------------------------------------------------------------------ http_parser_parse_url

  /** The whole contract for URLs that 16 bits reach. */
  ghost predicate ParsedRight(buf: seq<byte>, isConnect: bool, ok: bool, fields: Fields, port: nat) {
    && (ok <==> UrlAccepted(buf, isConnect))
    && (ok ==> Decomposes(buf, fields) && WellSpelled(buf, fields) && Assigned(buf, isConnect, fields))
    && (ok && Schema in fields ==> Host in fields)
    && (ok && isConnect ==> fields.Keys == {Host, Port})
    && (ok ==> if Port in fields
               then && InBounds(buf, fields[Port]) && Digits(Text(buf, fields[Port]))
                    && port == Decimal(Text(buf, fields[Port])) <= 0xffff
               else port == 0)
  }

  /** Of a longer URL the fields other than the host's are the ranges themselves, with 16 bits kept of each
      number. */
  predicate KeptShort(full: Fields, fields: Fields) {
    forall f :: f in {Schema, Path, Query, Fragment} ==>
                  (f in fields <==> f in full) && (f in full ==> fields[f] == Wrap(full[f]))
  }

  /** The fields that come from the host automaton. */
  lemma RefinedKept(full: Fields, hf: Fields)
    requires Host in full && hf.Keys <= {Userinfo, Host, Port}
    ensures KeptShort(full, RefineWrapped(Wrapped(full), hf)) && KeptShort(full, Wrapped(full))
    ensures RefineWrapped(Wrapped(full), hf).Keys == full.Keys + hf.Keys
  {
    var shifted := ShiftWrapped(hf, Wrapped(full)[Host].off);
    assert shifted.Keys == hf.Keys && Wrapped(full).Keys == full.Keys;
  }

  /** A URL without a host. */
  lemma NoHostRight(buf: seq<byte>, isConnect: bool, full: Fields, at: bool)
    requires buf != [] && AllRecorded(buf, isConnect, |buf|, full) && StateAt(buf, isConnect, |buf|) != Start(Dead)
    requires Short(full) && Host !in full && (at <==> SeenAt(buf, isConnect, |buf|))
    ensures ParsedRight(buf, isConnect, Schema !in full && !isConnect, Wrapped(full), 0)
  {
    hide StateAt, AllRecorded, Decomposes, FieldText, HostText, Digits, SeenAt, ConnectTarget, WellSpelled, Assigned;
    WrappedIs(full);
    NoHostAssigned(buf, isConnect, full);
    SplitTexts(buf, isConnect, full);
    SplitDecomposes(buf, isConnect, full);
    AllSpelled(buf, isConnect, full);
    NoHostNoConnect(buf, FieldText(buf, isConnect, Host), at);
  }

  /** A URL with a host that is well formed, or not. */
  lemma HostRight(buf: seq<byte>, isConnect: bool, full: Fields, at: bool, hf: Fields, ok: bool, port: nat)
    requires buf != [] && AllRecorded(buf, isConnect, |buf|, full) && StateAt(buf, isConnect, |buf|) != Start(Dead)
    requires Short(full) && Host in full && InBounds(buf, full[Host]) && (at <==> SeenAt(buf, isConnect, |buf|))
    requires var text := Text(buf, full[Host]);
             HostRecorded(text, at, |text|, hf) && HostMayEnd(HostAt(text, at, |text|))
    requires var fields := Refine(full, hf);
             if isConnect && fields.Keys != {Host, Port} then !ok
             else if Port in hf
             then Port in fields && InBounds(buf, fields[Port])
                  && (Digits(Text(buf, fields[Port])) ==>
                        (ok <==> Decimal(Text(buf, fields[Port])) <= 0xffff)
                        && (ok ==> port == Decimal(Text(buf, fields[Port]))))
             else ok && port == 0
    ensures ParsedRight(buf, isConnect, ok, Refine(full, hf), port)
  {
    hide StateAt, HostAt, AllRecorded, HostRecorded, Decomposes, FieldText, HostText, Digits, SeenAt, ConnectTarget,
         WellSpelled, Assigned;
    var text := Text(buf, full[Host]);
    assert PartsRecorded(buf, isConnect, full, hf);
    HostAssigned(buf, isConnect, full, hf);
    SplitTexts(buf, isConnect, full);
    HostTexts(text, at, hf);
    RefinedDecomposes(buf, isConnect, full, at, hf);
    RefinedSpelled(buf, isConnect, full, at, hf);
    if isConnect {
      ConnectKeys(buf, full, at, hf);
    }
    if Port in hf {
      RefinedPort(buf, full, hf);
    }
  }

  /** A URL whose host is not well formed, and one that is not allowed at all. */
  lemma HostWrong(buf: seq<byte>, isConnect: bool, full: Fields, at: bool)
    requires AllRecorded(buf, isConnect, |buf|, full) && Host in full && InBounds(buf, full[Host])
    requires at <==> SeenAt(buf, isConnect, |buf|)
    requires var text := Text(buf, full[Host]); !HostMayEnd(HostAt(text, at, |text|))
    ensures !UrlAccepted(buf, isConnect)
  {
    hide StateAt, HostAt, AllRecorded, FieldText, HostText, SeenAt, ConnectTarget;
    SplitTexts(buf, isConnect, full);
  }

  lemma NoHostWrong(buf: seq<byte>, isConnect: bool, full: Fields)
    requires AllRecorded(buf, isConnect, |buf|, full) && Schema in full && Host !in full
    ensures !UrlAccepted(buf, isConnect)
  {
    hide StateAt, AllRecorded, FieldText, HostText, SeenAt, ConnectTarget;
    SplitTexts(buf, isConnect, full);
  }

  lemma RefusedRight(buf: seq<byte>, isConnect: bool, fields: Fields, port: nat)
    requires !UrlAccepted(buf, isConnect)
    ensures ParsedRight(buf, isConnect, false, fields, port)
  {
  }

  lemma EmptyRefused(isConnect: bool, fields: Fields)
    ensures ParsedRight([], isConnect, false, fields, 0)
  {
  }

  lemma DeadRefused(buf: seq<byte>, isConnect: bool, fields: Fields)
    requires StateAt(buf, isConnect, |buf|) == Start(Dead)
    ensures ParsedRight(buf, isConnect, false, fields, 0)
  {
  }

  lemma WrappedKeys(full: Fields)
    ensures Wrapped(full).Keys == full.Keys && KeptShort(full, Wrapped(full))
  {
  }

  lemma HostPart(full: Fields, hf: Fields)
    requires Host in full && Port in hf
    ensures var fields := RefineWrapped(Wrapped(full), hf);
            Port in fields && fields[Port] == ShiftWrapped(hf, Wrapped(full)[Host].off)[Port]
  {
  }

  lemma RefusedHost(buf: seq<byte>, isConnect: bool, full: Fields, at: bool, fields: Fields)
    requires AllRecorded(buf, isConnect, |buf|, full) && Short(full) && Host in full && InBounds(buf, full[Host])
    requires at <==> SeenAt(buf, isConnect, |buf|)
    requires var text := Text(buf, full[Host]); !HostMayEnd(HostAt(text, at, |text|))
    ensures ParsedRight(buf, isConnect, false, fields, 0)
  {
    hide AllRecorded, UrlAccepted, HostAt, SeenAt;
    HostWrong(buf, isConnect, full, at);
    RefusedRight(buf, isConnect, fields, 0);
  }

  lemma ShortHost(buf: seq<byte>, isConnect: bool, full: Fields)
    requires AllRecorded(buf, isConnect, |buf|, full) && Short(full) && Host in full
    ensures InBounds(buf, full[Host]) && Wrapped(full) == full
  {
    hide AllRecorded;
    SplitKeys(buf, isConnect, full, Host);
    WrappedIs(full);
  }

  /** The part of http_parser_parse_url behind the host. */
  method FinishHost(buf: seq<byte>, isConnect: bool, ghost full: Fields, split: Fields, foundAt: bool)
    returns (ok: bool, fields: Fields, port: nat)
    requires buf != [] && StateAt(buf, isConnect, |buf|) != Start(Dead) && AllRecorded(buf, isConnect, |buf|, full)
    requires split == Wrapped(full) && Host in full && Host in split && (foundAt <==> SeenAt(buf, isConnect, |buf|))
    ensures Short(full) ==> ParsedRight(buf, isConnect, ok, fields, port)
    ensures ok ==> KeptShort(full, fields) && Host in fields && port <= 0xffff
    ensures ok && isConnect ==> fields.Keys == {Host, Port}
  {
    hide StateAt, HostAt, AllRecorded, HostRecorded, UrlAccepted, Digits, SeenAt, Short, ParsedRight, Wrapped,
         RefineWrapped, KeptShort, ShiftWrapped, Refine;
    WrapInside(buf, isConnect, full, Host);
    var text, hf := Text(buf, split[Host]), map[];
    ok, hf := ParseHost(text, foundAt);
    fields, port := split, 0;
    if Short(full) {
      ShortHost(buf, isConnect, full);
    }
    if !ok {
      if Short(full) {
        RefusedHost(buf, isConnect, full, foundAt, fields);
      }
      return;
    }
    HostTexts(text, foundAt, hf);
    HostPresent(text, foundAt, hf);
    RefinedKept(full, hf);
    fields := RefineWrapped(split, hf);
    if isConnect && fields.Keys != {Host, Port} {
      ok := false;
    } else if Port in hf {
      PartInside(buf, split[Host], foundAt, hf, Port);
      HostPart(full, hf);
      ok, port := ParsePort(Text(buf, fields[Port]));
    }
    if Short(full) {
      ShortRefines(buf, isConnect, full, foundAt, hf);
      if Port in hf {
        RefinedPort(buf, full, hf);
      }
      HostRight(buf, isConnect, full, foundAt, hf, ok, port);
    }
  }

  /** http_parser_parse_url. full holds the ranges of the target automaton before they are cut to 16 bits. */
  method ParseUrl(buf: seq<byte>, isConnect: bool) returns (ok: bool, fields: Fields, port: nat, ghost full: Fields)
    ensures UrlFits(buf, isConnect) ==> ParsedRight(buf, isConnect, ok, fields, port)
    ensures ok ==> buf != [] && StateAt(buf, isConnect, |buf|) != Start(Dead)
    ensures ok ==> AllRecorded(buf, isConnect, |buf|, full) && KeptShort(full, fields)
    ensures ok && Schema in fields ==> Host in fields
    ensures ok && isConnect ==> fields.Keys == {Host, Port}
    ensures ok ==> port <= 0xffff
  {
    hide StateAt, HostAt, AllRecorded, HostRecorded, UrlAccepted, Digits, SeenAt, Short, ParsedRight, Wrapped,
         RefineWrapped, KeptShort, ShiftWrapped;
    ok, fields, port, full := false, map[], 0, map[];
    if |buf| == 0 {
      EmptyRefused(isConnect, fields);
      return;
    }
    var split, foundAt;
    ok, split, foundAt, full := SplitUrl(buf, isConnect);
    fields := split;
    if !ok {
      DeadRefused(buf, isConnect, fields);
      return;
    }
    WrappedKeys(full);
    if Schema in split && Host !in split {
      NoHostWrong(buf, isConnect, full);
      RefusedRight(buf, isConnect, fields, 0);
      return false, fields, port, full;
    }
    if Host in split {
      ok, fields, port := FinishHost(buf, isConnect, full, split, foundAt);
    } else {
      if UrlFits(buf, isConnect) {
        NoHostRight(buf, isConnect, full, foundAt);
      }
      ok := !isConnect;
    }
  }
}
