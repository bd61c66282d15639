/** The values of the Connection and Transfer-Encoding headers: what the character machine makes of them,
    told in terms of words and comma-separated items. */
module HttpValues {
  import opened HttpTypes
  import opened HttpStep
  import opened HttpRun

  // ------------------------------------------------------------------ items

  /** What the machine skips after a comma. It compares in lower case, where a tab is no longer a tab, and
      NUL, which only a lenient parser lets through, is a blank. */
  predicate Blank(ch: byte) { ch == ' ' || ch == '\0' }

  /** The value cut at its commas. */
  function Split(v: seq<byte>): (items: seq<seq<byte>>)
    ensures items != []
  {
    if v == [] then [[]]
    else
      var n := |v| - 1;
      var s := Split(v[..n]);
      if v[n] == ',' then s + [[]] else s[..|s| - 1] + [s[|s| - 1] + [v[n]]]
  }

  /** Without leading blanks. */
  function Strip(t: seq<byte>): seq<byte> {
    if t != [] && Blank(t[0]) then Strip(t[1..]) else t
  }

  /** What the machine sees of an item: blanks are skipped behind a comma, not at the beginning of the value. */
  function Item(items: seq<seq<byte>>, j: nat): seq<byte>
    requires j < |items|
  {
    if j == 0 then items[0] else Strip(items[j])
  }

  function LowerText(t: seq<byte>): (r: seq<char>)
    ensures |r| == |t| && forall i :: 0 <= i < |r| ==> r[i] == Lower(t[i])
  {
    seq(|t|, i requires 0 <= i < |t| => Lower(t[i]))
  }

  /** The keyword in any letter case, and after it blanks only. */
  predicate Is(t: seq<byte>, keyword: string) {
    && |keyword| <= |t| && LowerText(t)[..|keyword|] == keyword
    && forall i :: |keyword| <= i < |t| ==> t[i] == ' '
  }

  predicate IsKeyword(t: seq<byte>) { Is(t, KEEP_ALIVE) || Is(t, CLOSE) || Is(t, UPGRADE) }

  /** A beginning of the keyword, but not all of it. */
  predicate Unfinished(t: seq<byte>, keyword: string) {
    0 < |t| < |keyword| && LowerText(t) == keyword[..|t|]
  }

  predicate IsUnfinished(t: seq<byte>) {
    Unfinished(t, KEEP_ALIVE) || Unfinished(t, CLOSE) || Unfinished(t, UPGRADE)
  }

  /** How the machine meets an item: open to a keyword, in the middle of an unknown word, or not at all. */
  datatype Mode = Ready | Lost | Over

  /** After the first item, one that is empty or does not begin with a token character ends the search. */
  predicate Ends(j: nat, t: seq<byte>) { j > 0 && (t == [] || !IsToken(Lower(t[0]))) }

  /** The comma after an item that breaks off inside a keyword is taken for a character of it. */
  predicate HidesComma(t: seq<byte>) { t == [] || IsUnfinished(t) }

  function ModeAt(items: seq<seq<byte>>, j: nat): Mode
    requires j < |items|
  {
    if j == 0 then Ready
    else match ModeAt(items, j - 1)
      case Over => Over
      case Lost => Ready
      case Ready =>
        var t := Item(items, j - 1);
        if Ends(j - 1, t) then Over else if HidesComma(t) then Lost else Ready
  }

  /** The flag an item sets, if the machine is open to it. */
  function Mark(flags: Flags, t: seq<byte>): Flags {
    if Is(t, KEEP_ALIVE) then flags.(keepAlive := true)
    else if Is(t, CLOSE) then flags.(close := true)
    else if Is(t, UPGRADE) then flags.(connectionUpgrade := true)
    else flags
  }

  /** The flags after the first n items. */
  function MarkAll(flags: Flags, items: seq<seq<byte>>, n: nat): Flags
    requires n <= |items|
  {
    if n == 0 then flags
    else
      var before := MarkAll(flags, items, n - 1);
      if ModeAt(items, n - 1) == Ready then Mark(before, Item(items, n - 1)) else before
  }

  // ------------------------------------------------------------------ the machine's state

  /** The state inside an item whose text so far is t. */
  function TextState(t: seq<byte>): HState {
    if Unfinished(t, KEEP_ALIVE) then MatchingConnectionKeepAlive
    else if Unfinished(t, CLOSE) then MatchingConnectionClose
    else if Unfinished(t, UPGRADE) then MatchingConnectionUpgrade
    else if Is(t, KEEP_ALIVE) then ConnectionKeepAlive
    else if Is(t, CLOSE) then ConnectionClose
    else if Is(t, UPGRADE) then ConnectionUpgrade
    else MatchingConnectionToken
  }

  function ItemState(m: Mode, j: nat, t: seq<byte>): HState {
    match m
    case Over => General
    case Lost => MatchingConnectionToken
    case Ready =>
      if j > 0 && t == [] then MatchingConnectionTokenStart
      else if Ends(j, t) then General
      else TextState(t)
  }

  /** The index counts where it matters. */
  predicate IndexFits(h: HState, t: seq<byte>, index: nat) {
    && (h.MatchingConnectionTokenStart? ==> index == 0)
    && (h.MatchingConnectionKeepAlive? || h.MatchingConnectionClose? || h.MatchingConnectionUpgrade? ==>
          t != [] && index == |t| - 1)
  }

  lemma Literals()
    ensures KEEP_ALIVE == ['k','e','e','p','-','a','l','i','v','e']
    ensures CLOSE == ['c','l','o','s','e']
    ensures UPGRADE == ['u','p','g','r','a','d','e']
  {
  }

  lemma LowerSnoc(t: seq<byte>, ch: byte)
    ensures LowerText(t + [ch]) == LowerText(t) + [Lower(ch)]
  {
  }

  /** One more character of an item, against one keyword. */
  lemma KeywordGrows(t: seq<byte>, ch: byte, keyword: string)
    requires keyword != []
    ensures Unfinished(t + [ch], keyword) <==>
              (t == [] || Unfinished(t, keyword)) && |t| + 1 < |keyword| && Lower(ch) == keyword[|t|]
    ensures Is(t + [ch], keyword) <==>
              (Is(t, keyword) && ch == ' ')
              || ((t == [] || Unfinished(t, keyword)) && |t| + 1 == |keyword| && Lower(ch) == keyword[|t|])
  {
    hide LowerText;
    var u := t + [ch];
    LowerSnoc(t, ch);
    assert LowerText(u)[..|t|] == LowerText(t);
    if |u| <= |keyword| {
      assert keyword[..|u|] == keyword[..|t|] + [keyword[|t|]];
      if |u| == |keyword| {
        assert keyword[..|u|] == keyword;
      }
    } else {
      assert LowerText(u)[..|keyword|] == LowerText(t)[..|keyword|];
      assert u[|t|] == ch && forall i :: 0 <= i < |t| ==> u[i] == t[i];
    }
  }

  /** No text belongs to two keywords. */
  lemma KeywordsApart(t: seq<byte>)
    requires t != []
    ensures Unfinished(t, KEEP_ALIVE) || Is(t, KEEP_ALIVE) ==> Lower(t[0]) == 'k'
    ensures Unfinished(t, CLOSE) || Is(t, CLOSE) ==> Lower(t[0]) == 'c'
    ensures Unfinished(t, UPGRADE) || Is(t, UPGRADE) ==> Lower(t[0]) == 'u'
    ensures forall k :: k in {KEEP_ALIVE, CLOSE, UPGRADE} ==> !(Unfinished(t, k) && Is(t, k))
  {
    Literals();
    assert LowerText(t)[0] == Lower(t[0]);
    if Is(t, KEEP_ALIVE) { assert LowerText(t)[..|KEEP_ALIVE|][0] == LowerText(t)[0]; }
    if Is(t, CLOSE) { assert LowerText(t)[..|CLOSE|][0] == LowerText(t)[0]; }
    if Is(t, UPGRADE) { assert LowerText(t)[..|UPGRADE|][0] == LowerText(t)[0]; }
  }

  // ------------------------------------------------------------------ one character

  /** The machine's registers after a value that began in q0. */
  predicate Follows(q0: Parser, q: Parser, v: seq<byte>) {
    var items := Split(v);
    var last := |items| - 1;
    var t := Item(items, last);
    && q.state == Header(HeaderValue) && q.errno == q0.errno
    && (last == 0 ==> t != [])
    && q.hstate == ItemState(ModeAt(items, last), last, t)
    && IndexFits(q.hstate, t, q.index)
    && q.flags == MarkAll(q0.flags, items, last)
  }

  lemma {:induction false} ModePrefix(a: seq<seq<byte>>, b: seq<seq<byte>>, j: nat)
    requires j < |a| && j < |b| && a[..j] == b[..j]
    ensures ModeAt(a, j) == ModeAt(b, j)
    decreases j
  {
    if j > 0 {
      assert a[..j - 1] == a[..j][..j - 1] && b[..j - 1] == b[..j][..j - 1];
      assert a[..j][j - 1] == a[j - 1] && b[..j][j - 1] == b[j - 1];
      ModePrefix(a, b, j - 1);
    }
  }

  lemma {:induction false} MarkPrefix(flags: Flags, a: seq<seq<byte>>, b: seq<seq<byte>>, n: nat)
    requires n <= |a| && n <= |b| && a[..n] == b[..n]
    ensures MarkAll(flags, a, n) == MarkAll(flags, b, n)
    decreases n
  {
    if n > 0 {
      assert a[..n - 1] == a[..n][..n - 1] && b[..n - 1] == b[..n][..n - 1];
      assert a[..n][n - 1] == a[n - 1] && b[..n][n - 1] == b[n - 1];
      ModePrefix(a, b, n - 1);
      MarkPrefix(flags, a, b, n - 1);
    }
  }

  lemma {:induction false} StripSnoc(t: seq<byte>, ch: byte)
    ensures Strip(t + [ch]) == if Strip(t) == [] && Blank(ch) then [] else Strip(t) + [ch]
  {
    var u := t + [ch];
    if t == [] {
      assert u[1..] == [];
    } else {
      assert u[1..] == t[1..] + [ch];
      StripSnoc(t[1..], ch);
    }
  }

  lemma SplitSnoc(v: seq<byte>, ch: byte)
    ensures var s := Split(v);
            Split(v + [ch]) == if ch == ',' then s + [[]] else s[..|s| - 1] + [s[|s| - 1] + [ch]]
  {
    assert (v + [ch])[..|v|] == v;
  }

  /** Inside a text: one more character that is no comma. */
  lemma TextGrows(q: Parser, t: seq<byte>, ch: byte)
    requires t != [] && ch != ',' && q.hstate == TextState(t) && IndexFits(q.hstate, t, q.index)
    ensures var r := OnValueChar(q, ch).q;
            && r.hstate == TextState(t + [ch]) && IndexFits(r.hstate, t + [ch], r.index)
            && r.flags == q.flags && r.errno == q.errno && r.state == Header(HeaderValue)
  {
    hide Unfinished, Is;
    Literals();
    KeywordsApart(t);
    KeywordsApart(t + [ch]);
    UnfinishedLength(t);
    assert (t + [ch])[0] == t[0];
    if Lower(t[0]) == 'k' {
      KeywordGrows(t, ch, KEEP_ALIVE);
    } else if Lower(t[0]) == 'c' {
      KeywordGrows(t, ch, CLOSE);
    } else if Lower(t[0]) == 'u' {
      KeywordGrows(t, ch, UPGRADE);
    }
  }

  lemma UnfinishedLength(t: seq<byte>)
    ensures Unfinished(t, KEEP_ALIVE) ==> 0 < |t| < |KEEP_ALIVE|
    ensures Unfinished(t, CLOSE) ==> 0 < |t| < |CLOSE|
    ensures Unfinished(t, UPGRADE) ==> 0 < |t| < |UPGRADE|
  {
  }

  /** A comma, seen from inside an item. */
  lemma TextEnds(q: Parser, j: nat, t: seq<byte>, m: Mode)
    requires q.hstate == ItemState(m, j, t) && (j == 0 ==> t != []) && IndexFits(q.hstate, t, q.index)
    ensures var r := OnValueChar(q, ',').q;
            var next := match m case Over => Over case Lost => Ready
                        case Ready => if Ends(j, t) then Over else if HidesComma(t) then Lost else Ready;
            && r.hstate == ItemState(next, j + 1, []) && IndexFits(r.hstate, [], r.index)
            && r.flags == (if m == Ready then Mark(q.flags, t) else q.flags)
            && r.errno == q.errno && r.state == Header(HeaderValue)
  {
    hide Unfinished, Is;
    Literals();
    UnfinishedLength(t);
    NotEmptyKeyword(t);
    if t != [] {
      KeywordsApart(t);
    }
  }

  lemma NotEmptyKeyword(t: seq<byte>)
    ensures t == [] ==> !IsKeyword(t) && !IsUnfinished(t)
    ensures IsToken('k') && IsToken('c') && IsToken('u')
  {
    Literals();
  }

  /** Any other character of an item. */
  lemma ItemGrows(q: Parser, j: nat, t: seq<byte>, m: Mode, ch: byte)
    requires q.hstate == ItemState(m, j, t) && (j == 0 ==> t != []) && IndexFits(q.hstate, t, q.index) && ch != ','
    ensures var r := OnValueChar(q, ch).q;
            var u := if t == [] && Blank(ch) then [] else t + [ch];
            && r.hstate == ItemState(m, j, u) && IndexFits(r.hstate, u, r.index)
            && r.flags == q.flags && r.errno == q.errno && r.state == Header(HeaderValue)
  {
    hide Unfinished, Is, TextState;
    assert t == [] ==> t + [ch] == [ch];
    assert t != [] ==> (t + [ch])[0] == t[0];
    if m == Ready && !Ends(j, t) {
      TextGrows(q, t, ch);
    } else if m == Ready && t == [] && !Blank(ch) {
      FirstOfItem(ch);
    }
  }

  lemma FirstOfItem(ch: byte)
    ensures IsToken(Lower(ch)) ==> TokenStart(Lower(ch)) == TextState([ch])
    ensures !IsToken(Lower(ch)) && !Blank(ch) ==> TokenStart(Lower(ch)) == General
    ensures TextState([ch]) == if Lower(ch) == 'k' then MatchingConnectionKeepAlive
                               else if Lower(ch) == 'c' then MatchingConnectionClose
                               else if Lower(ch) == 'u' then MatchingConnectionUpgrade
                               else MatchingConnectionToken
  {
    hide Unfinished, Is;
    Literals();
    NotEmptyKeyword([]);
    KeywordGrows([], ch, KEEP_ALIVE);
    KeywordGrows([], ch, CLOSE);
    KeywordGrows([], ch, UPGRADE);
    assert [] + [ch] == [ch];
    NothingIs();
  }

  lemma NothingIs()
    ensures forall k: string :: k != [] ==> !Is([], k)
  {
  }

  // ------------------------------------------------------------------ whole values

  /** The first character, after the blanks behind the colon. */
  lemma ValueBeginsItem(q: Parser, ch: byte)
    requires q.hstate == Connection
    ensures Follows(q, OnValueStart(q, ch).q, [ch])
  {
    hide Unfinished, Is, TextState;
    SplitSnoc([], ch);
    assert [] + [ch] == [ch];
    StripSnoc([], ch);
    FirstOfItem(ch);
    assert Split([]) == [[]] && Strip([]) == [];
    var items := Split([ch]);
    if ch == ',' {
      assert items == [[], []];
      NotEmptyKeyword([]);
      NothingIs();
      assert ModeAt(items, 0) == Ready && ModeAt(items, 1) == Lost;
      assert MarkAll(q.flags, items, 0) == q.flags && MarkAll(q.flags, items, 1) == q.flags;
    } else {
      assert items == [[ch]] && Item(items, 0) == [ch];
      assert ModeAt(items, 0) == Ready && MarkAll(q.flags, items, 0) == q.flags;
    }
  }

  lemma FollowsStep(q0: Parser, q: Parser, v: seq<byte>, ch: byte)
    requires Follows(q0, q, v)
    ensures Follows(q0, OnValueChar(q, ch).q, v + [ch])
  {
    hide OnValueChar, ItemState, Ends, HidesComma, Mark, IndexFits, Strip, Split;
    var items, more := Split(v), Split(v + [ch]);
    var last := |items| - 1;
    var t := Item(items, last);
    SplitSnoc(v, ch);
    assert more[..last] == items[..last];
    ModePrefix(items, more, last);
    MarkPrefix(q0.flags, items, more, last);
    if ch == ',' {
      assert more[last] == items[last] && more[last + 1] == [];
      TextEnds(q, last, t, ModeAt(items, last));
      StripNothing();
    } else {
      if last > 0 {
        StripSnoc(items[last], ch);
      }
      ItemGrows(q, last, t, ModeAt(items, last), ch);
    }
  }

  lemma StripNothing()
    ensures Strip([]) == []
  {
  }

  /** A value up to its first line end: it does not begin with what is skipped in front of it, and behind its first
      byte, which the parser does not look at, nothing is forbidden. */
  predicate PlainValue(cfg: Settings, v: seq<byte>) {
    v != [] && StartsValue(v[0]) && forall i :: 0 < i < |v| ==> PlainByte(cfg, v[i])
  }

  predicate StartsValue(ch: byte) { ch != ' ' && ch != TAB && ch != CR && ch != LF }

  predicate PlainByte(cfg: Settings, ch: byte) { ch != CR && ch != LF && (cfg.lenient || IsHeaderChar(ch)) }

  lemma FirstByte(cfg: Settings, c: Conf, ch: byte)
    requires c.q.errno == OK && c.q.state == Header(HeaderValueDiscardWs) && StartsValue(ch)
    requires c.q.nread < cfg.maxHeaderSize < UINT32_MODULUS
    ensures Advance(cfg, c, ch).q == OnValueStart(Count(c.q, 1), ch).q
  {
    hide OnValueStart, FeedAll, ByteEvents;
  }

  lemma NextByte(cfg: Settings, c: Conf, ch: byte)
    requires c.q.errno == OK && c.q.state == Header(HeaderValue) && c.q.nread < cfg.maxHeaderSize < UINT32_MODULUS
    requires PlainByte(cfg, ch)
    ensures Advance(cfg, c, ch).q == OnValueChar(Count(c.q, 1), ch).q
  {
    hide OnValueChar, FeedAll, ByteEvents;
  }

  lemma {:induction false} ConnectionRun(cfg: Settings, c: Conf, v: seq<byte>)
    requires c.q.errno == OK && c.q.state == Header(HeaderValueDiscardWs) && c.q.hstate == Connection
    requires PlainValue(cfg, v) && c.q.nread + |v| <= cfg.maxHeaderSize < UINT32_MODULUS
    ensures var q := Run(cfg, c, v).q; Follows(c.q, q, v) && q.nread == c.q.nread + |v|
    decreases |v|
  {
    hide Advance, PlainByte, OnValueStart, OnValueChar, Split, MarkAll, ItemState, IndexFits, ModeAt;
    var n := |v| - 1;
    RunPrefix(cfg, c, v, n);
    assert v[..n + 1] == v && v == v[..n] + [v[n]];
    if n == 0 {
      assert v[..0] == [] && v == [v[0]];
      FirstByte(cfg, c, v[0]);
      ValueBeginsItem(Count(c.q, 1), v[0]);
      StartKeepsCount(c.q, v[0]);
    } else {
      ConnectionRun(cfg, c, v[..n]);
      var mid := Run(cfg, c, v[..n]);
      NextByte(cfg, mid, v[n]);
      FollowsStep(c.q, Count(mid.q, 1), v[..n], v[n]);
      KeepsCountToo(mid.q, v[n]);
    }
  }

  lemma StartKeepsCount(q: Parser, ch: byte)
    requires q.nread + 1 < UINT32_MODULUS
    ensures OnValueStart(Count(q, 1), ch).q.nread == q.nread + 1
  {
  }

  lemma KeepsCountToo(q: Parser, ch: byte)
    requires q.nread + 1 < UINT32_MODULUS
    ensures OnValueChar(Count(q, 1), ch).q.nread == q.nread + 1
  {
    hide Match, TokenStart, PushDecimal, Lower;
  }

  lemma TextFinishes(q: Parser, j: nat, t: seq<byte>, m: Mode)
    requires q.hstate == ItemState(m, j, t)
    ensures FinishHeader(q) == if m == Ready then Mark(q.flags, t) else q.flags
  {
    hide Unfinished, Is;
    NotEmptyKeyword(t);
    if t != [] {
      KeywordsApart(t);
    }
  }

  /** What the end of the header adds is what its last item sets. */
  lemma LastItem(q0: Parser, q: Parser, v: seq<byte>)
    requires Follows(q0, q, v)
    ensures FinishHeader(q) == MarkAll(q0.flags, Split(v), |Split(v)|)
  {
    hide ItemState, Mark, FinishHeader, Split, Strip, IndexFits;
    var items := Split(v);
    var last := |items| - 1;
    TextFinishes(q, last, Item(items, last), ModeAt(items, last));
  }

  /** The flags a Connection header leaves behind are those of its items, taken one after the other: for
      every value, cut in any way. */
  lemma ConnectionFlags(cfg: Settings, c: Conf, v: seq<byte>)
    requires c.q.errno == OK && c.q.state == Header(HeaderValueDiscardWs) && c.q.hstate == Connection
    requires PlainValue(cfg, v) && c.q.nread + |v| <= cfg.maxHeaderSize < UINT32_MODULUS
    ensures var q := Run(cfg, c, v).q;
            && q.errno == OK && q.state == Header(HeaderValue)
            && FinishHeader(q) == MarkAll(c.q.flags, Split(v), |Split(v)|)
  {
    hide Run, FinishHeader, MarkAll, Split, PlainValue;
    ConnectionRun(cfg, c, v);
    LastItem(c.q, Run(cfg, c, v).q, v);
  }

  // ------------------------------------------------------------------ Transfer-Encoding

  function TransferState(t: seq<byte>): HState {
    if Unfinished(t, CHUNKED) then MatchingTransferEncodingChunked
    else if Is(t, CHUNKED) then TransferEncodingChunked
    else General
  }

  predicate TransferFollows(q0: Parser, q: Parser, t: seq<byte>) {
    && q.state == Header(HeaderValue) && q.errno == q0.errno && q.flags == q0.flags
    && q.hstate == TransferState(t) && (Unfinished(t, CHUNKED) ==> q.index == |t| - 1)
  }

  lemma TransferGrows(q0: Parser, q: Parser, t: seq<byte>, ch: byte)
    requires t != [] && TransferFollows(q0, q, t)
    ensures TransferFollows(q0, OnValueChar(q, ch).q, t + [ch])
  {
    hide Unfinished, Is;
    ChunkedFacts(t);
    KeywordGrows(t, ch, CHUNKED);
  }

  lemma ChunkedFacts(t: seq<byte>)
    ensures |CHUNKED| == 7 && CHUNKED[0] == 'c'
    ensures Unfinished(t, CHUNKED) ==> 0 < |t| < 7
    ensures Unfinished(t, CHUNKED) ==> !Is(t, CHUNKED)
    ensures t == [] ==> !Is(t, CHUNKED)
  {
  }

  lemma TransferBegins(q: Parser, ch: byte)
    requires q.hstate == TransferEncoding
    ensures TransferFollows(q, OnValueStart(q, ch).q, [ch])
  {
    hide Unfinished, Is;
    ChunkedFacts([]);
    KeywordGrows([], ch, CHUNKED);
    assert [] + [ch] == [ch];
    ChunkedFacts([ch]);
  }

  lemma {:induction false} TransferRun(cfg: Settings, c: Conf, v: seq<byte>)
    requires c.q.errno == OK && c.q.state == Header(HeaderValueDiscardWs) && c.q.hstate == TransferEncoding
    requires PlainValue(cfg, v) && c.q.nread + |v| <= cfg.maxHeaderSize < UINT32_MODULUS
    ensures var q := Run(cfg, c, v).q; TransferFollows(c.q, q, v) && q.nread == c.q.nread + |v|
    decreases |v|
  {
    hide Advance, PlainByte, OnValueStart, OnValueChar, Unfinished, TransferState;
    var n := |v| - 1;
    RunPrefix(cfg, c, v, n);
    assert v[..n + 1] == v && v == v[..n] + [v[n]];
    if n == 0 {
      assert v[..0] == [] && v == [v[0]];
      FirstByte(cfg, c, v[0]);
      TransferBegins(Count(c.q, 1), v[0]);
      StartKeepsCount(c.q, v[0]);
    } else {
      TransferRun(cfg, c, v[..n]);
      var mid := Run(cfg, c, v[..n]);
      NextByte(cfg, mid, v[n]);
      TransferGrows(c.q, Count(mid.q, 1), v[..n], v[n]);
      KeepsCountToo(mid.q, v[n]);
    }
  }

  /** A Transfer-Encoding header makes the message chunked exactly if its whole value is the word "chunked"
      in any letter case, with blanks behind it: for every value, cut in any way. */
  lemma TransferChunked(cfg: Settings, c: Conf, v: seq<byte>)
    requires c.q.errno == OK && c.q.state == Header(HeaderValueDiscardWs) && c.q.hstate == TransferEncoding
    requires PlainValue(cfg, v) && c.q.nread + |v| <= cfg.maxHeaderSize < UINT32_MODULUS
    ensures var q := Run(cfg, c, v).q;
            && q.errno == OK && q.state == Header(HeaderValue)
            && FinishHeader(q) == if Is(v, CHUNKED) then c.q.flags.(chunked := true) else c.q.flags
  {
    hide Run, PlainValue, Is, Unfinished;
    TransferRun(cfg, c, v);
    ChunkedFacts(v);
  }

  // ------------------------------------------------------------------ values continued on a further line

  /** What the blank at the beginning of a continuation line makes of the machine. */
  function FoldState(h: HState): HState {
    if h.MatchingConnectionTokenStart? then h else General
  }

  predicate WordState(h: HState) {
    h.General? || h.MatchingTransferEncodingChunked? || h.TransferEncodingChunked?
    || h.MatchingConnectionTokenStart? || h.MatchingConnectionToken?
    || h.MatchingConnectionKeepAlive? || h.MatchingConnectionClose? || h.MatchingConnectionUpgrade?
    || h.ConnectionKeepAlive? || h.ConnectionClose? || h.ConnectionUpgrade?
  }

  lemma LineBreak(cfg: Settings, c: Conf)
    requires c.q.errno == OK && c.q.state == Header(HeaderValue) && c.q.nread + 2 <= cfg.maxHeaderSize < UINT32_MODULUS
    ensures Advance(cfg, c, CR).q == c.q.(nread := c.q.nread + 1, state := Header(HeaderAlmostDone))
    ensures Advance(cfg, Advance(cfg, c, CR), LF).q == c.q.(nread := c.q.nread + 2, state := Header(HeaderValueLws))
  {
    hide FeedAll, ByteEvents, OnValueChar;
  }

  lemma FoldBlank(cfg: Settings, c: Conf, ch: byte)
    requires c.q.errno == OK && c.q.state == Header(HeaderValueLws) && WordState(c.q.hstate) && (ch == ' ' || ch == TAB)
    requires c.q.nread < cfg.maxHeaderSize < UINT32_MODULUS
    ensures Advance(cfg, c, ch).q == c.q.(nread := c.q.nread + 1, index := 0, state := Header(HeaderValue),
                                          hstate := FoldState(c.q.hstate))
  {
    hide FeedAll, ByteEvents, OnFirstDigit, Lower;
  }

  lemma FoldRun(cfg: Settings, c: Conf, ch: byte)
    requires c.q.errno == OK && c.q.state == Header(HeaderValue) && WordState(c.q.hstate) && (ch == ' ' || ch == TAB)
    requires c.q.nread + 3 <= cfg.maxHeaderSize < UINT32_MODULUS
    ensures Run(cfg, c, [CR, LF, ch]).q == c.q.(nread := c.q.nread + 3, index := 0, hstate := FoldState(c.q.hstate))
  {
    hide Advance, WordState, FoldState;
    LineBreak(cfg, c);
    FoldBlank(cfg, Advance(cfg, Advance(cfg, c, CR), LF), ch);
    RunOne(cfg, c, CR);
    RunConcat(cfg, c, [CR], [LF]);
    RunOne(cfg, Advance(cfg, c, CR), LF);
    assert [CR] + [LF] == [CR, LF] && [CR, LF] + [ch] == [CR, LF, ch];
    RunConcat(cfg, c, [CR, LF], [ch]);
    RunOne(cfg, Run(cfg, c, [CR, LF]), ch);
  }

  /** A machine that has given up sets nothing more. */
  lemma {:induction false} NothingMore(cfg: Settings, c: Conf, w: seq<byte>)
    requires c.q.errno == OK && c.q.state == Header(HeaderValue) && c.q.hstate == General
    requires forall i :: 0 <= i < |w| ==> PlainByte(cfg, w[i])
    requires c.q.nread + |w| <= cfg.maxHeaderSize < UINT32_MODULUS
    ensures Run(cfg, c, w).q == c.q.(nread := c.q.nread + |w|)
    decreases |w|
  {
    hide Advance, PlainByte;
    if w != [] {
      NothingMore(cfg, c, w[..|w| - 1]);
      NextByte(cfg, Run(cfg, c, w[..|w| - 1]), w[|w| - 1]);
    }
  }

  lemma FollowsState(q0: Parser, q: Parser, v: seq<byte>)
    requires Follows(q0, q, v)
    ensures q.state == Header(HeaderValue) && q.errno == q0.errno
  {
  }

  lemma LostStays(q0: Parser, q: Parser, v: seq<byte>, nread: nat)
    requires LastItemLost(q0, q, v)
    ensures LastItemLost(q0, q.(nread := nread), v)
  {
    hide MarkAll, Split;
  }

  lemma FollowsWord(q0: Parser, q: Parser, v: seq<byte>)
    requires Follows(q0, q, v)
    ensures WordState(q.hstate)
  {
    hide Split, Strip, ModeAt, MarkAll;
  }

  /** All items but the last have been counted. */
  predicate LastItemLost(q0: Parser, q: Parser, v: seq<byte>) {
    q.errno == q0.errno && FinishHeader(q) == MarkAll(q0.flags, Split(v), |Split(v)| - 1)
  }

  lemma FollowsFold(q0: Parser, q: Parser, v: seq<byte>, nread: nat)
    requires Follows(q0, q, v)
    ensures var r := q.(nread := nread, index := 0, hstate := FoldState(q.hstate));
            if q.hstate.MatchingConnectionTokenStart? then Follows(q0, r, v)
            else r.hstate == General && LastItemLost(q0, r, v)
  {
    hide Split, Strip, ModeAt, MarkAll;
  }

  /** The value ends behind a comma, blanks aside, and the machine is open to the next item. */
  predicate AtComma(v: seq<byte>) {
    var items := Split(v);
    var last := |items| - 1;
    last > 0 && ModeAt(items, last) == Ready && Item(items, last) == []
  }

  lemma FollowsComma(q0: Parser, q: Parser, v: seq<byte>)
    requires Follows(q0, q, v)
    ensures q.hstate.MatchingConnectionTokenStart? <==> AtComma(v)
  {
    hide Split, Strip, ModeAt, MarkAll, Unfinished, Is;
  }

  /** At the beginning of a continuation line. */
  predicate Continued(q0: Parser, q: Parser, v: seq<byte>) {
    && q.errno == q0.errno && q.state == Header(HeaderValue)
    && (if AtComma(v) then Follows(q0, q, v) else q.hstate == General && LastItemLost(q0, q, v))
  }

  lemma ContinuedRun(cfg: Settings, c: Conf, v: seq<byte>, ch: byte)
    requires c.q.errno == OK && c.q.state == Header(HeaderValueDiscardWs) && c.q.hstate == Connection
    requires PlainValue(cfg, v) && (ch == ' ' || ch == TAB) && c.q.nread + |v| + 3 <= cfg.maxHeaderSize < UINT32_MODULUS
    ensures var q := Run(cfg, c, v + [CR, LF, ch]).q;
            Continued(c.q, q, v) && q.nread == c.q.nread + |v| + 3
  {
    hide Run, PlainValue, Follows, LastItemLost, FoldState, WordState, AtComma;
    ConnectionRun(cfg, c, v);
    var mid := Run(cfg, c, v);
    FollowsWord(c.q, mid.q, v);
    FollowsState(c.q, mid.q, v);
    FollowsComma(c.q, mid.q, v);
    FollowsFold(c.q, mid.q, v, mid.q.nread + 3);
    FoldRun(cfg, mid, ch);
    RunConcat(cfg, c, v, [CR, LF, ch]);
  }

  /** The list goes on. */
  lemma {:induction false} FollowsRun(cfg: Settings, q0: Parser, c: Conf, v: seq<byte>, w: seq<byte>)
    requires q0.errno == OK && Follows(q0, c.q, v) && forall i :: 0 <= i < |w| ==> PlainByte(cfg, w[i])
    requires c.q.nread + |w| <= cfg.maxHeaderSize < UINT32_MODULUS
    ensures var q := Run(cfg, c, w).q; Follows(q0, q, v + w) && q.nread == c.q.nread + |w|
    decreases |w|
  {
    hide Advance, PlainByte, OnValueChar, Follows;
    if w == [] {
      assert v + w == v;
    } else {
      var n := |w| - 1;
      var mid := Run(cfg, c, w[..n]);
      FollowsRun(cfg, q0, c, v, w[..n]);
      FollowsState(q0, mid.q, v + w[..n]);
      NextByte(cfg, mid, w[n]);
      FollowsCount(q0, mid.q, v + w[..n]);
      FollowsStep(q0, Count(mid.q, 1), v + w[..n], w[n]);
      KeepsCountToo(mid.q, w[n]);
      assert v + w == (v + w[..n]) + [w[n]];
    }
  }

  lemma FollowsCount(q0: Parser, q: Parser, v: seq<byte>)
    requires Follows(q0, q, v)
    ensures Follows(q0, Count(q, 1), v)
  {
    hide Split, Strip, ModeAt, MarkAll;
  }

  /** The flags of a Connection value v that is continued on a further line with w: behind a comma the list goes
      on, as if there were no line end; anywhere else the item in front of the line end is not counted, and no
      later one is. */
  lemma ConnectionFolded(cfg: Settings, c: Conf, v: seq<byte>, ch: byte, w: seq<byte>)
    requires c.q.errno == OK && c.q.state == Header(HeaderValueDiscardWs) && c.q.hstate == Connection
    requires PlainValue(cfg, v) && (ch == ' ' || ch == TAB) && forall i :: 0 <= i < |w| ==> PlainByte(cfg, w[i])
    requires c.q.nread + |v| + 3 + |w| <= cfg.maxHeaderSize < UINT32_MODULUS
    ensures var r := Run(cfg, c, (v + [CR, LF, ch]) + w).q;
            && r.errno == OK && r.state == Header(HeaderValue)
            && FinishHeader(r) == if AtComma(v) then MarkAll(c.q.flags, Split(v + w), |Split(v + w)|)
                                  else MarkAll(c.q.flags, Split(v), |Split(v)| - 1)
  {
    hide Run, PlainValue, PlainByte, Follows, LastItemLost, AtComma, MarkAll, Split, FinishHeader;
    ContinuedRun(cfg, c, v, ch);
    var mid := Run(cfg, c, v + [CR, LF, ch]);
    RunConcat(cfg, c, v + [CR, LF, ch], w);
    if AtComma(v) {
      FollowsRun(cfg, c.q, mid, v, w);
      FollowsState(c.q, Run(cfg, mid, w).q, v + w);
      LastItem(c.q, Run(cfg, mid, w).q, v + w);
    } else {
      NothingMore(cfg, mid, w);
      LostStays(c.q, mid.q, v, mid.q.nread + |w|);
      LostFlags(c.q, mid.q.(nread := mid.q.nread + |w|), v);
    }
  }

  lemma LostFlags(q0: Parser, q: Parser, v: seq<byte>)
    requires LastItemLost(q0, q, v)
    ensures FinishHeader(q) == MarkAll(q0.flags, Split(v), |Split(v)| - 1)
  {
  }

  /** A Transfer-Encoding value that is continued on a further line never makes the message chunked. */
  lemma TransferFolded(cfg: Settings, c: Conf, v: seq<byte>, ch: byte, w: seq<byte>)
    requires c.q.errno == OK && c.q.state == Header(HeaderValueDiscardWs) && c.q.hstate == TransferEncoding
    requires PlainValue(cfg, v) && (ch == ' ' || ch == TAB) && forall i :: 0 <= i < |w| ==> PlainByte(cfg, w[i])
    requires c.q.nread + |v| + 3 + |w| <= cfg.maxHeaderSize < UINT32_MODULUS
    ensures var r := Run(cfg, c, (v + [CR, LF, ch]) + w).q; r.errno == OK && FinishHeader(r) == c.q.flags
  {
    hide Run, PlainValue, PlainByte, Unfinished, Is;
    TransferRun(cfg, c, v);
    var mid := Run(cfg, c, v);
    FoldRun(cfg, mid, ch);
    RunConcat(cfg, c, v, [CR, LF, ch]);
    RunConcat(cfg, c, v + [CR, LF, ch], w);
    NothingMore(cfg, Run(cfg, c, v + [CR, LF, ch]), w);
  }

  // ------------------------------------------------------------------ what the items mean

  ghost predicate Named(items: seq<seq<byte>>, n: nat, keyword: string)
    requires n <= |items|
  {
    exists j :: 0 <= j < n && Is(Item(items, j), keyword)
  }

  /** One of the first n items is the keyword, and the machine is open to it. */
  ghost predicate Met(items: seq<seq<byte>>, n: nat, keyword: string)
    requires n <= |items|
  {
    exists j :: 0 <= j < n && ModeAt(items, j) == Ready && Is(Item(items, j), keyword)
  }

  lemma MetSnoc(items: seq<seq<byte>>, n: nat, keyword: string)
    requires 0 < n <= |items|
    ensures Met(items, n, keyword) <==>
              Met(items, n - 1, keyword) || (ModeAt(items, n - 1) == Ready && Is(Item(items, n - 1), keyword))
  {
    hide Is, ModeAt, Strip;
  }

  lemma MarkExact(f: Flags, t: seq<byte>)
    ensures var g := Mark(f, t);
            && (g.keepAlive <==> f.keepAlive || Is(t, KEEP_ALIVE))
            && (g.close <==> f.close || Is(t, CLOSE))
            && (g.connectionUpgrade <==> f.connectionUpgrade || Is(t, UPGRADE))
            && g == f.(keepAlive := g.keepAlive, close := g.close, connectionUpgrade := g.connectionUpgrade)
  {
    hide Is;
    OneKeyword(t);
  }

  /** Exactly the flags whose keyword is an item that the machine is open to are set; no other is touched. */
  lemma {:induction false} FlagsExact(f: Flags, items: seq<seq<byte>>, n: nat)
    requires n <= |items|
    ensures var g := MarkAll(f, items, n);
            && (g.keepAlive <==> f.keepAlive || Met(items, n, KEEP_ALIVE))
            && (g.close <==> f.close || Met(items, n, CLOSE))
            && (g.connectionUpgrade <==> f.connectionUpgrade || Met(items, n, UPGRADE))
            && g == f.(keepAlive := g.keepAlive, close := g.close, connectionUpgrade := g.connectionUpgrade)
  {
    hide Is, ModeAt, Strip, Mark, Met;
    if n == 0 {
      NoneMet(items);
    } else {
      FlagsExact(f, items, n - 1);
      MarkExact(MarkAll(f, items, n - 1), Item(items, n - 1));
      MetSnoc(items, n, KEEP_ALIVE);
      MetSnoc(items, n, CLOSE);
      MetSnoc(items, n, UPGRADE);
    }
  }

  lemma NoneMet(items: seq<seq<byte>>)
    ensures !Met(items, 0, KEEP_ALIVE) && !Met(items, 0, CLOSE) && !Met(items, 0, UPGRADE)
  {
  }

  /** No flag is set that the value does not name. */
  lemma NothingInvented(f: Flags, items: seq<seq<byte>>, n: nat)
    requires n <= |items|
    ensures var g := MarkAll(f, items, n);
            && (g.keepAlive ==> f.keepAlive || Named(items, n, KEEP_ALIVE))
            && (g.close ==> f.close || Named(items, n, CLOSE))
            && (g.connectionUpgrade ==> f.connectionUpgrade || Named(items, n, UPGRADE))
            && g == f.(keepAlive := g.keepAlive, close := g.close, connectionUpgrade := g.connectionUpgrade)
  {
    hide Is, ModeAt, Strip, MarkAll;
    FlagsExact(f, items, n);
  }

  /** A named flag is missed exactly if it was not set before and the machine is lost, or has given up, at
      every item that names it. */
  lemma MissedExactly(f: Flags, items: seq<seq<byte>>, n: nat)
    requires n <= |items|
    ensures var g := MarkAll(f, items, n);
            && (Named(items, n, KEEP_ALIVE) && !g.keepAlive <==>
                  !f.keepAlive && Named(items, n, KEEP_ALIVE) && Unmet(items, n, KEEP_ALIVE))
            && (Named(items, n, CLOSE) && !g.close <==> !f.close && Named(items, n, CLOSE) && Unmet(items, n, CLOSE))
            && (Named(items, n, UPGRADE) && !g.connectionUpgrade <==>
                  !f.connectionUpgrade && Named(items, n, UPGRADE) && Unmet(items, n, UPGRADE))
  {
    hide Is, ModeAt, Strip, MarkAll;
    FlagsExact(f, items, n);
  }

  /** At every item that is the keyword the machine is lost or has given up. */
  ghost predicate Unmet(items: seq<seq<byte>>, n: nat, keyword: string)
    requires n <= |items|
  {
    forall j :: 0 <= j < n && Is(Item(items, j), keyword) ==> ModeAt(items, j) == Lost || ModeAt(items, j) == Over
  }

  /** What the two modes come from: the search is over behind an item that ends it, for good; the machine is
      lost behind an item that hides its comma, for one item. */
  lemma {:induction false} OverExactly(items: seq<seq<byte>>, j: nat)
    requires j < |items|
    ensures ModeAt(items, j) == Over <==>
              exists i :: 0 <= i < j && ModeAt(items, i) == Ready && Ends(i, Item(items, i))
    ensures ModeAt(items, j) == Lost <==>
              j > 0 && ModeAt(items, j - 1) == Ready && !Ends(j - 1, Item(items, j - 1))
              && HidesComma(Item(items, j - 1))
    decreases j
  {
    hide Ends, HidesComma, Strip;
    if j > 0 {
      OverExactly(items, j - 1);
    }
  }

  /** A list none of whose items, but for the last, ends the search or hides the comma behind it. */
  predicate Clean(items: seq<seq<byte>>, n: nat)
    requires n <= |items|
  {
    forall j :: 0 <= j < n ==> !Ends(j, Item(items, j)) && !HidesComma(Item(items, j))
  }

  lemma {:induction false} CleanIsReady(items: seq<seq<byte>>, j: nat)
    requires j < |items| && Clean(items, j)
    ensures ModeAt(items, j) == Ready
  {
    if j > 0 {
      CleanIsReady(items, j - 1);
    }
  }

  /** In such a list every named flag is set. */
  lemma NothingMissed(f: Flags, items: seq<seq<byte>>, n: nat)
    requires n <= |items| && (n > 0 ==> Clean(items, n - 1))
    ensures var g := MarkAll(f, items, n);
            && (g.keepAlive <==> f.keepAlive || Named(items, n, KEEP_ALIVE))
            && (g.close <==> f.close || Named(items, n, CLOSE))
            && (g.connectionUpgrade <==> f.connectionUpgrade || Named(items, n, UPGRADE))
  {
    hide Is, Ends, HidesComma, Strip, ModeAt, MarkAll;
    forall j | 0 <= j < n ensures ModeAt(items, j) == Ready {
      CleanIsReady(items, j);
    }
    FlagsExact(f, items, n);
  }

  /** For the parser: behind a Connection value of one line, each flag is set exactly if it was set before or
      its keyword is an item that the machine is open to. */
  lemma ConnectionExact(cfg: Settings, c: Conf, v: seq<byte>)
    requires c.q.errno == OK && c.q.state == Header(HeaderValueDiscardWs) && c.q.hstate == Connection
    requires PlainValue(cfg, v) && c.q.nread + |v| <= cfg.maxHeaderSize < UINT32_MODULUS
    ensures var q, items := Run(cfg, c, v).q, Split(v);
            && (FinishHeader(q).keepAlive <==> c.q.flags.keepAlive || Met(items, |items|, KEEP_ALIVE))
            && (FinishHeader(q).close <==> c.q.flags.close || Met(items, |items|, CLOSE))
            && (FinishHeader(q).connectionUpgrade <==>
                  c.q.flags.connectionUpgrade || Met(items, |items|, UPGRADE))
  {
    hide Run, FinishHeader, MarkAll, Split, PlainValue, Met;
    ConnectionFlags(cfg, c, v);
    FlagsExact(c.q.flags, Split(v), |Split(v)|);
  }

  lemma OneKeyword(t: seq<byte>)
    ensures !(Is(t, KEEP_ALIVE) && Is(t, CLOSE)) && !(Is(t, CLOSE) && Is(t, UPGRADE))
    ensures !(Is(t, KEEP_ALIVE) && Is(t, UPGRADE))
  {
    hide Is;
    NotEmptyKeyword(t);
    if t != [] {
      KeywordsApart(t);
    }
  }

  /** Outside such lists a keyword can be missed: the comma after "k" is lost, and "close" with it. */
  lemma CloseIsMissed(f: Flags)
    ensures Split("k,close") == ["k", "close"] && Is("close", CLOSE)
    ensures MarkAll(f, ["k", "close"], 2) == f
  {
    hide Is, Strip, Unfinished, Split, MarkAll;
    CloseIsClose();
    CommaIsLost(f);
    SplitIs();
  }

  lemma SplitIs()
    ensures Split("k,close") == ["k", "close"]
  {
    hide Split;
    var k: seq<byte>, close: seq<byte> := "k", "close";
    SplitPlain(k);
    SplitAtComma(k, close);
    assert k + [','] + close == "k,close";
    assert [k] + [close] == ["k", "close"];
  }

  lemma {:induction false} SplitPlain(a: seq<byte>)
    requires ',' !in a
    ensures Split(a) == [a]
  {
    if a != [] {
      var n := |a| - 1;
      SplitPlain(a[..n]);
      SplitSnoc(a[..n], a[n]);
      assert a == a[..n] + [a[n]];
    }
  }

  lemma {:induction false} SplitAtComma(a: seq<byte>, b: seq<byte>)
    requires ',' !in b
    ensures Split(a + [','] + b) == Split(a) + [b]
    decreases |b|
  {
    var n := |b| - 1;
    if b == [] {
      assert a + [','] + b == a + [','];
      SplitSnoc(a, ',');
    } else {
      assert a + [','] + b == (a + [','] + b[..n]) + [b[n]];
      SplitAtComma(a, b[..n]);
      SplitSnoc(a + [','] + b[..n], b[n]);
      var s := Split(a) + [b[..n]];
      assert s[..|s| - 1] == Split(a) && s[|s| - 1] + [b[n]] == b;
    }
  }

  lemma CloseIsClose()
    ensures Is("close", CLOSE)
  {
    Literals();
    assert LowerText("close") == CLOSE;
  }

  lemma CommaIsLost(f: Flags)
    ensures MarkAll(f, ["k", "close"], 2) == f
  {
    hide Is, Unfinished;
    var items: seq<seq<byte>> := ["k", "close"];
    assert items[0] == "k" && Item(items, 0) == "k";
    KIsUnfinished();
    KeywordsApart("k");
    assert ModeAt(items, 0) == Ready && ModeAt(items, 1) == Lost;
    assert Mark(f, "k") == f && MarkAll(f, items, 0) == f && MarkAll(f, items, 1) == f;
  }

  lemma KIsUnfinished()
    ensures Unfinished("k", KEEP_ALIVE)
  {
    Literals();
    assert LowerText("k") == KEEP_ALIVE[..1];
  }
}
