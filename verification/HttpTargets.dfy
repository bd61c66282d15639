/** The URL splitter and the streaming parser share their automaton: a URL that is accepted whole is also
    delivered whole as a request target. */
module HttpTargets {
  import opened HttpTypes
  import opened HttpUrlChar
  import opened HttpStep
  import opened HttpRun
  import opened HttpUrl

  lemma UrlByte(cfg: Settings, c: Conf, ch: byte, isConnect: bool, first: bool)
    requires c.q.errno == OK && c.q.nread < cfg.maxHeaderSize < UINT32_MODULUS
    requires isConnect <==> c.q.verb == CONNECT
    requires if first then c.q.state == RequestStart(ReqSpacesBeforeUrl) else c.q.state.Target?
    requires ParseUrlChar(if first then FirstState(isConnect) else c.q.state, ch).Target?
    ensures Advance(cfg, c, ch)
         == Conf(c.q.(state := ParseUrlChar(if first then FirstState(isConnect) else c.q.state, ch),
                      nread := c.q.nread + 1),
                 Feed(c.trace, Data(Url, [ch])))
  {
    hide Feed, FeedAll;
    UrlByteStep(cfg, c.q, ch, isConnect, first);
    var out := Step(cfg, c.q, ch);
    var e := Data(Url, [ch]);
    assert ByteEvents(c.q.state, out, ch) == [e];
    assert [] + [e] == [e];
    FeedAllSnoc(c.trace, [], e);
    FeedAllNone(c.trace);
  }

  lemma UrlByteStep(cfg: Settings, q: Parser, ch: byte, isConnect: bool, first: bool)
    requires q.errno == OK && q.nread < cfg.maxHeaderSize < UINT32_MODULUS
    requires isConnect <==> q.verb == CONNECT
    requires if first then q.state == RequestStart(ReqSpacesBeforeUrl) else q.state.Target?
    requires ParseUrlChar(if first then FirstState(isConnect) else q.state, ch).Target?
    ensures Step(cfg, q, ch)
         == Outcome(q.(state := ParseUrlChar(if first then FirstState(isConnect) else q.state, ch),
                       nread := q.nread + 1),
                    if first then Open(Url) else NOTHING, false)
  {
    NotBlank(if first then FirstState(isConnect) else q.state, ch);
    hide ParseUrlChar;
  }

  lemma NotBlank(s: State, ch: byte)
    requires ParseUrlChar(s, ch).Target?
    ensures ch != ' ' && ch != CR && ch != LF
  {
  }

  lemma FeedUrl(t: seq<Event>, buf: seq<byte>, i: nat)
    requires i < |buf|
    ensures Feed(if i == 0 then t else Feed(t, Data(Url, buf[..i])), Data(Url, [buf[i]]))
         == Feed(t, Data(Url, buf[..i + 1]))
  {
    assert buf[..i + 1] == buf[..i] + [buf[i]];
    if i > 0 {
      FeedSplit(t, Url, buf[..i], [buf[i]]);
    } else {
      assert buf[..1] == [buf[0]];
    }
  }

  /** The streaming parser walks the same states and delivers the bytes as one item. */
  lemma {:induction false} TargetRun(cfg: Settings, c: Conf, buf: seq<byte>, isConnect: bool, i: nat)
    requires c.q.errno == OK && c.q.state == RequestStart(ReqSpacesBeforeUrl) && (isConnect <==> c.q.verb == CONNECT)
    requires 0 < i <= |buf| && StateAt(buf, isConnect, |buf|) != Start(Dead)
    requires c.q.nread + |buf| <= cfg.maxHeaderSize < UINT32_MODULUS
    ensures Run(cfg, c, buf[..i])
         == Conf(c.q.(state := StateAt(buf, isConnect, i), nread := c.q.nread + i), Feed(c.trace, Data(Url, buf[..i])))
    decreases i
  {
    hide Advance, ParseUrlChar, Feed, Rank;
    AliveBefore(buf, isConnect, i);
    RunPrefix(cfg, c, buf, i - 1);
    FeedUrl(c.trace, buf, i - 1);
    if i == 1 {
      assert buf[..0] == [];
      UrlByte(cfg, c, buf[0], isConnect, true);
    } else {
      AliveBefore(buf, isConnect, i - 1);
      TargetRun(cfg, c, buf, isConnect, i - 1);
      UrlByte(cfg, Run(cfg, c, buf[..i - 1]), buf[i - 1], isConnect, false);
    }
  }

  lemma {:induction false} PickedSome(text: seq<byte>, b: seq<bool>, i: nat)
    requires |b| <= |text| && i < |b| && b[i]
    ensures Picked(text, b) != []
    decreases |b|
  {
    if i < |b| - 1 {
      PickedSome(text, b[..|b| - 1], i);
    }
  }

  lemma {:induction false} PickedNone(text: seq<byte>, b: seq<bool>)
    requires |b| <= |text| && forall i :: 0 <= i < |b| ==> !b[i]
    ensures Picked(text, b) == []
    decreases |b|
  {
    if b != [] {
      PickedNone(text, b[..|b| - 1]);
    }
  }

  /** An accepted URL ends in a state in which the request line may go on. */
  lemma AcceptedMayEnd(buf: seq<byte>, isConnect: bool)
    requires UrlAccepted(buf, isConnect)
    ensures UrlMayEnd(StateAt(buf, isConnect, |buf|))
  {
    hide ParseUrlChar, Rank, UrlMayEnd, Belongs;
    AliveBefore(buf, isConnect, |buf|);
    if isConnect {
      RankMonotone(buf, isConnect, 0, |buf| - 1);
      ServerStartOnce(StateAt(buf, isConnect, |buf| - 1), buf[|buf| - 1], StateAt(buf, isConnect, 0));
    } else if !UrlMayEnd(StateAt(buf, isConnect, |buf|)) {
      SchemaWithoutHost(buf);
    }
  }

  /** A URL that stops before its host has a schema and no host. */
  lemma SchemaWithoutHost(buf: seq<byte>)
    requires buf != [] && StateAt(buf, false, |buf|).Target? && !UrlMayEnd(StateAt(buf, false, |buf|))
    ensures Picked(buf, Belongs(buf, false, |buf|, Schema)) != []
    ensures Picked(buf, Belongs(buf, false, |buf|, Host)) == []
  {
    hide ParseUrlChar, Rank, UrlMayEnd, Picked;
    AliveBefore(buf, false, 1);
    RankMonotone(buf, false, 1, |buf|);
    LowRank(StateAt(buf, false, |buf|));
    FirstIsSchema(buf[0]);
    PickedSome(buf, Belongs(buf, false, |buf|, Schema), 0);
    forall i | 0 <= i < |buf| ensures !Belongs(buf, false, |buf|, Host)[i] {
      RankMonotone(buf, false, i + 1, |buf|);
      FieldHasRank(StateAt(buf, false, i + 1), Host);
    }
    PickedNone(buf, Belongs(buf, false, |buf|, Host));
  }

  lemma LowRank(s: State)
    requires s.Target? && !UrlMayEnd(s)
    ensures Rank(s) <= 4
  {
  }

  lemma FirstIsSchema(ch: byte)
    ensures var s := ParseUrlChar(FirstState(false), ch); s.Target? && Rank(s) <= 4 ==> s == Target(ReqSchema)
  {
  }

  lemma ServerStartOnce(s: State, ch: byte, first: State)
    requires first == Target(ReqServerStart) && Rank(s) >= Rank(first)
    ensures var t := ParseUrlChar(s, ch); t.Target? ==> UrlMayEnd(t)
  {
  }

  /** A target in whose last state the request line may go on is delivered whole. */
  lemma TargetEnds(cfg: Settings, c: Conf, buf: seq<byte>, isConnect: bool)
    requires buf != [] && UrlMayEnd(StateAt(buf, isConnect, |buf|))
    requires c.q.errno == OK && c.q.state == RequestStart(ReqSpacesBeforeUrl) && (isConnect <==> c.q.verb == CONNECT)
    requires c.q.nread + |buf| <= cfg.maxHeaderSize < UINT32_MODULUS
    ensures Run(cfg, c, buf) == Conf(c.q.(state := StateAt(buf, isConnect, |buf|), nread := c.q.nread + |buf|),
                                     Feed(c.trace, Data(Url, buf)))
  {
    hide Run, StateAt, Feed;
    TargetRun(cfg, c, buf, isConnect, |buf|);
    assert buf[..|buf|] == buf;
  }

  /** A URL accepted by the splitter is accepted as the target of a request, with the same meaning of
      CONNECT, and is delivered whole. */
  lemma TargetAccepted(cfg: Settings, c: Conf, buf: seq<byte>, isConnect: bool)
    requires UrlAccepted(buf, isConnect)
    requires c.q.errno == OK && c.q.state == RequestStart(ReqSpacesBeforeUrl) && (isConnect <==> c.q.verb == CONNECT)
    requires c.q.nread + |buf| + 1 <= cfg.maxHeaderSize < UINT32_MODULUS
    ensures var r := Run(cfg, c, buf + [' ']);
            && r.q == c.q.(state := Version(ReqHttpStart), nread := c.q.nread + |buf| + 1)
            && r.trace == Feed(c.trace, Data(Url, buf))
  {
    hide Advance, StateAt, Feed, UrlMayEnd;
    AcceptedMayEnd(buf, isConnect);
    TargetEnds(cfg, c, buf, isConnect);
    RunOne(cfg, Run(cfg, c, buf), ' ');
    RunConcat(cfg, c, buf, [' ']);
    MayEndTarget(StateAt(buf, isConnect, |buf|));
    BlankEndsUrl(cfg, Run(cfg, c, buf));
    FeedSplit(c.trace, Url, buf, []);
    assert buf + [] == buf;
  }

  lemma MayEndTarget(s: State)
    requires UrlMayEnd(s)
    ensures s.Target?
  {
  }

  lemma BlankEndsUrl(cfg: Settings, c: Conf)
    requires c.q.errno == OK && c.q.state.Target? && UrlMayEnd(c.q.state)
    requires c.q.nread < cfg.maxHeaderSize < UINT32_MODULUS
    ensures Advance(cfg, c, ' ') == Conf(c.q.(state := Version(ReqHttpStart), nread := c.q.nread + 1),
                                         Feed(c.trace, Data(Url, [])))
  {
    hide Feed, FeedAll, ParseUrlChar;
    var out := Step(cfg, c.q, ' ');
    var e := Data(Url, []);
    assert ByteEvents(c.q.state, out, ' ') == [e];
    assert [] + [e] == [e];
    FeedAllSnoc(c.trace, [], e);
    FeedAllNone(c.trace);
  }
}
