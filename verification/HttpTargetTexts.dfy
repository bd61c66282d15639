/** The targets that the streaming parser takes, which are more than the URLs that the splitter accepts: it does not
    look into the host. */
module HttpTargetTexts {
  import opened Common
  import opened HttpTypes
  import opened HttpUrlChar
  import opened HttpStep
  import opened HttpUrl
  import opened HttpTargets
  import opened HttpUrlText
  import opened HttpUrlOrigins
  import opened HttpRequestLines

  /** A path that begins a target; a scheme and a host; or, for CONNECT, a host alone. */
  datatype TargetParts = Relative(tail: UrlParts) | Absolute(scheme: seq<byte>, host: seq<byte>, tail: UrlParts)
                       | HostFirst(host: seq<byte>, tail: UrlParts)

  function TailText(x: UrlParts): seq<byte> { (x.path + Before(x.query, '?')) + Before(x.fragment, '#') }

  function TargetText(t: TargetParts): seq<byte> {
    match t
    case Relative(tail) => TailText(tail)
    case Absolute(scheme, host, tail) => ((scheme + [':', '/', '/']) + host) + TailText(tail)
    case HostFirst(host, tail) => host + TailText(tail)
  }

  /** Any bytes of a host, brackets and at signs, and a path, a query and a fragment; one of them at least. */
  predicate HostAndTail(host: seq<byte>, tail: UrlParts) {
    && (forall i :: 0 <= i < |host| ==> HostByte(host[i])) && AtsApart(host)
    && TailFits(Target(ReqServer), tail) && (host == [] ==> TailText(tail) != [])
  }

  predicate Fits(t: TargetParts, isConnect: bool) {
    match t
    case Relative(tail) => !isConnect && TailFits(RequestStart(ReqSpacesBeforeUrl), tail)
    case Absolute(scheme, host, tail) =>
      && !isConnect && scheme != [] && (forall i :: 0 <= i < |scheme| ==> IsAlpha(scheme[i]))
      && HostAndTail(host, tail)
    case HostFirst(host, tail) => isConnect && HostAndTail(host, tail)
  }

  // ------------------------------------------------------------------ every such target is taken

  lemma TailFirst(s: State, x: UrlParts)
    requires TailFits(s, x) && TailText(x) != []
    ensures Rank(ParseUrlChar(s, TailText(x)[0])) > 4
  {
    hide IsUrlChar, FragmentFits;
  }

  lemma TailEnds(b: seq<byte>, s: State, at: bool, fields: Fields, x: UrlParts)
    requires ReadSoFar(b, false, s, at, fields) && NoTail(fields) && TailFits(s, x)
    requires TailText(x) == [] ==> b != [] && UrlMayEnd(s)
    ensures Complete(b + TailText(x))
  {
    hide ReadSoFar, TailFits, StateAt, ParseUrlChar, UrlMayEnd, Rank, AllRecorded, SeenAt, TailRanges;
    var text, tail := b + TailText(x), TailText(x);
    StateOf(b, s, at, fields);
    if tail == [] {
      assert text == b;
    } else {
      TailRead(b, s, at, fields, x);
      Grouped(b, x.path, Before(x.query, '?'), Before(x.fragment, '#'));
      TailFirst(s, x);
      assert text[..|b|] == b;
      StateOfPrefix(text, false, |b|, |b|);
      OneFurther(text, |b|);
      RankMonotone(text, false, |b| + 1, |text|);
      AliveBefore(text, false, |text|);
      if !UrlMayEnd(StateAt(text, false, |text|)) {
        LowRank(StateAt(text, false, |text|));
      }
    }
  }

  lemma OneFurther(text: seq<byte>, i: nat)
    requires i < |text|
    ensures StateAt(text, false, i + 1) == ParseUrlChar(StateAt(text, false, i), text[i])
  {
    hide ParseUrlChar;
  }

  lemma HostByteNext(s: State, ch: byte)
    requires InServer(s) && HostByte(ch) && (s == Target(ReqServerWithAt) ==> ch != '@')
    ensures ParseUrlChar(s, ch) == Target(if ch == '@' then ReqServerWithAt else ReqServer)
    ensures FieldOf(ParseUrlChar(s, ch)) == Some(Host)
  {
  }

  lemma {:induction false} HostRead(b: seq<byte>, fields: Fields, w: seq<byte>) returns (s: State)
    requires ReadSoFar(b, false, Target(ReqServerStart), false, fields)
    requires (forall i :: 0 <= i < |w| ==> HostByte(w[i])) && AtsApart(w)
    ensures InServer(s) && ReadSoFar(b + w, false, s, '@' in w, RecordMany(fields, Host, |b|, |w|))
    ensures if w == [] then s == Target(ReqServerStart)
            else s == Target(if w[|w| - 1] == '@' then ReqServerWithAt else ReqServer)
    decreases |w|
  {
    hide ReadSoFar, ParseUrlChar, FieldOf, HostByte;
    if w == [] {
      s := Target(ReqServerStart);
      assert b + w == b;
    } else {
      var n := |w| - 1;
      var front, ch := w[..n], w[n];
      assert w == front + [ch];
      var t := HostRead(b, fields, front);
      HostByteNext(t, ch);
      OneMore(b + front, false, t, '@' in front, RecordMany(fields, Host, |b|, n), ch);
      RecordNext(fields, Host, |b|, n);
      Associates(b, front, [ch]);
      s := ParseUrlChar(t, ch);
    }
  }

  lemma SameServer(s: State, t: State, x: UrlParts)
    requires InServer(s) && InServer(t) && TailFits(s, x)
    ensures TailFits(t, x)
  {
    hide FragmentFits, IsUrlChar;
  }

  lemma NamedMayEnd(s: State)
    requires s == Target(ReqServer) || s == Target(ReqServerWithAt)
    ensures UrlMayEnd(s)
  {
  }

  lemma AbsoluteTaken(scheme: seq<byte>, host: seq<byte>, tail: UrlParts)
    requires Fits(Absolute(scheme, host, tail), false)
    ensures Complete(TargetText(Absolute(scheme, host, tail)))
  {
    hide ReadSoFar, TailFits, HostByte, AtsApart, Complete, IsAlpha, TailText, UrlMayEnd;
    var b, fields: Fields := scheme + [':', '/', '/'], map[Schema := Range(0, |scheme|)];
    SchemeRead(scheme);
    SlashesRead(scheme, fields);
    var s := HostRead(b, fields, host);
    SameServer(Target(ReqServer), s, tail);
    if host != [] { NamedMayEnd(s); }
    TailEnds(b + host, s, '@' in host, RecordMany(fields, Host, |b|, |host|), tail);
  }

  lemma RelativeTaken(tail: UrlParts)
    requires Fits(Relative(tail), false)
    ensures Complete(TargetText(Relative(tail)))
  {
    hide ReadSoFar, Complete, FragmentFits, IsUrlChar, UrlMayEnd;
    NothingRead(false);
    TailEnds([], RequestStart(ReqSpacesBeforeUrl), false, map[], tail);
    assert [] + TailText(tail) == TailText(tail);
  }

  // ------------------------------------------------------------------ no other target is taken

  lemma TargetOrigin(u: seq<byte>) returns (t: TargetParts)
    requires Complete(u)
    ensures Fits(t, false) && TargetText(t) == u
  {
    hide ReadSoFar, IsAlpha, StateAt, TailFits, ParseUrlChar, UrlMayEnd;
    CompleteAlive(u);
    NothingRead(false);
    StateOf([], RequestStart(ReqSpacesBeforeUrl), false, map[]);
    assert [] + u == u;
    NextAlive(u, [], u, RequestStart(ReqSpacesBeforeUrl));
    OnlyQueryOrHash(RequestStart(ReqSpacesBeforeUrl), u[0]);
    if IsAlpha(u[0]) {
      t := AbsoluteOrigin(u);
    } else {
      var path, query, fragment := TailOrigin([], RequestStart(ReqSpacesBeforeUrl), false, map[], u);
      t := Relative(UrlParts(None, path, query, fragment));
    }
  }

  lemma AbsoluteOrigin(u: seq<byte>) returns (t: TargetParts)
    requires Complete(u) && IsAlpha(u[0])
    ensures Fits(t, false) && TargetText(t) == u
  {
    hide ReadSoFar, IsAlpha, Front, HostByte, StateAt, TailFits, UrlMayEnd, AtsApart;
    CompleteAlive(u);
    var scheme, r := SchemeOrigin(u);
    var b, n := scheme + [':', '/', '/'], Front(r, HostByte);
    var fields: Fields := map[Schema := Range(0, |scheme|)];
    var w, rest := r[..n], r[n..];
    SchemeRead(scheme);
    SlashesRead(scheme, fields);
    CutAt(b, r, n);
    var s := ServerRead(b, fields, w, rest);
    StateOf(b + w, s, '@' in w, RecordMany(fields, Host, |b|, |w|));
    if rest != [] {
      NextAlive(u, b + w, rest, s);
      OnlyQueryOrHash(s, rest[0]);
    } else {
      assert u == b + w;
      StartIsNotEnd();
    }
    var path, query, fragment := TailOrigin(b + w, s, '@' in w, RecordMany(fields, Host, |b|, |w|), rest);
    var tail := UrlParts(None, path, query, fragment);
    SameServer(s, Target(ReqServer), tail);
    assert TailText(tail) == rest;
    t := Absolute(scheme, w, tail);
  }

  lemma StartIsNotEnd()
    ensures !UrlMayEnd(Target(ReqServerStart))
  {
  }

  // ------------------------------------------------------------------ CONNECT

  /** A host alone is read as it is behind any scheme. */
  lemma {:induction false} BehindScheme(u: seq<byte>, i: nat)
    requires i <= |u|
    ensures StateAt(['a', ':', '/', '/'] + u, false, 4 + i) == StateAt(u, true, i)
  {
    hide ParseUrlChar, ReadSoFar;
    var b := ['a', ':', '/', '/'];
    if i == 0 {
      var fields: Fields := map[Schema := Range(0, 1)];
      SchemeRead(['a']);
      SlashesRead(['a'], fields);
      assert ['a'] + [':', '/', '/'] == b;
      StateOf(b, Target(ReqServerStart), false, fields);
      assert (b + u)[..4] == b;
      StateOfPrefix(b + u, false, 4, 4);
    } else {
      BehindScheme(u, i - 1);
    }
  }

  lemma SchemeIsA(t: TargetParts, u: seq<byte>) returns (host: seq<byte>, tail: UrlParts)
    requires Fits(t, false) && TargetText(t) == ['a', ':', '/', '/'] + u
    ensures HostAndTail(host, tail) && u == host + TailText(tail)
  {
    hide TailFits, HostAndTail;
    var text := TargetText(t);
    assert text[0] == 'a';
    match t
    case Relative(x) =>
      FirstOfTail(x);
      assert false;
      host, tail := [], x;
    case Absolute(scheme, h, x) =>
      host, tail := h, x;
      Associates(scheme + [':', '/', '/'], host, TailText(tail));
      OneByteScheme(scheme, host + TailText(tail), u);
  }

  lemma OneByteScheme(scheme: seq<byte>, rest: seq<byte>, u: seq<byte>)
    requires (scheme + [':', '/', '/']) + rest == ['a', ':', '/', '/'] + u && scheme != []
    requires forall i :: 0 <= i < |scheme| ==> IsAlpha(scheme[i])
    ensures rest == u
  {
    var text := (scheme + [':', '/', '/']) + rest;
    var second := text[1];
    assert second == ':' && !IsAlpha(second);
    assert |scheme| == 1;
    assert text[4..] == rest && text[4..] == u;
  }

  lemma FirstOfTail(x: UrlParts)
    requires TailFits(RequestStart(ReqSpacesBeforeUrl), x)
    ensures TailText(x) != [] && (TailText(x)[0] == '/' || TailText(x)[0] == '*')
  {
    hide IsUrlChar, FragmentFits;
  }

  lemma ConnectTaken(host: seq<byte>, tail: UrlParts)
    requires HostAndTail(host, tail)
    ensures TargetFits(host + TailText(tail), CONNECT)
  {
    hide TailFits, HostAndTail, StateAt, UrlMayEnd, TailText;
    var u := host + TailText(tail);
    var t := Absolute(['a'], host, tail);
    AbsoluteTaken(['a'], host, tail);
    assert TargetText(t) == ['a', ':', '/', '/'] + u by {
      assert ['a'] + [':', '/', '/'] == ['a', ':', '/', '/'];
    }
    BehindScheme(u, |u|);
    NotNothing(host, tail);
  }

  lemma NotNothing(host: seq<byte>, tail: UrlParts)
    requires HostAndTail(host, tail)
    ensures host + TailText(tail) != []
  {
    hide TailFits, HostByte;
  }

  lemma ConnectOrigin(u: seq<byte>) returns (t: TargetParts)
    requires TargetFits(u, CONNECT)
    ensures Fits(t, true) && TargetText(t) == u
  {
    hide StateAt, UrlMayEnd, HostAndTail;
    BehindScheme(u, |u|);
    var whole := TargetOrigin(['a', ':', '/', '/'] + u);
    var host, tail := SchemeIsA(whole, u);
    t := HostFirst(host, tail);
  }

  // ------------------------------------------------------------------ exactly these

  lemma Taken(t: TargetParts, m: Method)
    requires Fits(t, m == CONNECT)
    ensures TargetFits(TargetText(t), m)
  {
    hide StateAt, UrlMayEnd, HostAndTail, TailFits;
    match t
    case Relative(tail) => RelativeTaken(tail);
    case Absolute(scheme, host, tail) => AbsoluteTaken(scheme, host, tail);
    case HostFirst(host, tail) => ConnectTaken(host, tail);
  }

  /** What a request line may have for a target, for every method. */
  lemma TargetExactly(u: seq<byte>, m: Method)
    ensures TargetFits(u, m) <==> exists t :: Fits(t, m == CONNECT) && TargetText(t) == u
  {
    hide StateAt, UrlMayEnd, Fits, TargetText;
    if TargetFits(u, m) {
      if m == CONNECT {
        var t := ConnectOrigin(u);
      } else {
        var t := TargetOrigin(u);
      }
    }
    forall t | Fits(t, m == CONNECT) && TargetText(t) == u ensures TargetFits(u, m) {
      Taken(t, m);
    }
  }
}
