/** The request method: the machine that walks from one candidate to the next accepts exactly the method
    names. */
module HttpMethods {
  import opened Common
  import opened HttpTypes
  import opened HttpStep
  import opened HttpRun

  /** The machine on one character: the candidate and the position in its name. */
  function VerbStep(m: Method, i: nat, ch: byte): Option<Method> {
    if ch == '\0' then None
    else if ch == At(MethodString(m), i) then Some(m)
    else if 'A' <= ch <= 'Z' || ch == '-' then NextMethod(m, i, ch)
    else None
  }

  /** The machine on a text without blanks. */
  function Verb(s: seq<byte>): Option<Method>
    requires s != []
  {
    var n := |s| - 1;
    if n == 0 then FirstMethod(s[0])
    else match Verb(s[..n])
      case None => None
      case Some(m) => VerbStep(m, n, s[n])
  }

  // ------------------------------------------------------------------ nothing else is accepted

  /** A change of candidate keeps what has been read, and the new one goes on with the character. */
  lemma BranchFits(m: Method, i: nat, ch: byte)
    requires NextMethod(m, i, ch).Some?
    ensures var n := NextMethod(m, i, ch).value;
            && i < |MethodString(m)| && i < |MethodString(n)| && MethodString(n)[i] == ch
            && forall j :: 0 <= j < i ==> MethodString(n)[j] == MethodString(m)[j]
  {
    hide NextMethod, MethodString;
    NextIsChild(m, i, ch);
    ParentFits(NextMethod(m, i, ch).value);
  }

  lemma FirstFits(ch: byte)
    ensures var m := FirstMethod(ch); m.Some? ==> |MethodString(m.value)| > 1 && MethodString(m.value)[0] == ch
  {
  }

  /** What has been read is a beginning of the candidate's name. */
  predicate Begins(s: seq<byte>, name: string) {
    |s| <= |name| && forall j :: 0 <= j < |s| ==> s[j] == name[j]
  }

  lemma {:induction false} VerbBegins(s: seq<byte>)
    requires s != []
    ensures Verb(s).Some? ==> Begins(s, MethodString(Verb(s).value))
    decreases |s|
  {
    hide MethodString, NextMethod, FirstMethod;
    var n := |s| - 1;
    if n == 0 {
      FirstFits(s[0]);
    } else if Verb(s).Some? {
      VerbBegins(s[..n]);
      var m := Verb(s[..n]).value;
      if s[n] != At(MethodString(m), n) {
        BranchFits(m, n, s[n]);
      }
    }
  }

  // ------------------------------------------------------------------ every name is accepted

  /** Where the machine comes to a method: from another candidate, at a position, with a character. */
  datatype Branch = Branch(from: Method, at: nat, ch: byte)

  function Parent(m: Method): Option<Branch> {
    match m
    case PUT => Some(Branch(POST, 1, 'U'))
    case PATCH => Some(Branch(POST, 1, 'A'))
    case PROPFIND => Some(Branch(POST, 1, 'R'))
    case PURGE => Some(Branch(PUT, 2, 'R'))
    case CHECKOUT => Some(Branch(CONNECT, 1, 'H'))
    case COPY => Some(Branch(CONNECT, 2, 'P'))
    case MOVE => Some(Branch(MKCOL, 1, 'O'))
    case MERGE => Some(Branch(MKCOL, 1, 'E'))
    case MSEARCH => Some(Branch(MKCOL, 1, '-'))
    case MKACTIVITY => Some(Branch(MKCOL, 2, 'A'))
    case MKCALENDAR => Some(Branch(MKCOL, 3, 'A'))
    case SEARCH => Some(Branch(SUBSCRIBE, 1, 'E'))
    case SOURCE => Some(Branch(SUBSCRIBE, 1, 'O'))
    case REBIND => Some(Branch(REPORT, 2, 'B'))
    case PROPPATCH => Some(Branch(PROPFIND, 4, 'P'))
    case LINK => Some(Branch(LOCK, 1, 'I'))
    case UNSUBSCRIBE => Some(Branch(UNLOCK, 2, 'S'))
    case UNBIND => Some(Branch(UNLOCK, 2, 'B'))
    case UNLINK => Some(Branch(UNLOCK, 3, 'I'))
    case _ => None
  }

  function Depth(m: Method): nat {
    if m == PURGE || m == PROPPATCH then 2 else if Parent(m).Some? then 1 else 0
  }

  /** The candidate after i characters of m's name. */
  function Candidate(m: Method, i: nat): Method
    decreases Depth(m)
  {
    match Parent(m)
    case None => m
    case Some(b) => if i > b.at then m else Candidate(b.from, i)
  }

  lemma RootFits(m: Method)
    requires Parent(m).None?
    ensures |MethodString(m)| > 1 && FirstMethod(MethodString(m)[0]) == Some(m)
  {
  }

  lemma ParentFits(m: Method)
    requires Parent(m).Some?
    ensures var b := Parent(m).value;
            && 0 < b.at < |MethodString(m)| && b.at < |MethodString(b.from)|
            && MethodString(m)[b.at] == b.ch != MethodString(b.from)[b.at]
            && (forall j :: 0 <= j < b.at ==> MethodString(m)[j] == MethodString(b.from)[j])
  {
  }

  /** The branch points are those of the table. */
  lemma NextIsChild(m: Method, i: nat, ch: byte)
    ensures NextMethod(m, i, ch).Some? ==> Parent(NextMethod(m, i, ch).value) == Some(Branch(m, i, ch))
  {
    hide NextMethod, Parent;
    if m == MKCOL || m == POST {
      NextIsChildM(m, i, ch);
    } else {
      NextIsChildU(m, i, ch);
    }
  }

  lemma NextIsChildM(m: Method, i: nat, ch: byte)
    requires m == MKCOL || m == POST
    ensures NextMethod(m, i, ch).Some? ==> Parent(NextMethod(m, i, ch).value) == Some(Branch(m, i, ch))
  {
  }

  lemma NextIsChildU(m: Method, i: nat, ch: byte)
    requires m != MKCOL && m != POST
    ensures NextMethod(m, i, ch).Some? ==> Parent(NextMethod(m, i, ch).value) == Some(Branch(m, i, ch))
  {
  }

  lemma ChildIsNext(m: Method)
    requires Parent(m).Some?
    ensures var b := Parent(m).value;
            && NextMethod(b.from, b.at, b.ch) == Some(m) && Candidate(b.from, b.at) == b.from
            && ('A' <= b.ch <= 'Z' || b.ch == '-')
  {
  }

  /** Names consist of capitals and hyphens. */
  lemma NameBytes(m: Method, i: nat)
    requires i < |MethodString(m)|
    ensures '-' <= MethodString(m)[i] <= 'Z'
  {
  }

  lemma {:induction false} CandidateStarts(m: Method)
    ensures |MethodString(m)| > 1 && FirstMethod(MethodString(m)[0]) == Some(Candidate(m, 1))
    decreases Depth(m)
  {
    hide MethodString, NextMethod, FirstMethod, Parent, Candidate;
    CandidateIs(m, 1);
    if Parent(m).None? {
      RootFits(m);
    } else {
      ParentFits(m);
      CandidateStarts(Parent(m).value.from);
    }
  }

  lemma CandidateIs(m: Method, i: nat)
    ensures match Parent(m)
            case None => Candidate(m, i) == m
            case Some(b) => Depth(b.from) < Depth(m) && Candidate(m, i) == if i > b.at then m else Candidate(b.from, i)
  {
  }

  lemma {:induction false} CandidateMoves(m: Method, i: nat, ch: byte)
    requires 0 < i < |MethodString(m)| && ch == MethodString(m)[i]
    ensures VerbStep(Candidate(m, i), i, ch) == Some(Candidate(m, i + 1))
    decreases Depth(m)
  {
    hide MethodString, NextMethod, FirstMethod, Parent, Candidate;
    NameBytes(m, i);
    CandidateIs(m, i);
    CandidateIs(m, i + 1);
    if Parent(m).Some? {
      ParentFits(m);
      ChildIsNext(m);
      if i < Parent(m).value.at {
        CandidateMoves(Parent(m).value.from, i, ch);
      }
    }
  }

  lemma {:induction false} NameAccepted(m: Method, s: seq<byte>)
    requires s != [] && Begins(s, MethodString(m))
    ensures Verb(s) == Some(Candidate(m, |s|))
    decreases |s|
  {
    hide MethodString, NextMethod, FirstMethod, VerbStep;
    var n := |s| - 1;
    CandidateStarts(m);
    if n > 0 {
      NameAccepted(m, s[..n]);
      CandidateMoves(m, n, s[n]);
    }
  }

  // ------------------------------------------------------------------ in the parser

  /** The registers after a text whose candidate is m. */
  function Reading(q: Parser, m: Method, n: nat): Parser {
    Fresh(q).(verb := m, index := n, state := RequestStart(ReqMethod), nread := q.nread + n)
  }

  predicate Plain(s: seq<byte>) {
    s != [] && s[0] != CR && s[0] != LF && ' ' !in s
  }

  lemma FirstRead(cfg: Settings, q: Parser, ch: byte)
    requires q.errno == OK && q.state == Start(StartReq) && ch != CR && ch != LF
    requires q.nread < cfg.maxHeaderSize < UINT32_MODULUS
    ensures match FirstMethod(ch)
            case None => Step(cfg, q, ch).q.errno != OK
            case Some(m) => Step(cfg, q, ch).q == Reading(q, m, 1)
  {
    hide FirstMethod;
  }

  lemma NextRead(cfg: Settings, q: Parser, m: Method, n: nat, ch: byte)
    requires q.errno == OK && 0 < n < 127 && ch != ' ' && q.nread + n < cfg.maxHeaderSize < UINT32_MODULUS
    ensures match VerbStep(m, n, ch)
            case None => Step(cfg, Reading(q, m, n), ch).q.errno != OK
            case Some(v) => Step(cfg, Reading(q, m, n), ch).q == Reading(q, v, n + 1)
  {
    hide MethodString, NextMethod;
  }

  lemma NameLength(m: Method)
    ensures |MethodString(m)| < 16
  {
  }

  lemma {:induction false} MethodRun(cfg: Settings, c: Conf, s: seq<byte>)
    requires c.q.errno == OK && c.q.state == Start(StartReq) && Plain(s)
    requires c.q.nread + |s| <= cfg.maxHeaderSize < UINT32_MODULUS
    ensures match Verb(s)
            case None => Run(cfg, c, s).q.errno != OK
            case Some(m) => Run(cfg, c, s).q == Reading(c.q, m, |s|)
    decreases |s|
  {
    hide Step, FirstMethod, VerbStep, MethodString, Reading;
    var n := |s| - 1;
    RunPrefix(cfg, c, s, n);
    assert s[..n + 1] == s;
    if n == 0 {
      assert s[..0] == [];
      StartReading(c.q);
      FirstRead(cfg, c.q, s[0]);
    } else {
      MethodRun(cfg, c, s[..n]);
      if Verb(s[..n]).Some? {
        var m := Verb(s[..n]).value;
        VerbBegins(s[..n]);
        NameLength(m);
        NextRead(cfg, c.q, m, n, s[n]);
        StillFine(c.q, m, n);
      }
    }
  }

  lemma StartReading(q: Parser)
    ensures q.errno == OK ==> forall m, n :: Reading(q, m, n).errno == OK
  {
  }

  lemma StillFine(q: Parser, m: Method, n: nat)
    requires q.errno == OK
    ensures Reading(q, m, n).errno == OK
  {
  }

  lemma BlankRead(cfg: Settings, q: Parser, m: Method, n: nat)
    requires q.errno == OK && n <= |MethodString(m)| && q.nread + n < cfg.maxHeaderSize < UINT32_MODULUS
    ensures var out := Step(cfg, Reading(q, m, n), ' ').q;
            && (out.errno == OK <==> n == |MethodString(m)|)
            && (out.errno == OK ==> out.verb == m && out.state == RequestStart(ReqSpacesBeforeUrl))
  {
    if n < |MethodString(m)| {
      NameBytes(m, n);
    }
    hide MethodString, NextMethod;
  }

  /** A text before the first blank of a request is accepted exactly if it is the name of a method, and is
      then taken for that method: for all texts, cut in any way. */
  lemma MethodExact(cfg: Settings, c: Conf, s: seq<byte>)
    requires c.q.errno == OK && c.q.state == Start(StartReq) && Plain(s)
    requires c.q.nread + |s| + 1 <= cfg.maxHeaderSize < UINT32_MODULUS
    ensures var q := Run(cfg, c, s + [' ']).q;
            && (q.errno == OK <==> exists m :: s == MethodString(m))
            && (q.errno == OK ==> s == MethodString(q.verb) && q.state == RequestStart(ReqSpacesBeforeUrl))
  {
    hide Step, FirstMethod, VerbStep, MethodString, Reading;
    var all, n := s + [' '], |s|;
    MethodRun(cfg, c, s);
    RunPrefix(cfg, c, all, n);
    assert all[..n] == s && all[..n + 1] == all;
    forall m | s == MethodString(m) ensures Verb(s) == Some(m) {
      NameAccepted(m, s);
      WholeName(m);
    }
    if Verb(s).Some? {
      var m := Verb(s).value;
      VerbBegins(s);
      BlankRead(cfg, c.q, m, n);
      StillFine(c.q, m, n);
      assert n == |MethodString(m)| ==> s == MethodString(m);
    }
  }

  lemma {:induction false} WholeName(m: Method)
    ensures Candidate(m, |MethodString(m)|) == m
  {
    hide MethodString, NextMethod;
    if Parent(m).Some? {
      ParentFits(m);
    }
  }
}
