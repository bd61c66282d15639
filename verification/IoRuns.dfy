/** Runs of the I/O manager: any interleaving of the locked steps of any number of threads. */
module IoRuns {
  import opened Common
  import opened IoTable
  import opened IoSteps

  /** addEvent is two steps, as the size is checked and the table resized under another lock. The kernel's
      answer is part of the step; Ready is one descriptor of what an earlier epoll_wait returned. */
  datatype Step =
    | Enlarge(fd: nat)
    | Add(fd: nat, event: Event, scheduler: nat, task: Task, accept: bool)
    | Del(fd: nat, event: Event, accept: bool)
    | Cancel(fd: nat, event: Event, accept: bool)
    | CancelBoth(fd: nat, accept: bool)
    | Ready(fd: nat, fired: Mask, hup: bool, accept: bool)

  /** The process dies where an assert fails or a null pointer is followed. */
  function Survivor(r: Result): Option<Io> { if r.Aborted? then None else Some(r.io) }

  function Apply(code: Code, io: Io, step: Step): Option<Io> {
    match step
    case Enlarge(fd) => Some(Grow(code, io, fd))
    case Add(fd, e, scheduler, task, accept) =>
      if fd < |io.table| then Survivor(AddEvent(code, io, fd, e, scheduler, task, accept)) else Some(io)
    case Del(fd, e, accept) => Survivor(RemoveEvent(io, fd, e, false, accept))
    case Cancel(fd, e, accept) => Survivor(RemoveEvent(io, fd, e, true, accept))
    case CancelBoth(fd, accept) => Survivor(CancelAll(io, fd, accept))
    case Ready(fd, fired, hup, accept) =>
      if fd < |io.table| then Survivor(Dispatch(code, io, fd, fired, hup, accept)) else Some(io)
  }

  function Exec(code: Code, io: Io, steps: seq<Step>): Option<Io> {
    if steps == [] then Some(io)
    else
      match Exec(code, io, steps[..|steps| - 1])
      case None => None
      case Some(mid) => Apply(code, mid, steps[|steps| - 1])
  }

  /** A process that has died stays dead. */
  lemma {:induction false} DeadStays(code: Code, io: Io, steps: seq<Step>, n: nat)
    requires n <= |steps| && Exec(code, io, steps[..n]) == None
    ensures Exec(code, io, steps) == None
    decreases |steps| - n
  {
    if n < |steps| {
      assert steps[..n + 1][..n] == steps[..n];
      DeadStays(code, io, steps, n + 1);
    } else {
      assert steps[..n] == steps;
    }
  }

  const INIT := Io(Fresh(32), map[], 0, NO_HISTORY)

  lemma {:induction false} TotalFresh(n: nat)
    ensures Total(Fresh(n)) == 0
  {
    if n > 0 {
      assert Fresh(n)[..n - 1] == Fresh(n - 1);
      TotalFresh(n - 1);
    }
  }

  lemma {:induction false} TotalSplit(a: seq<Row>, b: seq<Row>)
    ensures Total(a + b) == Total(a) + Total(b)
    decreases |b|
  {
    if b == [] {
      assert a + b == a;
    } else {
      var n := |b| - 1;
      assert (a + b)[..|a| + n] == a + b[..n];
      TotalSplit(a, b[..n]);
    }
  }

  lemma InitConsistent()
    ensures Consistent(INIT)
  {
    TotalFresh(32);
  }

  ghost predicate QuietFrom(table: seq<Row>, n: nat) {
    forall fd :: n <= fd < |table| ==> table[fd].events == NONE
  }

  lemma {:induction false} QuietTotal(table: seq<Row>)
    ensures Total(table) == 0 <==> QuietFrom(table, 0)
  {
    if table != [] {
      var n := |table| - 1;
      QuietTotal(table[..n]);
      assert QuietFrom(table, 0) ==> table[n].events == NONE;
      if Total(table) == 0 {
        assert forall fd :: 0 <= fd < n ==> table[..n][fd] == table[fd];
      }
    }
  }

  /** Resizing keeps the pending counter right, and the table consistent, exactly when no row that is cut
      off has an event. */
  lemma ResizeKeeps(io: Io, n: nat)
    requires Consistent(io)
    ensures var after := Resize(io, n);
            && (after.pending == Total(after.table) <==> QuietFrom(io.table, n))
            && (Consistent(after) <==> QuietFrom(io.table, n))
  {
    var after := Resize(io, n);
    if n <= |io.table| {
      assert io.table == io.table[..n] + io.table[n..];
      TotalSplit(io.table[..n], io.table[n..]);
      QuietTotal(io.table[n..]);
      assert forall i :: 0 <= i < |io.table| - n ==> io.table[n..][i] == io.table[n + i];
      assert QuietFrom(io.table[n..], 0) <==> QuietFrom(io.table, n) by {
        if QuietFrom(io.table[n..], 0) {
          assert forall fd :: n <= fd < |io.table| ==> io.table[fd] == io.table[n..][fd - n];
        }
      }
    } else {
      TotalSplit(io.table, Fresh(n - |io.table|));
      TotalFresh(n - |io.table|);
    }
    if QuietFrom(io.table, n) {
      ResizeMatches(io, n);
    }
  }

  lemma ResizeMatches(io: Io, n: nat)
    requires Consistent(io) && QuietFrom(io.table, n)
    ensures InterestOk(Resize(io, n)) && forall k: Key :: Matches(Resize(io, n), k)
  {
    var after := Resize(io, n);
    forall fd: nat ensures WatchedOk(after, fd) {
      assert WatchedOk(io, fd);
    }
    forall k: Key ensures Matches(after, k) {
      assert Matches(io, k);
    }
  }

  /** The one way to fail: registering an event a second time. */
  lemma ApplyKeeps(io: Io, step: Step)
    requires Consistent(io)
    ensures var r := Apply(Intended, io, step);
            && (r == None <==> step.Add? && step.fd < |io.table| && step.accept
                               && Has(io.table[step.fd].events, step.event))
            && (r.Some? ==> Consistent(r.value))
  {
    hide Consistent;
    match step {
      case Enlarge(fd) =>
        if fd >= |io.table| {
          ResizeKeeps(io, fd * 3 / 2);
        }
      case Add(fd, e, scheduler, task, accept) =>
        if fd < |io.table| {
          AddEventKeeps(Intended, io, fd, e, scheduler, task, accept);
        }
      case Del(fd, e, accept) => RemoveEventKeeps(io, fd, e, false, accept);
      case Cancel(fd, e, accept) => RemoveEventKeeps(io, fd, e, true, accept);
      case CancelBoth(fd, accept) => CancelAllKeeps(io, fd, accept);
      case Ready(fd, fired, hup, accept) =>
        if fd < |io.table| {
          DispatchKeeps(Intended, io, fd, fired, hup, accept);
        }
    }
  }

  /** In every interleaving the counter is the number of registered events, bits, slots and the kernel's
      interest agree, and each registration is live, or was handed over once, or was dropped once. */
  lemma {:induction false} RunConsistent(io: Io, steps: seq<Step>)
    requires Consistent(io) && Exec(Intended, io, steps).Some?
    ensures Consistent(Exec(Intended, io, steps).value)
  {
    hide Consistent, Apply;
    if steps != [] {
      RunConsistent(io, steps[..|steps| - 1]);
      ApplyKeeps(Exec(Intended, io, steps[..|steps| - 1]).value, steps[|steps| - 1]);
    }
  }

  /** A fate once decided never changes, and what was scheduled stays scheduled. */
  predicate Later(a: Ledger, b: Ledger) {
    && |a.fate| <= |b.fate| && a.registered <= b.registered && a.handed <= b.handed && a.dropped <= b.dropped
    && forall s :: 0 <= s < |a.fate| && a.fate[s] != Live ==> b.fate[s] == a.fate[s]
  }

  lemma ReleaseLater(io: Io, fd: nat, e: Event, hand: bool)
    requires fd < |io.table| && LiveKey(io, Key(fd, e)) && LedgerOk(io.ledger)
    ensures Later(io.ledger, Release(io, fd, e, hand).ledger)
  {
    assert LiveOk(io.ledger, Key(fd, e));
  }

  lemma LaterTransitive(a: Ledger, b: Ledger, c: Ledger)
    requires Later(a, b) && Later(b, c)
    ensures Later(a, c)
  {
  }

  lemma TriggerLater(io: Io, fd: nat, m: Mask)
    requires Core(io) && fd < |io.table| && TriggerAll(io, fd, m).Some?
    ensures Later(io.ledger, TriggerAll(io, fd, m).value.ledger)
  {
    hide Core, Total, Later, LedgerOk;
    TriggerKeeps(io, fd, m);
    CoreLedger(io);
    SelfLater(io.ledger);
    if m.read {
      ReleaseLater(io, fd, READ, true);
      ReleaseCore(io, fd, READ, true);
    }
    var mid := if m.read then Release(io, fd, READ, true) else io;
    if m.write {
      CoreLedger(mid);
      ReleaseLater(mid, fd, WRITE, true);
      LaterTransitive(io.ledger, mid.ledger, Release(mid, fd, WRITE, true).ledger);
    }
  }

  lemma SelfLater(l: Ledger)
    ensures Later(l, l)
  {
  }

  lemma ApplyLater(io: Io, step: Step)
    requires Consistent(io) && Apply(Intended, io, step).Some?
    ensures Later(io.ledger, Apply(Intended, io, step).value.ledger)
  {
    hide Core, Total, Later, LedgerOk, TriggerAll, LiveKey;
    SelfLater(io.ledger);
    CoreLedger(io);
    match step {
      case Enlarge(fd) =>
      case Add(fd, e, scheduler, task, accept) =>
        RecordLater(io.ledger, Key(fd, e), scheduler, task);
      case Del(fd, e, accept) =>
        if fd < |io.table| && Has(io.table[fd].events, e) {
          LiveBit(io, fd, e);
          ReleaseLater(io, fd, e, false);
        }
      case Cancel(fd, e, accept) =>
        if fd < |io.table| && Has(io.table[fd].events, e) {
          LiveBit(io, fd, e);
          ReleaseLater(io, fd, e, true);
        }
      case CancelBoth(fd, accept) =>
        if fd < |io.table| {
          AnyInterestLater(io, io.interest - {fd}, fd, io.table[fd].events);
        }
      case Ready(fd, fired, hup, accept) =>
        if fd < |io.table| {
          var events := io.table[fd].events;
          var ready := if hup then events else fired;
          var left := Minus(events, ready);
          var next := Ctl(io.interest, if left != NONE then MOD else DEL, fd, left, accept);
          if next.Some? {
            AnyInterestLater(io, next.value, fd, And(ready, events));
          }
        }
    }
  }

  lemma AnyInterestLater(io: Io, interest: map<nat, Mask>, fd: nat, m: Mask)
    requires Core(io) && fd < |io.table|
    ensures var r := TriggerAll(io.(interest := interest), fd, m);
            r.Some? ==> Later(io.ledger, r.value.ledger)
  {
    hide Core, Later, TriggerAll;
    CoreAnyInterest(io, interest);
    if TriggerAll(io.(interest := interest), fd, m).Some? {
      TriggerLater(io.(interest := interest), fd, m);
    }
  }

  lemma RecordLater(l: Ledger, k: Key, scheduler: nat, task: Task)
    requires LedgerOk(l)
    ensures Later(l, Record(l, k, scheduler, task))
  {
  }

  /** Over a whole run a decided registration stays as it was decided. */
  lemma {:induction false} RunLater(io: Io, steps: seq<Step>)
    requires Consistent(io) && Exec(Intended, io, steps).Some?
    ensures Later(io.ledger, Exec(Intended, io, steps).value.ledger)
  {
    hide Consistent, Apply, Later;
    if steps == [] {
      SelfLater(io.ledger);
    } else {
      var n := |steps| - 1;
      var mid := Exec(Intended, io, steps[..n]).value;
      RunLater(io, steps[..n]);
      RunConsistent(io, steps[..n]);
      ApplyLater(mid, steps[n]);
      LaterTransitive(io.ledger, mid.ledger, Exec(Intended, io, steps).value.ledger);
    }
  }

  // ------------------------------------------------------------------ exactly once

  function Serials(handed: seq<Handover>): (r: seq<nat>)
    ensures |r| == |handed| && forall i :: 0 <= i < |r| ==> r[i] == handed[i].serial
  {
    seq(|handed|, i requires 0 <= i < |handed| => handed[i].serial)
  }

  /** How often s occurs. */
  function Times(a: seq<nat>, s: nat): nat {
    if a == [] then 0 else Times(a[..|a| - 1], s) + if a[|a| - 1] == s then 1 else 0
  }

  lemma {:induction false} TimesNone(a: seq<nat>, s: nat)
    requires forall i :: 0 <= i < |a| ==> a[i] != s
    ensures Times(a, s) == 0
  {
    if a != [] {
      TimesNone(a[..|a| - 1], s);
    }
  }

  lemma {:induction false} TimesOne(a: seq<nat>, s: nat, at: nat)
    requires at < |a| && a[at] == s && forall i :: 0 <= i < |a| && i != at ==> a[i] != s
    ensures Times(a, s) == 1
    decreases |a|
  {
    var n := |a| - 1;
    if at == n {
      TimesNone(a[..n], s);
    } else {
      TimesOne(a[..n], s, at);
    }
  }

  /** A registration is handed over, dropped or live: exactly one of these, and exactly once. */
  lemma ExactlyOnce(l: Ledger, s: nat)
    requires LedgerOk(l) && s < |l.fate|
    ensures Times(Serials(l.handed), s) + Times(l.dropped, s) + (if l.fate[s] == Live then 1 else 0) == 1
  {
    var a := Serials(l.handed);
    assert FateOk(l, s);
    forall i | 0 <= i < |a| && a[i] == s ensures l.fate[s] == Handed(i) {
      assert HandedOk(l, i);
    }
    match l.fate[s] {
      case Live =>
        TimesNone(a, s);
        TimesNone(l.dropped, s);
      case Handed(i) =>
        TimesOne(a, s, i);
        TimesNone(l.dropped, s);
      case Dropped(i) =>
        TimesNone(a, s);
        TimesOne(l.dropped, s, i);
    }
  }

  /** The counter is zero exactly when nothing is registered; the kernel then watches nothing. */
  lemma NothingPending(io: Io)
    requires Consistent(io)
    ensures io.pending == 0 <==> io.ledger.live == map[]
    ensures io.pending == 0 <==> io.interest == map[]
  {
    QuietTotal(io.table);
    if io.pending == 0 {
      forall k: Key ensures k !in io.ledger.live {
        assert Matches(io, k);
      }
      forall fd: nat ensures fd !in io.interest {
        assert WatchedOk(io, fd);
      }
    } else {
      var fd :| 0 <= fd < |io.table| && io.table[fd].events != NONE;
      assert WatchedOk(io, fd);
      assert Matches(io, Key(fd, READ)) && Matches(io, Key(fd, WRITE));
    }
  }

  // ------------------------------------------------------------------ the source as written

  /** Nothing is registered, and the kernel watches what it watched at the start. */
  ghost predicate Inert(io: Io, interest: map<nat, Mask>) {
    && (forall fd :: 0 <= fd < |io.table| ==> io.table[fd] == FRESH)
    && io.interest == interest && io.pending == 0 && io.ledger == NO_HISTORY
  }

  /** The start, with what the constructor has made the kernel watch besides: the end of a pipe. */
  function Watching(interest: map<nat, Mask>): Io { INIT.(interest := interest) }

  /** As written no registration of a descriptor that the kernel does not watch from the start ever succeeds:
      every run leaves the table empty. */
  lemma {:induction false} AsWrittenInert(interest: map<nat, Mask>, steps: seq<Step>)
    requires forall i :: 0 <= i < |steps| ==> steps[i].fd !in interest
    ensures var io := Exec(AsWritten, Watching(interest), steps); io.Some? && Inert(io.value, interest)
  {
    if steps != [] {
      AsWrittenInert(interest, steps[..|steps| - 1]);
    }
  }

  /** The one exception: registering the watched end of the pipe itself asks the kernel to delete what it does
      watch. It obeys, so that the registration stands and nobody watches. */
  lemma WatchedIsDeleted(pipe: nat, e: Event, scheduler: nat, task: Task)
    requires pipe < 32
    ensures var start := Watching(map[pipe := Mask(true, false)]);
            var io := Exec(AsWritten, start, [Add(pipe, e, scheduler, task, true)]);
            && io.Some? && io.value.interest == map[] && io.value.pending == 1
            && Key(pipe, e) in io.value.ledger.live
  {
    var start := Watching(map[pipe := Mask(true, false)]);
    ExecOne(AsWritten, start, Add(pipe, e, scheduler, task, true));
    assert start.interest - {pipe} == map[];
  }

  // ------------------------------------------------------------------ inputs at which the written text fails

  lemma ExecOne(code: Code, io: Io, step: Step)
    ensures Exec(code, io, [step]) == Apply(code, io, step)
  {
    hide Apply;
    assert [step][..0] == [];
  }

  lemma ExecTwo(code: Code, io: Io, a: Step, b: Step)
    ensures Exec(code, io, [a, b]) == match Apply(code, io, a) case None => None case Some(mid) => Apply(code, mid, b)
  {
    hide Apply;
    assert [a, b][..1] == [a];
    ExecOne(code, io, a);
  }

  lemma ExecThree(code: Code, io: Io, a: Step, b: Step, c: Step)
    ensures Exec(code, io, [a, b, c])
         == match Exec(code, io, [a, b]) case None => None case Some(mid) => Apply(code, mid, c)
  {
    hide Apply;
    assert [a, b, c][..2] == [a, b];
  }

  /** A run that registers READ and WRITE on descriptor 0 and then cancels WRITE. */
  function Cancelled(scheduler: nat, task: Task): seq<Step> {
    [Add(0, READ, scheduler, task, true), Add(0, WRITE, scheduler, task, true), Cancel(0, WRITE, true)]
  }

  /** In between the kernel has reported both events; the report is dispatched after the cancellation. The written
      loop triggers WRITE too, which is no longer registered, and dies; the intended one hands over READ. */
  lemma DispatchCrash(scheduler: nat, task: Task)
    ensures var io := Exec(Intended, INIT, Cancelled(scheduler, task));
            && io.Some? && Consistent(io.value) && |io.value.table| == 32
            && io.value.table[0].events == Mask(true, false)
            && Dispatch(AsWritten, io.value, 0, Mask(true, true), false, true) == Aborted
            && Dispatch(Intended, io.value, 0, Mask(true, true), false, true).Accepted?
  {
    hide Consistent, Dispatch, AddEvent, RemoveEvent;
    var a, b, c := Add(0, READ, scheduler, task, true), Add(0, WRITE, scheduler, task, true), Cancel(0, WRITE, true);
    InitConsistent();
    ExecThree(Intended, INIT, a, b, c);
    ExecTwo(Intended, INIT, a, b);
    ApplyKeeps(INIT, a);
    AddEventKeeps(Intended, INIT, 0, READ, scheduler, task, true);
    var io1 := Apply(Intended, INIT, a).value;
    ApplyKeeps(io1, b);
    AddEventKeeps(Intended, io1, 0, WRITE, scheduler, task, true);
    var io2 := Apply(Intended, io1, b).value;
    ApplyKeeps(io2, c);
    RemoveEventKeeps(io2, 0, WRITE, true, true);
    var io := Apply(Intended, io2, c).value;
    DispatchKeeps(AsWritten, io, 0, Mask(true, true), false, true);
    DispatchKeeps(Intended, io, 0, Mask(true, true), false, true);
  }

  /** A run that grows the table to 150 rows and registers READ on descriptor 100. When an addEvent for
      descriptor 40 has read the size before that and resizes now, the written text cuts the table to 60 rows:
      the registration is lost, while the counter and the kernel still know it. */
  lemma StaleResize(scheduler: nat, task: Task)
    ensures var io := Exec(Intended, INIT, [Enlarge(100), Add(100, READ, scheduler, task, true)]);
            && io.Some? && Consistent(io.value) && |io.value.table| == 150
            && !Consistent(Grow(AsWritten, io.value, 40)) && |Grow(AsWritten, io.value, 40).table| == 60
            && Grow(Intended, io.value, 40) == io.value
  {
    hide Consistent, AddEvent;
    var grown, step := Grow(Intended, INIT, 100), Add(100, READ, scheduler, task, true);
    InitConsistent();
    ExecTwo(Intended, INIT, Enlarge(100), step);
    ApplyKeeps(INIT, Enlarge(100));
    ApplyKeeps(grown, step);
    AddEventKeeps(Intended, grown, 100, READ, scheduler, task, true);
    var io := Apply(Intended, grown, step).value;
    assert io.table[100].events != NONE;
    ResizeKeeps(io, 60);
  }
}
