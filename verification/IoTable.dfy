/** The event table of the I/O manager as values: one row for each descriptor, the interest set of the
    kernel, the counter of pending events, and a ledger of what has become of every registration. Each
    operation runs under the lock of its row, so it is one step. */
module IoTable {
  import opened Common

  datatype Event = READ | WRITE

  /** A set of events. */
  datatype Mask = Mask(read: bool, write: bool)

  const NONE := Mask(false, false)

  predicate Has(m: Mask, e: Event) { if e.READ? then m.read else m.write }

  function With(m: Mask, e: Event): Mask { if e.READ? then m.(read := true) else m.(write := true) }

  function Without(m: Mask, e: Event): Mask { if e.READ? then m.(read := false) else m.(write := false) }

  function And(a: Mask, b: Mask): Mask { Mask(a.read && b.read, a.write && b.write) }

  function Minus(a: Mask, b: Mask): Mask { Mask(a.read && !b.read, a.write && !b.write) }

  function Bits(m: Mask): nat { (if m.read then 1 else 0) + (if m.write then 1 else 0) }

  /** What is resumed when an event arrives. */
  datatype Task = FiberTask(fiber: nat) | CbTask(cb: nat)

  /** EventContext */
  datatype Slot = Slot(scheduler: Option<nat>, fiber: Option<nat>, cb: Option<nat>)

  const EMPTY := Slot(None, None, None)

  predicate Armed(s: Slot) { s.scheduler.Some? && (s.fiber.Some? <==> s.cb.None?) }

  function Arm(scheduler: nat, task: Task): Slot {
    match task
    case FiberTask(f) => Slot(Some(scheduler), Some(f), None)
    case CbTask(c) => Slot(Some(scheduler), None, Some(c))
  }

  /** FdContext */
  datatype Row = Row(events: Mask, read: Slot, write: Slot)

  const FRESH := Row(NONE, EMPTY, EMPTY)

  function SlotOf(r: Row, e: Event): Slot { if e.READ? then r.read else r.write }

  function SetSlot(r: Row, e: Event, s: Slot): Row { if e.READ? then r.(read := s) else r.(write := s) }

  /** A bit is set exactly when its slot names a scheduler and one thing to resume. */
  predicate RowOk(r: Row) {
    SlotOk(r, READ) && SlotOk(r, WRITE)
  }

  predicate SlotOk(r: Row, e: Event) {
    if Has(r.events, e) then Armed(SlotOf(r, e)) else SlotOf(r, e) == EMPTY
  }

  // ------------------------------------------------------------------ the ledger

  datatype Key = Key(fd: nat, event: Event)

  datatype Registration = Registration(key: Key, scheduler: nat, task: Task)

  /** One call of a scheduler's schedule(). */
  datatype Handover = Handover(serial: nat, scheduler: nat, task: Task)

  datatype Fate = Live | Handed(index: nat) | Dropped(index: nat)

  datatype Ledger = Ledger(registered: seq<Registration>, fate: seq<Fate>, live: map<Key, nat>,
                           handed: seq<Handover>, dropped: seq<nat>)

  const NO_HISTORY := Ledger([], [], map[], [], [])

  /** Each registration is live, or was handed over once, or was dropped once: never two of these. */
  ghost predicate LedgerOk(l: Ledger) {
    && |l.fate| == |l.registered|
    && (forall k <- l.live :: LiveOk(l, k))
    && (forall s :: 0 <= s < |l.fate| ==> FateOk(l, s))
    && (forall i :: 0 <= i < |l.handed| ==> HandedOk(l, i))
    && (forall i :: 0 <= i < |l.dropped| ==> l.dropped[i] < |l.fate| && l.fate[l.dropped[i]] == Dropped(i))
  }

  predicate LiveOk(l: Ledger, k: Key)
    requires k in l.live
  {
    l.live[k] < |l.fate| == |l.registered| && l.fate[l.live[k]] == Live && l.registered[l.live[k]].key == k
  }

  predicate FateOk(l: Ledger, s: nat)
    requires s < |l.fate| == |l.registered|
  {
    match l.fate[s]
    case Live => l.registered[s].key in l.live && l.live[l.registered[s].key] == s
    case Handed(i) => i < |l.handed| && l.handed[i].serial == s
    case Dropped(i) => i < |l.dropped| && l.dropped[i] == s
  }

  /** What was scheduled is what was registered. */
  predicate HandedOk(l: Ledger, i: nat)
    requires i < |l.handed|
  {
    var h := l.handed[i];
    && h.serial < |l.fate| == |l.registered| && l.fate[h.serial] == Handed(i)
    && h.scheduler == l.registered[h.serial].scheduler && h.task == l.registered[h.serial].task
  }

  function Record(l: Ledger, k: Key, scheduler: nat, task: Task): Ledger {
    Ledger(l.registered + [Registration(k, scheduler, task)], l.fate + [Live], l.live[k := |l.registered|],
           l.handed, l.dropped)
  }

  function Drop(l: Ledger, k: Key): Ledger
    requires k in l.live && l.live[k] < |l.fate|
  {
    l.(fate := l.fate[l.live[k] := Dropped(|l.dropped|)], dropped := l.dropped + [l.live[k]], live := l.live - {k})
  }

  function Hand(l: Ledger, k: Key, scheduler: nat, task: Task): Ledger
    requires k in l.live && l.live[k] < |l.fate|
  {
    l.(fate := l.fate[l.live[k] := Handed(|l.handed|)],
       handed := l.handed + [Handover(l.live[k], scheduler, task)], live := l.live - {k})
  }

  lemma RecordOk(l: Ledger, k: Key, scheduler: nat, task: Task)
    requires LedgerOk(l) && k !in l.live
    ensures LedgerOk(Record(l, k, scheduler, task))
  {
    var m := Record(l, k, scheduler, task);
    forall j <- m.live ensures LiveOk(m, j) {
      assert j != k ==> LiveOk(l, j);
    }
    forall s | 0 <= s < |m.fate| ensures FateOk(m, s) {
      assert s < |l.fate| ==> FateOk(l, s);
    }
    forall i | 0 <= i < |m.handed| ensures HandedOk(m, i) {
      assert HandedOk(l, i);
    }
  }

  lemma DropOk(l: Ledger, k: Key)
    requires LedgerOk(l) && k in l.live
    ensures LiveOk(l, k) && LedgerOk(Drop(l, k))
  {
    assert LiveOk(l, k);
    var m := Drop(l, k);
    forall j <- m.live ensures LiveOk(m, j) {
      assert LiveOk(l, j);
    }
    forall s | 0 <= s < |m.fate| ensures FateOk(m, s) {
      assert FateOk(l, s);
    }
    forall i | 0 <= i < |m.handed| ensures HandedOk(m, i) {
      assert HandedOk(l, i);
    }
  }

  lemma HandOk(l: Ledger, k: Key, scheduler: nat, task: Task)
    requires LedgerOk(l) && k in l.live
    requires LiveOk(l, k) && l.registered[l.live[k]] == Registration(k, scheduler, task)
    ensures LedgerOk(Hand(l, k, scheduler, task))
  {
    var m := Hand(l, k, scheduler, task);
    forall j <- m.live ensures LiveOk(m, j) {
      assert LiveOk(l, j);
    }
    forall s | 0 <= s < |m.fate| ensures FateOk(m, s) {
      assert FateOk(l, s);
    }
    forall i | 0 <= i < |m.handed| ensures HandedOk(m, i) {
      assert i < |l.handed| ==> HandedOk(l, i);
    }
  }
}
