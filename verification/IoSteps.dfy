/** The operations of the I/O manager as functions on the event table, and what every one of them keeps. */
module IoSteps {
  import opened Common
  import opened IoTable

  /** The interest set is the kernel's; the ledger is kept for the proofs. */
  datatype Io = Io(table: seq<Row>, interest: map<nat, Mask>, pending: int, ledger: Ledger)

  function Total(table: seq<Row>): nat {
    if table == [] then 0 else Total(table[..|table| - 1]) + Bits(table[|table| - 1].events)
  }

  function TaskOf(s: Slot): Task
    requires Armed(s)
  {
    if s.cb.Some? then CbTask(s.cb.value) else FiberTask(s.fiber.value)
  }

  /** A bit is set exactly when a registration is live for it, and its slot holds that registration. */
  ghost predicate Matches(io: Io, k: Key) {
    && (k in io.ledger.live <==> k.fd < |io.table| && Has(io.table[k.fd].events, k.event))
    && (k in io.ledger.live && io.ledger.live[k] < |io.ledger.registered| ==>
          var s := SlotOf(io.table[k.fd], k.event);
          Armed(s) && io.ledger.registered[io.ledger.live[k]] == Registration(k, s.scheduler.value, TaskOf(s)))
  }

  /** Everything but the interest set. */
  ghost predicate Core(io: Io) {
    && (forall fd :: 0 <= fd < |io.table| ==> RowOk(io.table[fd]))
    && io.pending == Total(io.table)
    && LedgerOk(io.ledger)
    && (forall k: Key :: Matches(io, k))
  }

  ghost predicate InterestOk(io: Io) {
    forall fd: nat :: WatchedOk(io, fd)
  }

  /** The kernel watches a descriptor exactly for the bits of its row. */
  predicate WatchedOk(io: Io, fd: nat) {
    && (fd in io.interest <==> fd < |io.table| && io.table[fd].events != NONE)
    && (fd in io.interest ==> io.interest[fd] == io.table[fd].events)
  }

  ghost predicate Consistent(io: Io) { Core(io) && InterestOk(io) }

  // ------------------------------------------------------------------ epoll_ctl

  datatype Op = ADD | MOD | DEL

  /** The kernel refuses to add what it watches and to change what it does not; it may refuse otherwise. */
  function Ctl(interest: map<nat, Mask>, op: Op, fd: nat, m: Mask, accept: bool): Option<map<nat, Mask>> {
    if !accept || (fd in interest <==> op.ADD?) then None
    else Some(if op.DEL? then interest - {fd} else interest[fd := m])
  }

  // ------------------------------------------------------------------ the operations

  function Fresh(n: nat): (r: seq<Row>)
    ensures |r| == n && forall i :: 0 <= i < n ==> r[i] == FRESH
  {
    seq(n, i => FRESH)
  }

  /** contextResize: it also shrinks. */
  function Resize(io: Io, n: nat): Io {
    io.(table := if n <= |io.table| then io.table[..n] else io.table + Fresh(n - |io.table|))
  }

  /** The write-locked part of addEvent, after a check of the size that may be stale. */
  function Grow(code: Code, io: Io, fd: nat): Io {
    if code.AsWritten? || fd >= |io.table| then Resize(io, fd * 3 / 2) else io
  }

  /** An event is armed: the bit, the slot, the counter. */
  function Register(io: Io, fd: nat, e: Event, scheduler: nat, task: Task): Io
    requires fd < |io.table|
  {
    var r := io.table[fd];
    Io(io.table[fd := SetSlot(r.(events := With(r.events, e)), e, Arm(scheduler, task))],
       io.interest, io.pending + 1, Record(io.ledger, Key(fd, e), scheduler, task))
  }

  /** The bit, the slot and the counter of a live event are cleared, without or with a handover. */
  function Release(io: Io, fd: nat, e: Event, hand: bool): Io
    requires fd < |io.table| && LiveKey(io, Key(fd, e))
  {
    var r, k := io.table[fd], Key(fd, e);
    var s := SlotOf(r, e);
    Io(io.table[fd := SetSlot(r.(events := Without(r.events, e)), e, EMPTY)], io.interest, io.pending - 1,
       if hand then Hand(io.ledger, k, s.scheduler.value, TaskOf(s)) else Drop(io.ledger, k))
  }

  predicate LiveKey(io: Io, k: Key) {
    && k.fd < |io.table| && k in io.ledger.live && io.ledger.live[k] < |io.ledger.fate|
    && Armed(SlotOf(io.table[k.fd], k.event))
  }

  datatype Result = Accepted(io: Io) | Refused(io: Io) | Aborted

  /** The part of addEvent under the lock of the row. As written, a first event asks the kernel to delete
      where it must add. A second registration of the same event ends in a failing assert. */
  function AddEvent(code: Code, io: Io, fd: nat, e: Event, scheduler: nat, task: Task, accept: bool): Result
    requires fd < |io.table|
  {
    var events := io.table[fd].events;
    var op := if events != NONE then MOD else if code.Intended? then ADD else DEL;
    match Ctl(io.interest, op, fd, With(events, e), accept)
    case None => Refused(io)
    case Some(interest) =>
      if SlotOf(io.table[fd], e) != EMPTY then Aborted
      else Accepted(Register(io, fd, e, scheduler, task).(interest := interest))
  }

  /** delEvent and cancelEvent: they differ in what becomes of the registration. */
  function RemoveEvent(io: Io, fd: nat, e: Event, hand: bool, accept: bool): Result {
    if fd >= |io.table| || !Has(io.table[fd].events, e) then Refused(io)
    else
      var left := Without(io.table[fd].events, e);
      match Ctl(io.interest, if left != NONE then MOD else DEL, fd, left, accept)
      case None => Refused(io)
      case Some(interest) =>
        if !LiveKey(io, Key(fd, e)) then Aborted
        else Accepted(Release(io, fd, e, hand).(interest := interest))
  }

  /** The events of a mask are triggered, first READ, then WRITE; an event without a scheduler is a null
      dereference. */
  function TriggerAll(io: Io, fd: nat, m: Mask): Option<Io>
    requires fd < |io.table|
  {
    if m.read && !LiveKey(io, Key(fd, READ)) then None
    else
      var after := if m.read then Release(io, fd, READ, true) else io;
      if m.write && !LiveKey(after, Key(fd, WRITE)) then None
      else Some(if m.write then Release(after, fd, WRITE, true) else after)
  }

  function CancelAll(io: Io, fd: nat, accept: bool): Result {
    if fd >= |io.table| || io.table[fd].events == NONE then Refused(io)
    else
      match Ctl(io.interest, DEL, fd, NONE, accept)
      case None => Refused(io)
      case Some(interest) =>
        match TriggerAll(io.(interest := interest), fd, io.table[fd].events)
        case None => Aborted
        case Some(after) => Accepted(after)
  }

  /** One event that epoll_wait has returned. The row may have changed since. As written, all that fired is
      triggered as soon as a part of it is registered. */
  function Dispatch(code: Code, io: Io, fd: nat, fired: Mask, hup: bool, accept: bool): Result
    requires fd < |io.table|
  {
    var events := io.table[fd].events;
    var ready := if hup then events else fired;
    if And(ready, events) == NONE then Refused(io)
    else
      var left := Minus(events, ready);
      match Ctl(io.interest, if left != NONE then MOD else DEL, fd, left, accept)
      case None => Refused(io)
      case Some(interest) =>
        match TriggerAll(io.(interest := interest), fd, if code.Intended? then And(ready, events) else ready)
        case None => Aborted
        case Some(after) => Accepted(after)
  }

  // ------------------------------------------------------------------ what they keep

  lemma {:induction false} TotalUpdate(table: seq<Row>, fd: nat, r: Row)
    requires fd < |table|
    ensures Total(table[fd := r]) == Total(table) - Bits(table[fd].events) + Bits(r.events)
    decreases |table|
  {
    var n := |table| - 1;
    if fd == n {
      assert table[fd := r][..n] == table[..n];
    } else {
      assert table[fd := r][..n] == table[..n][fd := r];
      TotalUpdate(table[..n], fd, r);
    }
  }

  lemma RegisterCore(io: Io, fd: nat, e: Event, scheduler: nat, task: Task)
    requires Core(io) && fd < |io.table| && !Has(io.table[fd].events, e)
    ensures Core(Register(io, fd, e, scheduler, task))
  {
    hide LedgerOk, Total;
    var after, k := Register(io, fd, e, scheduler, task), Key(fd, e);
    TotalUpdate(io.table, fd, after.table[fd]);
    assert Matches(io, k);
    RecordOk(io.ledger, k, scheduler, task);
    forall j: Key ensures Matches(after, j) {
      assert Matches(io, j);
      LedgerLive(io.ledger, j);
    }
  }

  lemma LedgerLive(l: Ledger, k: Key)
    requires LedgerOk(l)
    ensures |l.fate| == |l.registered| && (k in l.live ==> LiveOk(l, k))
  {
  }

  /** A set bit is live, so that it can be released. */
  lemma LiveBit(io: Io, fd: nat, e: Event)
    requires Core(io) && fd < |io.table| && Has(io.table[fd].events, e)
    ensures LiveKey(io, Key(fd, e)) && io.pending > 0
  {
    assert Matches(io, Key(fd, e));
    LedgerLive(io.ledger, Key(fd, e));
    TotalUpdate(io.table, fd, FRESH);
  }

  lemma ReleaseCore(io: Io, fd: nat, e: Event, hand: bool)
    requires Core(io) && fd < |io.table| && Has(io.table[fd].events, e)
    ensures LiveKey(io, Key(fd, e)) && Core(Release(io, fd, e, hand))
  {
    hide LedgerOk, Total;
    LiveBit(io, fd, e);
    var after, k := Release(io, fd, e, hand), Key(fd, e);
    TotalUpdate(io.table, fd, after.table[fd]);
    assert Matches(io, k);
    LedgerLive(io.ledger, k);
    if hand {
      HandOk(io.ledger, k, SlotOf(io.table[fd], e).scheduler.value, TaskOf(SlotOf(io.table[fd], e)));
    } else {
      DropOk(io.ledger, k);
    }
    forall j: Key ensures Matches(after, j) {
      assert Matches(io, j);
      LedgerLive(io.ledger, j);
      if j in io.ledger.live && j != k {
        Distinct(io.ledger, j, k);
      }
    }
  }

  lemma Distinct(l: Ledger, j: Key, k: Key)
    requires LedgerOk(l) && k in l.live && j in l.live && j != k
    ensures l.live[j] != l.live[k]
  {
    assert LiveOk(l, j) && LiveOk(l, k);
  }

  /** What one operation does elsewhere: nothing. */
  predicate OnlyRow(io: Io, after: Io, fd: nat)
    requires fd < |io.table|
  {
    && |after.table| == |io.table| && after.table == io.table[fd := after.table[fd]]
    && after.interest - {fd} == io.interest - {fd}
  }

  /** The interest set after a successful call of epoll_ctl for one row. */
  lemma InterestUpdate(io: Io, after: Io, fd: nat)
    requires InterestOk(io) && fd < |io.table| && OnlyRow(io, after, fd) && WatchedOk(after, fd)
    ensures InterestOk(after)
  {
    forall f: nat ensures WatchedOk(after, f) {
      assert WatchedOk(io, f);
      if f != fd {
        assert f in after.interest - {fd} <==> f in after.interest;
        assert f in io.interest - {fd} <==> f in io.interest;
        if f in io.interest {
          assert (after.interest - {fd})[f] == (io.interest - {fd})[f];
        }
      }
    }
  }

  /** addEvent keeps the table consistent, and fails an assert exactly when the event is registered
      already. As written it is refused for every descriptor that has no event yet. */
  lemma AddEventKeeps(code: Code, io: Io, fd: nat, e: Event, scheduler: nat, task: Task, accept: bool)
    requires Consistent(io) && fd < |io.table|
    ensures var r, events := AddEvent(code, io, fd, e, scheduler, task, accept), io.table[fd].events;
            && (r.Refused? <==> !accept || (code.AsWritten? && events == NONE))
            && (r.Aborted? <==> !r.Refused? && Has(events, e))
            && (r.Refused? ==> r.io == io)
            && (r.Accepted? ==> Consistent(r.io) && OnlyRow(io, r.io, fd) && r.io.table[fd].events == With(events, e)
                                && r.io.ledger == Record(io.ledger, Key(fd, e), scheduler, task))
  {
    hide Core, Total;
    assert WatchedOk(io, fd) && RowOk(io.table[fd]) by {
      CoreRow(io, fd);
    }
    var r := AddEvent(code, io, fd, e, scheduler, task, accept);
    if r.Accepted? {
      var mid := Register(io, fd, e, scheduler, task);
      RegisterCore(io, fd, e, scheduler, task);
      CoreAnyInterest(mid, r.io.interest);
      InterestUpdate(io, r.io, fd);
    }
  }

  lemma CoreRow(io: Io, fd: nat)
    requires Core(io) && fd < |io.table|
    ensures RowOk(io.table[fd])
  {
  }

  lemma CoreAnyInterest(io: Io, interest: map<nat, Mask>)
    requires Core(io)
    ensures Core(io.(interest := interest))
  {
    forall k: Key ensures Matches(io.(interest := interest), k) {
      assert Matches(io, k);
    }
  }

  /** What becomes of the registration of a released event. */
  ghost predicate Gone(before: Ledger, after: Ledger, k: Key, hand: bool)
    requires LedgerOk(before) && k in before.live
  {
    assert LiveOk(before, k);
    var serial := before.live[k];
    var r := before.registered[serial];
    && after.registered == before.registered && after.live == before.live - {k}
    && if hand
       then after.dropped == before.dropped && after.handed == before.handed + [Handover(serial, r.scheduler, r.task)]
       else after.handed == before.handed && after.dropped == before.dropped + [serial]
  }

  lemma ReleaseGone(io: Io, fd: nat, e: Event, hand: bool)
    requires Core(io) && fd < |io.table| && Has(io.table[fd].events, e)
    ensures LiveKey(io, Key(fd, e)) && Gone(io.ledger, Release(io, fd, e, hand).ledger, Key(fd, e), hand)
  {
    LiveBit(io, fd, e);
    assert Matches(io, Key(fd, e));
  }

  /** delEvent drops, cancelEvent hands over: a registered event always, an event that is not registered
      never. */
  lemma RemoveEventKeeps(io: Io, fd: nat, e: Event, hand: bool, accept: bool)
    requires Consistent(io)
    ensures var r := RemoveEvent(io, fd, e, hand, accept);
            && (r.Accepted? <==> accept && fd < |io.table| && Has(io.table[fd].events, e))
            && !r.Aborted? && (r.Refused? ==> r.io == io)
            && (r.Accepted? ==> Consistent(r.io) && OnlyRow(io, r.io, fd)
                                && r.io.table[fd].events == Without(io.table[fd].events, e)
                                && Key(fd, e) in io.ledger.live && Gone(io.ledger, r.io.ledger, Key(fd, e), hand))
  {
    hide Core, Total, Gone, LedgerOk;
    if fd < |io.table| && Has(io.table[fd].events, e) {
      assert WatchedOk(io, fd);
      LiveBit(io, fd, e);
      ReleaseGone(io, fd, e, hand);
      CoreLedger(io);
      var r := RemoveEvent(io, fd, e, hand, accept);
      if r.Accepted? {
        var mid := Release(io, fd, e, hand);
        ReleaseCore(io, fd, e, hand);
        CoreAnyInterest(mid, r.io.interest);
        InterestUpdate(io, r.io, fd);
      }
    }
  }

  lemma CoreLedger(io: Io)
    requires Core(io)
    ensures LedgerOk(io.ledger)
  {
  }

  predicate LiveBits(io: Io, fd: nat, m: Mask) {
    (m.read ==> LiveKey(io, Key(fd, READ))) && (m.write ==> LiveKey(io, Key(fd, WRITE)))
  }

  /** The calls of schedule() for the events of a mask: what their slots hold, READ before WRITE. */
  function Handovers(io: Io, fd: nat, m: Mask): seq<Handover>
    requires LiveBits(io, fd, m)
  {
    (if m.read then [HandoverOf(io, fd, READ)] else []) + (if m.write then [HandoverOf(io, fd, WRITE)] else [])
  }

  function HandoverOf(io: Io, fd: nat, e: Event): Handover
    requires LiveKey(io, Key(fd, e))
  {
    var s := SlotOf(io.table[fd], e);
    Handover(io.ledger.live[Key(fd, e)], s.scheduler.value, TaskOf(s))
  }

  /** Triggering registered events takes exactly their bits away and hands each over. */
  lemma TriggerKeeps(io: Io, fd: nat, m: Mask)
    requires Core(io) && fd < |io.table|
    ensures TriggerAll(io, fd, m).Some? <==> And(m, io.table[fd].events) == m
    ensures And(m, io.table[fd].events) == m ==>
              var after := TriggerAll(io, fd, m).value;
              && Core(after) && OnlyRow(io, after, fd) && after.interest == io.interest
              && after.table[fd].events == Minus(io.table[fd].events, m)
              && LiveBits(io, fd, m) && after.ledger.handed == io.ledger.handed + Handovers(io, fd, m)
              && after.ledger.dropped == io.ledger.dropped && after.ledger.registered == io.ledger.registered
  {
    hide Core, Total;
    BitLive(io, fd, READ);
    if m.read && Has(io.table[fd].events, READ) {
      ReleaseCore(io, fd, READ, true);
      BitLive(Release(io, fd, READ, true), fd, WRITE);
    } else if !m.read {
      BitLive(io, fd, WRITE);
    }
    var after := if m.read && Has(io.table[fd].events, READ) then Release(io, fd, READ, true) else io;
    if m.write && Has(io.table[fd].events, WRITE) {
      ReleaseCore(after, fd, WRITE, true);
    }
    BitLive(io, fd, WRITE);
  }

  lemma BitLive(io: Io, fd: nat, e: Event)
    requires Core(io) && fd < |io.table|
    ensures LiveKey(io, Key(fd, e)) <==> Has(io.table[fd].events, e)
  {
    CoreRow(io, fd);
    assert Matches(io, Key(fd, e));
    LedgerLive(io.ledger, Key(fd, e));
  }

  /** cancelAll hands over every event of the descriptor. */
  lemma CancelAllKeeps(io: Io, fd: nat, accept: bool)
    requires Consistent(io)
    ensures var r := CancelAll(io, fd, accept);
            && (r.Accepted? <==> accept && fd < |io.table| && io.table[fd].events != NONE)
            && !r.Aborted? && (r.Refused? ==> r.io == io)
            && (r.Accepted? ==> Consistent(r.io) && OnlyRow(io, r.io, fd) && r.io.table[fd].events == NONE
                                && LiveBits(io, fd, io.table[fd].events)
                                && r.io.ledger.handed == io.ledger.handed + Handovers(io, fd, io.table[fd].events)
                                && r.io.ledger.dropped == io.ledger.dropped)
  {
    hide Core, Total, TriggerAll;
    if fd < |io.table| && io.table[fd].events != NONE && accept {
      assert WatchedOk(io, fd);
      var mid := io.(interest := io.interest - {fd});
      CoreAnyInterest(io, io.interest - {fd});
      TriggerKeeps(mid, fd, io.table[fd].events);
      InterestUpdate(io, CancelAll(io, fd, accept).io, fd);
    }
  }

  /** One ready descriptor, whatever has happened to it since epoll_wait: the fired events that are still
      registered are handed over, and no others. As written this ends in a null dereference exactly when
      a part of what fired is registered and another part is not. */
  lemma DispatchKeeps(code: Code, io: Io, fd: nat, fired: Mask, hup: bool, accept: bool)
    requires Consistent(io) && fd < |io.table|
    ensures var r, events := Dispatch(code, io, fd, fired, hup, accept), io.table[fd].events;
            var ready := if hup then events else fired;
            var hit := And(ready, events);
            && (r.Refused? <==> !accept || hit == NONE)
            && (r.Aborted? <==> !r.Refused? && code.AsWritten? && ready != hit)
            && (r.Refused? ==> r.io == io)
            && (r.Accepted? ==> Consistent(r.io) && OnlyRow(io, r.io, fd)
                                && r.io.table[fd].events == Minus(events, ready)
                                && LiveBits(io, fd, hit)
                                && r.io.ledger.handed == io.ledger.handed + Handovers(io, fd, hit)
                                && r.io.ledger.dropped == io.ledger.dropped)
  {
    hide Core, Total, TriggerAll;
    var events := io.table[fd].events;
    var ready := if hup then events else fired;
    assert WatchedOk(io, fd);
    var left := Minus(events, ready);
    var next := Ctl(io.interest, if left != NONE then MOD else DEL, fd, left, accept);
    if And(ready, events) != NONE && next.Some? {
      var m := if code.Intended? then And(ready, events) else ready;
      CoreAnyInterest(io, next.value);
      TriggerKeeps(io.(interest := next.value), fd, m);
      if And(m, events) == m {
        InterestUpdate(io, Dispatch(code, io, fd, fired, hup, accept).io, fd);
      }
    }
  }

  lemma LiveAt(io: Io, fd: nat, e: Event)
    requires LiveKey(io, Key(fd, e))
    ensures Key(fd, e) in io.ledger.live && io.ledger.live[Key(fd, e)] < |io.ledger.fate|
  {
  }

  lemma ReleaseInterest(io: Io, interest: map<nat, Mask>, fd: nat, e: Event, hand: bool)
    requires Core(io) && fd < |io.table| && Has(io.table[fd].events, e)
    ensures LiveKey(io, Key(fd, e)) && LiveKey(io.(interest := interest), Key(fd, e))
    ensures Release(io.(interest := interest), fd, e, hand) == Release(io, fd, e, hand).(interest := interest)
  {
    LiveBit(io, fd, e);
  }
}
