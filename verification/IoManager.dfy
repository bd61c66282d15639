/** The I/O manager: descriptor contexts that are changed in place, the pending counter and the kernel's
    interest set. Each method is proved to be the step on the event table that it stands for. */
module IoManager {
  import opened Common
  import opened IoTable
  import Steps = IoSteps
  import opened IoSteps
  import Runs = IoRuns

  class FdContext {
    const fd: nat
    var events: Mask
    var read: Slot
    var write: Slot

    constructor (fd: nat)
      ensures this.fd == fd && ToRow() == FRESH
    {
      this.fd := fd;
      events, read, write := NONE, EMPTY, EMPTY;
    }

    ghost function ToRow(): Row
      reads this
    {
      Row(events, read, write)
    }

    function GetEventContext(e: Event): (s: Slot)
      reads this
      ensures s == SlotOf(ToRow(), e)
    {
      if e.READ? then read else write
    }

    method SetEventContext(e: Event, s: Slot)
      modifies this
      ensures ToRow() == SetSlot(old(ToRow()), e, s)
    {
      if e.READ? {
        read := s;
      } else {
        write := s;
      }
    }

    /** The bit is cleared, and what the slot holds is moved into a task of its scheduler. */
    method TriggerEvent(e: Event) returns (scheduler: nat, task: Task)
      requires Armed(SlotOf(ToRow(), e))
      modifies this
      ensures scheduler == SlotOf(old(ToRow()), e).scheduler.value && task == TaskOf(SlotOf(old(ToRow()), e))
      ensures ToRow() == SetSlot(old(ToRow()).(events := Without(old(events), e)), e, EMPTY)
    {
      events := Without(events, e);
      var ctx := GetEventContext(e);
      scheduler := ctx.scheduler.value;
      if ctx.cb.Some? {
        task := CbTask(ctx.cb.value);
      } else {
        task := FiberTask(ctx.fiber.value);
      }
      SetEventContext(e, EMPTY);
    }
  }

  ghost function Rows(contexts: seq<FdContext>): (r: seq<Row>)
    reads contexts
    ensures |r| == |contexts| && forall i :: 0 <= i < |r| ==> r[i] == contexts[i].ToRow()
  {
    if contexts == [] then [] else Rows(contexts[..|contexts| - 1]) + [contexts[|contexts| - 1].ToRow()]
  }

  predicate Separate(contexts: seq<FdContext>) {
    forall i, j :: 0 <= i < j < |contexts| ==> contexts[i] != contexts[j]
  }

  predicate Numbered(contexts: seq<FdContext>) {
    forall i :: 0 <= i < |contexts| ==> contexts[i].fd == i
  }

  class IOManager {
    const code: Code
    var contexts: seq<FdContext>
    var pending: nat
    var interest: map<nat, Mask>
    ghost var ledger: Ledger

    ghost function View(): Io
      reads this, contexts
    {
      Io(Rows(contexts), interest, pending, ledger)
    }

    ghost predicate Shape()
      reads this
    {
      |contexts| >= 2 && Separate(contexts) && Numbered(contexts)
    }

    ghost predicate Valid()
      reads this, contexts
    {
      Shape() && Consistent(View())
    }

    constructor (code: Code)
      ensures Valid() && this.code == code && View() == Runs.INIT
      ensures forall c <- contexts :: fresh(c)
    {
      this.code := code;
      contexts, pending, interest, ledger := [], 0, map[], NO_HISTORY;
      new;
      hide Core, InterestOk, Fresh, Numbered;
      NoContexts();
      ContextResize(32);
      assert |contexts| == |View().table|;
      FreshSnoc([], 32);
      assert [] + Fresh(32) == Fresh(32);
      Runs.InitConsistent();
      assert View() == Runs.INIT;
    }

    lemma NoContexts()
      ensures Rows([]) == [] && Separate([]) && Numbered([])
    {
    }

    /** contextResize: a larger size adds new contexts, a smaller one forgets the last. */
    method ContextResize(n: nat)
      requires Separate(contexts) && Numbered(contexts)
      modifies this`contexts
      ensures Separate(contexts) && Numbered(contexts)
      ensures View() == Resize(old(View()), n)
      ensures forall c <- contexts :: c in old(contexts) || fresh(c)
    {
      hide Separate, Fresh;
      if n <= |contexts| {
        SeparatePrefix(contexts, n);
        ghost var rows := Rows(contexts);
        contexts := contexts[..n];
        assert Rows(contexts) == rows[..n];
      } else {
        Extend(n);
      }
    }

    method Extend(n: nat)
      requires Separate(contexts) && Numbered(contexts) && |contexts| < n
      modifies this`contexts
      ensures Separate(contexts) && Numbered(contexts)
      ensures Rows(contexts) == old(Rows(contexts)) + Fresh(n - |old(contexts)|)
      ensures forall c <- contexts :: c in old(contexts) || fresh(c)
    {
      hide Separate, Fresh, Numbered, Rows;
      ghost var table, start, k := Rows(contexts), |contexts|, 0;
      FreshSnoc(table, 0);
      while |contexts| < n
        invariant Separate(contexts) && Numbered(contexts) && start + k == |contexts| <= n
        invariant Rows(contexts) == table + Fresh(k)
        invariant forall c <- contexts :: c in old(contexts) || fresh(c)
      {
        FreshSnoc(table, k);
        AppendContext();
        k := k + 1;
      }
      assert k == n - start;
    }

    method AppendContext()
      requires Separate(contexts) && Numbered(contexts)
      modifies this`contexts
      ensures Separate(contexts) && Numbered(contexts)
      ensures Rows(contexts) == old(Rows(contexts)) + [FRESH]
      ensures |contexts| == |old(contexts)| + 1 && forall c <- contexts :: c in old(contexts) || fresh(c)
    {
      hide Separate;
      ghost var rows := Rows(contexts);
      var c := new FdContext(|contexts|);
      SeparateSnoc(contexts, c);
      contexts := contexts + [c];
      assert Rows(contexts) == rows + [FRESH];
    }

    /** epoll_ctl on m_epfd */
    method EpollCtl(op: Op, fd: nat, m: Mask, accept: bool) returns (rt: int)
      modifies this`interest
      ensures match Ctl(old(interest), op, fd, m, accept)
              case None => rt != 0 && interest == old(interest)
              case Some(i) => rt == 0 && interest == i
    {
      var r := Ctl(interest, op, fd, m, accept);
      if r.Some? {
        interest := r.value;
      }
      rt := if r.Some? then 0 else -1;
    }

    /** The table after its resizing for a descriptor that lies behind its end. */
    static function Enlarged(io: Io, fd: nat): Io {
      if fd < |io.table| then io else Resize(io, fd * 3 / 2)
    }

    /** The lookup of addEvent. */
    method ContextFor(fd: nat) returns (ctx: FdContext)
      requires Valid()
      modifies this`contexts
      ensures Valid() && View() == Enlarged(old(View()), fd)
      ensures fd < |contexts| && ctx == contexts[fd] && forall c <- contexts :: c in old(contexts) || fresh(c)
    {
      hide Consistent, Separate, Resize;
      ghost var before := View();
      if fd >= |contexts| {
        Runs.ResizeKeeps(before, fd * 3 / 2);
        ResizeLength(before, fd * 3 / 2);
        ContextResize(fd * 3 / 2);
        assert |contexts| == |View().table|;
      }
      ctx := contexts[fd];
    }

    /** A row whose context alone was changed. */
    twostate lemma OneRow(fd: nat)
      requires contexts == old(contexts) && fd < |contexts| && Separate(contexts)
      requires forall c <- contexts :: c != contexts[fd] ==> c.ToRow() == old(c.ToRow())
      ensures Rows(contexts) == old(Rows(contexts))[fd := contexts[fd].ToRow()]
    {
    }

    /** The locked part of addEvent. */
    method Arm(fd: nat, e: Event, scheduler: nat, task: Task, accept: bool) returns (rt: int, aborted: bool)
      requires Valid() && fd < |contexts|
      modifies this`pending, this`interest, this`ledger, contexts[fd]
      ensures match Steps.AddEvent(code, old(View()), fd, e, scheduler, task, accept)
              case Accepted(io) => !aborted && rt == 0 && Valid() && View() == io
              case Refused(io) => !aborted && rt == -1 && Valid() && View() == io
              case Aborted => aborted
    {
      hide Consistent, Register, Ctl, Separate, Numbered, SlotOf;
      ghost var before := View();
      AddEventKeeps(code, before, fd, e, scheduler, task, accept);
      var ctx := contexts[fd];
      aborted := false;
      var op := if ctx.events != NONE then MOD else if code.Intended? then ADD else DEL;
      rt := EpollCtl(op, fd, With(ctx.events, e), accept);
      if rt != 0 {
        rt := -1;
        return;
      }
      RegisterBeside(before, fd, e, scheduler, task, interest);
      aborted := ArmSlot(fd, e, scheduler, task);
    }

    /** Registering does not look at what the kernel watches. */
    lemma RegisterBeside(io: Io, fd: nat, e: Event, scheduler: nat, task: Task, interest: map<nat, Mask>)
      requires fd < |io.table|
      ensures Register(io.(interest := interest), fd, e, scheduler, task)
           == Register(io, fd, e, scheduler, task).(interest := interest)
    {
    }

    /** The counter, the bit and the slot; the slot must have been empty. */
    method ArmSlot(fd: nat, e: Event, scheduler: nat, task: Task) returns (aborted: bool)
      requires Shape() && fd < |contexts|
      modifies this`pending, this`ledger, contexts[fd]
      ensures aborted <==> SlotOf(old(contexts[fd].ToRow()), e) != EMPTY
      ensures !aborted ==> Shape() && View() == Register(old(View()), fd, e, scheduler, task)
    {
      hide Record, Numbered;
      var ctx := contexts[fd];
      pending := pending + 1;
      ctx.events := With(ctx.events, e);
      if ctx.GetEventContext(e) != EMPTY {
        return true;
      }
      ctx.SetEventContext(e, IoTable.Arm(scheduler, task));
      ledger := Record(ledger, Key(fd, e), scheduler, task);
      OneRow(fd);
      aborted := false;
    }

    /** addEvent: without a callback the current fiber is what waits. */
    method AddEvent(fd: nat, e: Event, cb: Option<nat>, scheduler: nat, current: nat, accept: bool)
      returns (rt: int, aborted: bool)
      requires Valid()
      modifies this, contexts
      ensures var task := if cb.Some? then CbTask(cb.value) else FiberTask(current);
              match Steps.AddEvent(code, Enlarged(old(View()), fd), fd, e, scheduler, task, accept)
              case Accepted(io) => !aborted && rt == 0 && Valid() && View() == io
              case Refused(io) => !aborted && rt == -1 && Valid() && View() == io
              case Aborted => aborted
    {
      hide Consistent, Separate;
      var ctx := ContextFor(fd);
      assert ctx in contexts;
      rt, aborted := Arm(fd, e, scheduler, if cb.Some? then CbTask(cb.value) else FiberTask(current), accept);
    }

    /** triggerEvent on a row, with the counter: the registration is handed to its scheduler. */
    method Trigger(fd: nat, e: Event)
      requires Shape() && Core(View()) && fd < |contexts| && Has(contexts[fd].events, e)
      modifies this`pending, this`ledger, contexts[fd]
      ensures Shape() && LiveKey(old(View()), Key(fd, e)) && View() == Release(old(View()), fd, e, true)
    {
      hide Core, LedgerOk, Numbered, Total, Hand;
      ghost var before := View();
      LiveBit(before, fd, e);
      CoreRow(before, fd);
      var scheduler, task := contexts[fd].TriggerEvent(e);
      ledger := Hand(ledger, Key(fd, e), scheduler, task);
      pending := pending - 1;
      OneRow(fd);
    }

    /** The two triggering statements at the end of cancelAll and of the dispatch loop. */
    method TriggerMask(fd: nat, m: Mask) returns (aborted: bool)
      requires Shape() && Core(View()) && fd < |contexts|
      modifies this`pending, this`ledger, contexts[fd]
      ensures Shape()
      ensures match TriggerAll(old(View()), fd, m)
              case None => aborted
              case Some(io) => !aborted && View() == io
    {
      hide Core, LedgerOk, Separate, Numbered, Release, LiveKey;
      aborted := false;
      ghost var before := View();
      BitLive(before, fd, READ);
      if m.read {
        if !Has(contexts[fd].events, READ) {
          return true;
        }
        ReleaseCore(before, fd, READ, true);
        Trigger(fd, READ);
      }
      BitLive(View(), fd, WRITE);
      if m.write {
        if !Has(contexts[fd].events, WRITE) {
          return true;
        }
        Trigger(fd, WRITE);
      }
    }

    /** delEvent: the registration is dropped, nothing is triggered. */
    method DelEvent(fd: nat, e: Event, accept: bool) returns (ok: bool)
      requires Valid()
      modifies this`pending, this`interest, this`ledger, contexts
      ensures match RemoveEvent(old(View()), fd, e, false, accept)
              case Accepted(io) => ok && Valid() && View() == io
              case Refused(io) => !ok && Valid() && View() == io
              case Aborted => false
    {
      hide Core, InterestOk, LedgerOk, Release, Ctl, Separate, Numbered, LiveKey, Gone;
      ghost var before := View();
      RemoveEventKeeps(before, fd, e, false, accept);
      if |contexts| <= fd {
        return false;
      }
      var ctx := contexts[fd];
      assert ctx in contexts;
      if !Has(ctx.events, e) {
        return false;
      }
      var left := Without(ctx.events, e);
      var rt := EpollCtl(if left != NONE then MOD else DEL, fd, left, accept);
      if rt != 0 {
        return false;
      }
      CoreAnyInterest(before, interest);
      ReleaseInterest(before, interest, fd, e, false);
      Forget(fd, e);
      return true;
    }

    /** The counter, the bit and the slot, with no handover. */
    method Forget(fd: nat, e: Event)
      requires Shape() && Core(View()) && fd < |contexts| && Has(contexts[fd].events, e)
      modifies this`pending, this`ledger, contexts[fd]
      ensures Shape() && LiveKey(old(View()), Key(fd, e)) && View() == Release(old(View()), fd, e, false)
    {
      hide Core, LedgerOk, Numbered, Total, Drop;
      ghost var before := View();
      LiveBit(before, fd, e);
      LiveAt(before, fd, e);
      ledger := Drop(ledger, Key(fd, e));
      pending := pending - 1;
      contexts[fd].events := Without(contexts[fd].events, e);
      contexts[fd].SetEventContext(e, EMPTY);
      OneRow(fd);
    }

    /** cancelEvent: the registration is triggered. */
    method CancelEvent(fd: nat, e: Event, accept: bool) returns (ok: bool)
      requires Valid()
      modifies this`pending, this`interest, this`ledger, contexts
      ensures match RemoveEvent(old(View()), fd, e, true, accept)
              case Accepted(io) => ok && Valid() && View() == io
              case Refused(io) => !ok && Valid() && View() == io
              case Aborted => false
    {
      hide Core, InterestOk, LedgerOk, Release, Ctl, Separate, Numbered, LiveKey, Gone;
      ghost var before := View();
      RemoveEventKeeps(before, fd, e, true, accept);
      if |contexts| <= fd {
        return false;
      }
      var ctx := contexts[fd];
      assert ctx in contexts;
      if !Has(ctx.events, e) {
        return false;
      }
      var left := Without(ctx.events, e);
      var rt := EpollCtl(if left != NONE then MOD else DEL, fd, left, accept);
      if rt != 0 {
        return false;
      }
      CoreAnyInterest(before, interest);
      ReleaseInterest(before, interest, fd, e, true);
      Trigger(fd, e);
      return true;
    }

    /** cancelAll: every registration of the descriptor is triggered. */
    method CancelAll(fd: nat, accept: bool) returns (ok: bool)
      requires Valid()
      modifies this`pending, this`interest, this`ledger, contexts
      ensures match Steps.CancelAll(old(View()), fd, accept)
              case Accepted(io) => ok && Valid() && View() == io
              case Refused(io) => !ok && Valid() && View() == io
              case Aborted => false
    {
      hide Core, InterestOk, LedgerOk, TriggerAll, Separate, Numbered, Ctl;
      ghost var before := View();
      CancelAllKeeps(before, fd, accept);
      if |contexts| <= fd {
        return false;
      }
      var ctx := contexts[fd];
      assert ctx in contexts;
      if ctx.events == NONE {
        return false;
      }
      var rt := EpollCtl(DEL, fd, NONE, accept);
      if rt != 0 {
        return false;
      }
      CoreAnyInterest(before, interest);
      var aborted := TriggerMask(fd, ctx.events);
      return true;
    }

    /** One turn of the dispatch loop of idle. */
    method DispatchOne(fd: nat, fired: Mask, hup: bool, accept: bool) returns (aborted: bool)
      requires Valid() && fd < |contexts|
      modifies this`pending, this`interest, this`ledger, contexts[fd]
      ensures match Dispatch(code, old(View()), fd, fired, hup, accept)
              case Aborted => aborted
              case r => !aborted && Valid() && View() == r.io
    {
      hide Core, InterestOk, LedgerOk, TriggerAll, Separate, Numbered, Ctl;
      ghost var before := View();
      DispatchKeeps(code, before, fd, fired, hup, accept);
      var ctx := contexts[fd];
      var ready := if hup then ctx.events else fired;
      if And(ready, ctx.events) == NONE {
        return false;
      }
      var left := Minus(ctx.events, ready);
      var rt := EpollCtl(if left != NONE then MOD else DEL, fd, left, accept);
      if rt != 0 {
        return false;
      }
      CoreAnyInterest(before, interest);
      aborted := TriggerMask(fd, if code.Intended? then And(ready, ctx.events) else ready);
    }

    /** The dispatch loop over what epoll_wait has returned is a run of single steps. */
    method DispatchAll(ready: seq<Runs.Step>) returns (aborted: bool)
      requires Valid() && forall s <- ready :: s.Ready? && s.fd < |contexts|
      modifies this`pending, this`interest, this`ledger, contexts
      ensures match Runs.Exec(code, old(View()), ready)
              case None => aborted
              case Some(io) => !aborted && Valid() && View() == io
    {
      hide Consistent, Dispatch, Separate, Numbered;
      var i := 0;
      ghost var before := View();
      while i < |ready|
        invariant 0 <= i <= |ready| && Valid()
        invariant Runs.Exec(code, before, ready[..i]) == Some(View())
      {
        var s := ready[i];
        assert contexts[s.fd] in contexts && |View().table| == |contexts|;
        assert ready[..i + 1][..i] == ready[..i];
        ghost var mid := View();
        aborted := DispatchOne(s.fd, s.fired, s.hup, s.accept);
        assert Runs.Exec(code, before, ready[..i + 1]) == Runs.Apply(code, mid, s);
        if aborted {
          Runs.DeadStays(code, before, ready, i + 1);
          return;
        }
        i := i + 1;
      }
      assert ready[..i] == ready;
      aborted := false;
    }

    /** IOManager::stopping, given what Scheduler::stopping answers. */
    method Stopping(schedulerStopping: bool) returns (r: bool)
      requires Valid()
      ensures r <==> schedulerStopping && View().ledger.live == map[]
    {
      r := pending == 0 && schedulerStopping;
      Runs.NothingPending(View());
    }
  }

  lemma ResizeLength(io: Io, n: nat)
    ensures |Resize(io, n).table| == n
  {
  }

  lemma FreshSnoc(table: seq<Row>, n: nat)
    ensures table + Fresh(0) == table && table + Fresh(n) + [FRESH] == table + Fresh(n + 1)
  {
  }

  lemma SeparatePrefix(contexts: seq<FdContext>, n: nat)
    requires Separate(contexts) && n <= |contexts|
    ensures Separate(contexts[..n])
  {
  }

  lemma SeparateSnoc(contexts: seq<FdContext>, c: FdContext)
    requires Separate(contexts) && c !in contexts
    ensures Separate(contexts + [c])
  {
  }
}
