/** Timers and their manager: a set that is ordered by keys which its elements carry and which change. */
module Timers {
  import opened Common
  import opened TimerSet

  class Timer {
    /** The address of the timer, by which the comparator breaks ties. */
    const id: nat
    const recurring: bool
    const manager: TimerManager
    var ms: nat
    var next: nat
    var cb: Option<nat>

    constructor (manager: TimerManager, id: nat, ms: nat, cb: nat, recurring: bool, now: nat)
      ensures this.manager == manager && this.id == id && this.recurring == recurring
      ensures this.ms == ms && this.cb == Some(cb) && next == (now + ms) % UINT64_MODULUS
    {
      this.manager, this.id, this.recurring := manager, id, recurring;
      this.ms, this.cb, next := ms, Some(cb), (now + ms) % UINT64_MODULUS;
    }

    ghost function Key(): Key
      reads this
    {
      TimerSet.Key(next, id)
    }

    method Cancel() returns (ok: bool)
      requires manager.Valid() && this in manager.all
      modifies this`cb, manager`timers
      ensures manager.Valid() && (ok <==> old(cb).Some?) && cb == None
      ensures forall u :: u in manager.timers <==> u in old(manager.timers) && u != this
      ensures old(manager.Awake()) ==> manager.Awake()
      ensures old(manager.Timely()) ==> manager.Timely()
    {
      hide Keys, Sorted, TimerManager.Identities, TimerManager.Apart;
      if cb.Some? {
        ghost var keys := Keys(manager.timers);
        cb := None;
        assert Keys(manager.timers) == keys;
        manager.FewerApart(manager.timers, manager.timers);
        var p := manager.Find(this);
        manager.Erase(p);
        manager.FewerApart(old(manager.timers), manager.timers);
        ok := true;
      } else {
        ok := false;
      }
    }

    /** The deadline is counted anew from now; a timer that has no callback is not in the set and stays so. */
    method Refresh(now: nat) returns (ok: bool)
      requires manager.Valid() && this in manager.all
      modifies this`next, this`ms, manager`timers, manager`clock
      ensures manager.Valid() && (ok <==> cb.Some?) && ms == old(ms)
      ensures next == if ok then (now + ms) % UINT64_MODULUS else old(next)
      ensures forall u :: u in manager.timers <==> u in old(manager.timers)
      ensures manager.clock == now
      ensures old(manager.Timely()) && old(manager.clock) <= now && now + ms < UINT64_MODULUS
          ==> manager.Timely() && (old(manager.Awake()) ==> manager.Awake())
    {
      hide Keys, Sorted, TimerManager.Identities, TimerManager.Apart;
      manager.clock := now;
      if cb == None {
        return false;
      }
      Requeue(now);
      return true;
    }

    /** The timer is taken out of the set, given its new deadline and put back. */
    method Requeue(start: nat)
      requires manager.Valid() && this in manager.all && cb.Some?
      modifies this`next, this`ms, manager`timers
      ensures manager.Valid() && ms == old(ms) && next == (start + ms) % UINT64_MODULUS
      ensures forall u :: u in manager.timers <==> u in old(manager.timers)
      ensures old(manager.timers) != [] && old(manager.timers[0].next) <= old(next)
      ensures manager.timers != []
      ensures manager.timers[0] == this || old(manager.timers[0].next) <= manager.timers[0].next
    {
      hide Keys, Sorted, TimerManager.Identities, TimerManager.Apart;
      var found := Detach();
      SetDeadline(ms, start);
      var p := manager.Insert(this);
    }

    /** The same for a new period, with a wake-up if the timer comes to the front. */
    method Restart(newMs: nat, start: nat)
      requires manager.Valid() && this in manager.all && cb.Some?
      modifies this`next, this`ms, manager`timers, manager`tickled, manager`notified
      ensures manager.Valid() && ms == newMs && next == (start + newMs) % UINT64_MODULUS
      ensures forall u :: u in manager.timers <==> u in old(manager.timers)
      ensures manager.timers != [] && (manager.tickled <==> old(manager.tickled) || manager.timers[0] == this)
      ensures old(manager.timers) != []
      ensures manager.timers[0] == this || old(manager.timers[0].next) <= manager.timers[0].next
    {
      hide Keys, Sorted, TimerManager.Identities, TimerManager.Apart;
      var found := Detach();
      SetDeadline(newMs, start);
      manager.AddLocked(this);
    }

    /** find and erase */
    method Detach() returns (found: bool)
      requires manager.Valid() && this in manager.all && cb.Some?
      modifies manager`timers
      ensures found && this !in manager.timers && Sorted(Keys(manager.timers))
      ensures forall u :: u in manager.timers <==> u in old(manager.timers) && u != this
      ensures old(manager.timers) != [] && old(manager.timers[0].next) <= next
      ensures manager.timers != [] ==> old(manager.timers[0].next) <= manager.timers[0].next
      ensures TimerManager.Apart(manager.timers, this) && TimerManager.Identities(manager.timers)
    {
      hide Keys, Sorted, TimerManager.Identities, TimerManager.Apart;
      manager.FewerApart(manager.timers, manager.timers);
      var p := manager.Find(this);
      if p == |manager.timers| {
        return false;
      }
      manager.Erase(p);
      manager.FewerApart(old(manager.timers), manager.timers);
      found := true;
    }

    method SetDeadline(newMs: nat, start: nat)
      requires this !in manager.timers
      modifies this`next, this`ms
      ensures ms == newMs && next == (start + newMs) % UINT64_MODULUS
      ensures Keys(manager.timers) == old(Keys(manager.timers))
    {
      hide Keys;
      ghost var keys := Keys(manager.timers);
      ms := newMs;
      next := (start + ms) % UINT64_MODULUS;
      assert Keys(manager.timers) == keys;
    }

    /** A new period, counted from now or from where the present one was started. */
    method Reset(newMs: nat, fromNow: bool, now: nat) returns (ok: bool)
      requires manager.Valid() && this in manager.all
      modifies this`next, this`ms, manager`timers, manager`clock, manager`tickled, manager`notified
      ensures manager.Valid() && (ok <==> old(cb).Some? || (newMs == old(ms) && !fromNow)) && manager.clock == now
      ensures forall u :: u in manager.timers <==> u in old(manager.timers)
      ensures if cb == None || (newMs == old(ms) && !fromNow)
              then ms == old(ms) && next == old(next) && manager.tickled == old(manager.tickled)
              else var start := if fromNow then now else (old(next) - old(ms)) % UINT64_MODULUS;
                   ms == newMs && next == (start + newMs) % UINT64_MODULUS
                   && (manager.tickled <==> old(manager.tickled) || manager.timers[0] == this)
      ensures old(manager.Awake()) ==> manager.Awake()
      ensures old(manager.Timely()) && old(manager.clock) <= now && now + newMs < UINT64_MODULUS ==> manager.Timely()
    {
      hide Keys, Sorted, TimerManager.Identities, TimerManager.Apart;
      manager.clock := now;
      if newMs == ms && !fromNow {
        return true;
      }
      if cb == None {
        return false;
      }
      Restart(newMs, if fromNow then now else (next - ms) % UINT64_MODULUS);
      return true;
    }
  }

  ghost function Keys(timers: seq<Timer>): (r: seq<Key>)
    reads timers
    ensures |r| == |timers| && forall i :: 0 <= i < |r| ==> r[i] == timers[i].Key()
  {
    if timers == [] then [] else Keys(timers[..|timers| - 1]) + [timers[|timers| - 1].Key()]
  }

  ghost function Callbacks(timers: seq<Timer>): (r: seq<nat>)
    requires forall t <- timers :: t.cb.Some?
    reads timers
    ensures |r| == |timers| && forall i :: 0 <= i < |r| ==> Some(r[i]) == timers[i].cb
  {
    if timers == [] then [] else Callbacks(timers[..|timers| - 1]) + [timers[|timers| - 1].cb.value]
  }

  lemma KeysConcat(a: seq<Timer>, b: seq<Timer>)
    ensures Keys(a + b) == Keys(a) + Keys(b)
  {
    hide Keys;
  }

  lemma KeysInsert(timers: seq<Timer>, t: Timer, p: nat)
    requires p <= |timers|
    ensures Keys(timers[..p] + [t] + timers[p..]) == Keys(timers)[..p] + [t.Key()] + Keys(timers)[p..]
  {
    hide Keys;
    KeysConcat(timers[..p] + [t], timers[p..]);
    KeysConcat(timers[..p], [t]);
    KeysSlice(timers, p);
    KeysOne(t);
  }

  lemma KeysOne(t: Timer)
    ensures Keys([t]) == [t.Key()]
  {
    assert Keys([]) == [];
  }

  lemma KeysSlice(timers: seq<Timer>, p: nat)
    requires p <= |timers|
    ensures Keys(timers[..p]) == Keys(timers)[..p] && Keys(timers[p..]) == Keys(timers)[p..]
  {
    hide Keys;
  }

  class TimerManager {
    const code: Code
    var timers: seq<Timer>
    var tickled: bool
    var previousTime: nat
    /** Every timer that was ever added. */
    ghost var all: set<Timer>
    /** The deadline getNextTimer saw last, and the calls of onTimerInsertAtFront since then. */
    ghost var reported: Option<nat>
    ghost var notified: nat
    /** The latest time any operation has read. */
    ghost var clock: nat

    /** The set is strictly sorted, and a timer is in it exactly when it has a callback. */
    ghost predicate Valid()
      reads this, all, timers
    {
      && Sorted(Keys(timers)) && Members() && Identities(timers)
      && notified == (if tickled then 1 else 0)
    }

    ghost predicate Members()
      reads this, all
    {
      && (forall t <- timers :: t in all)
      && (forall t <- all :: t.manager == this && (t.cb.Some? <==> t in timers))
    }

    /** Different timers of the set have different addresses. A timer that has left it may have been freed,
        and its address may be in use again. */
    static predicate Identities(ts: seq<Timer>) {
      forall t <- ts :: Apart(ts, t)
    }

    /** No other timer of the set has the address of t. */
    static predicate Apart(ts: seq<Timer>, t: Timer) {
      forall u <- ts :: u.id == t.id ==> u == t
    }

    lemma OneMoreApart(a: seq<Timer>, b: seq<Timer>, t: Timer)
      requires Apart(a, t) && forall u <- b :: u == t || u in a
      ensures Identities(a) ==> Identities(b)
    {
    }

    lemma FewerApart(a: seq<Timer>, b: seq<Timer>)
      requires Identities(a) && forall u <- b :: u in a
      ensures Identities(b) && forall t <- a :: Apart(b, t)
    {
    }

    constructor (code: Code, now: nat)
      ensures Valid() && this.code == code && timers == [] && all == {} && !tickled && previousTime == now
      ensures Awake() && Timely()
    {
      this.code, timers, tickled, previousTime := code, [], false, now;
      all, reported, notified, clock := {}, None, 0, now;
    }

    /** While no wake-up is under way, no deadline is earlier than the one reported last. */
    ghost predicate Awake()
      reads this, timers
    {
      !tickled ==> timers == [] || (reported.Some? && reported.value <= timers[0].next)
    }

    /** No deadline lies farther ahead than its period, seen from the clock. */
    ghost predicate Timely()
      reads this, timers
    {
      previousTime <= clock && forall t <- timers :: t.ms <= t.next <= clock + t.ms
    }

    // ------------------------------------------------------------------ std::set

    /** lower_bound */
    method LowerBound(k: Key) returns (p: nat)
      requires Sorted(Keys(timers))
      ensures Bound(Keys(timers), k, p)
    {
      p := 0;
      while p < |timers| && Less(TimerSet.Key(timers[p].next, timers[p].id), k)
        invariant p <= |timers| && forall i :: 0 <= i < p ==> Less(Keys(timers)[i], k)
      {
        p := p + 1;
      }
      forall i | p <= i < |timers| ensures !Less(Keys(timers)[i], k) {
        assert i == p || Less(Keys(timers)[p], Keys(timers)[i]);
      }
    }

    /** find: the position of an equivalent element, or the end. */
    method Find(t: Timer) returns (p: nat)
      requires Sorted(Keys(timers)) && Apart(timers, t)
      ensures if t in timers then p < |timers| && timers[p] == t && timers[0].next <= t.next else p == |timers|
      ensures Sorted(Keys(timers))
    {
      p := LowerBound(TimerSet.Key(t.next, t.id));
      Located(t, p);
      if p < |timers| && Less(TimerSet.Key(t.next, t.id), TimerSet.Key(timers[p].next, timers[p].id)) {
        p := |timers|;
      }
    }

    lemma Located(t: Timer, p: nat)
      requires Sorted(Keys(timers)) && Apart(timers, t)
      requires Bound(Keys(timers), t.Key(), p)
      ensures t in timers ==> p < |timers| && timers[p] == t && timers[0].next <= t.next
      ensures p < |timers| && timers[p].Key() == t.Key() ==> timers[p] == t
    {
      if t in timers {
        var j :| 0 <= j < |timers| && timers[j] == t;
        var there, here, first := Keys(timers)[j], Keys(timers)[p], Keys(timers)[0];
        assert (j == p || Less(here, there)) && (j == 0 || Less(first, there));
      }
    }

    /** erase at an iterator */
    method Erase(p: nat)
      requires p < |timers| && Sorted(Keys(timers))
      modifies this`timers
      ensures timers == old(timers[..p] + timers[p + 1..]) && Sorted(Keys(timers))
      ensures forall u :: u in timers <==> u in old(timers) && u != old(timers)[p]
      ensures timers != [] ==> old(timers[0].next) <= timers[0].next
    {
      hide Keys;
      ghost var keys := Keys(timers);
      EraseSorted(keys, p);
      forall i | 0 <= i < |timers| && i != p ensures timers[i] != timers[p] {
        assert Less(keys[i], keys[p]) || Less(keys[p], keys[i]);
      }
      assert |keys| > 1 ==> Less(keys[0], keys[1]);
      timers := timers[..p] + timers[p + 1..];
      assert Keys(timers) == keys[..p] + keys[p + 1..];
    }

    /** insert: the new element goes where the order puts it. */
    method Insert(t: Timer) returns (p: nat)
      requires Sorted(Keys(timers)) && Apart(timers, t) && t !in timers
      modifies this`timers
      ensures p <= |old(timers)| && timers == old(timers[..p] + [t] + timers[p..]) && Sorted(Keys(timers))
      ensures p > 0 ==> Less(old(timers)[0].Key(), t.Key())
      ensures Identities(old(timers)) ==> Identities(timers)
    {
      hide Keys;
      p := LowerBound(TimerSet.Key(t.next, t.id));
      KeysInsert(timers, t, p);
      InsertSorted(Keys(timers), t.Key(), p);
      timers := timers[..p] + [t] + timers[p..];
      OneMoreApart(old(timers), timers, t);
    }

    /** addTimer under the lock: the first insertion at the front since getNextTimer wakes the waiter. */
    method AddLocked(t: Timer)
      requires Sorted(Keys(timers)) && Apart(timers, t) && t !in timers
      requires notified == (if tickled then 1 else 0)
      modifies this`timers, this`tickled, this`notified
      ensures Sorted(Keys(timers)) && notified == (if tickled then 1 else 0)
      ensures forall u :: u in timers <==> u == t || u in old(timers)
      ensures Identities(old(timers)) ==> Identities(timers)
      ensures timers[0] == t || (old(timers) != [] && timers[0] == old(timers)[0])
      ensures tickled <==> old(tickled) || timers[0] == t
    {
      hide Keys, Sorted;
      var p := Insert(t);
      var atFront := p == 0 && !tickled;
      if atFront {
        tickled := true;
        notified := notified + 1;
      }
    }

    /** addTimer: the only effects are one more timer and possibly a wake-up. */
    method AddTimer(ms: nat, cb: nat, recurring: bool, now: nat, id: nat) returns (t: Timer)
      requires Valid() && forall u <- timers :: u.id != id
      modifies this
      ensures Valid() && fresh(t) && all == old(all) + {t} && previousTime == old(previousTime)
      ensures t.id == id && t.recurring == recurring && t.ms == ms && t.cb == Some(cb)
      ensures t.next == (now + ms) % UINT64_MODULUS
      ensures forall u :: u in timers <==> u == t || u in old(timers)
      ensures tickled <==> old(tickled) || timers[0] == t
      ensures reported == old(reported) && (old(Awake()) ==> Awake())
      ensures clock == now && (old(Timely()) && old(clock) <= now && now + ms < UINT64_MODULUS ==> Timely())
    {
      hide Sorted, Less, Keys, Identities;
      t := new Timer(this, id, ms, cb, recurring, now);
      all := all + {t};
      clock := now;
      AddLocked(t);
    }

    /** getNextTimer: how long the waiter may sleep. */
    method GetNextTimer(now: nat) returns (wait: nat)
      requires Valid()
      modifies this`tickled, this`notified, this`reported, this`clock
      ensures Valid() && !tickled && clock == now && Awake()
      ensures reported == if timers == [] then None else Some(timers[0].next)
      ensures wait == if timers == [] then UINT64_MODULUS - 1
                      else if now > timers[0].next then 0 else timers[0].next - now
      ensures old(Timely()) && old(clock) <= now ==> Timely()
    {
      hide Keys, Sorted, Identities;
      tickled, notified, clock := false, 0, now;
      reported := None;
      if |timers| == 0 {
        return UINT64_MODULUS - 1;
      }
      reported := Some(timers[0].next);
      return if now > timers[0].next then 0 else timers[0].next - now;
    }

    /** detectClockRollover: the subtraction of an hour is unsigned. */
    method DetectClockRollover(now: nat) returns (rollover: bool)
      modifies this`previousTime
      ensures previousTime == now
      ensures rollover <==> now < old(previousTime) && now < (old(previousTime) - 3_600_000) % UINT64_MODULUS
    {
      rollover := now < previousTime && now < (previousTime - 60 * 60 * 1000) % UINT64_MODULUS;
      previousTime := now;
    }

    /** Which prefix of the set has expired. */
    method SelectExpired(now: nat, probe: nat) returns (n: nat, rollover: bool)
      requires Sorted(Keys(timers)) && timers != []
      modifies this`previousTime
      ensures previousTime == now && n <= |timers| && Sorted(Keys(timers)) && Keys(timers) == old(Keys(timers))
      ensures rollover <==> now < old(previousTime) && now < (old(previousTime) - 3_600_000) % UINT64_MODULUS
      ensures rollover ==> n == |timers|
      ensures !rollover && code.Intended? ==> ExactlyDue(Keys(timers), now, n)
      ensures !rollover && code.AsWritten?
          ==> (ExactlyDue(Keys(timers), now, n) <==> WrittenIsExact(Keys(timers), probe, now))
    {
      hide Keys;
      ghost var keys := Keys(timers);
      rollover := DetectClockRollover(now);
      assert Keys(timers) == keys;
      if !rollover && (if code.Intended? then timers[0].next > now else timers[0].next == now) {
        n := 0;
        NothingDue(keys, now);
        if code.AsWritten? {
          WrittenExactIff(keys, probe, now, 0);
        }
        return;
      }
      var key := TimerSet.Key(if code.Intended? then now else 0, probe);
      if rollover {
        n := |timers|;
      } else {
        n := LowerBound(key);
      }
      ghost var p := n;
      while n < |timers| && timers[n].next == now
        invariant p <= n <= |timers| && (rollover ==> n == |timers|)
        invariant forall i :: p <= i < n ==> keys[i].next == now
      {
        n := n + 1;
      }
      if !rollover {
        assert SelectedFrom(keys, now, p, n);
        if code.Intended? {
          ProbeIsExact(keys, probe, now, n);
        } else {
          WrittenExactIff(keys, probe, now, n);
        }
      }
    }

    lemma NothingDue(keys: seq<Key>, now: nat)
      requires Sorted(keys) && keys != []
      ensures keys[0].next > now ==> ExactlyDue(keys, now, 0)
    {
      forall i | 0 < i < |keys| ensures keys[i].next >= keys[0].next {
        assert Less(keys[0], keys[i]);
      }
    }

    /** One expired timer: its callback is collected; it is armed again or retired. */
    method Fire(t: Timer, now: nat) returns (cb: nat)
      requires Sorted(Keys(timers)) && Apart(timers, t) && t !in timers && t.cb.Some?
      modifies this`timers, t`next, t`cb
      ensures cb == old(t.cb).value && Sorted(Keys(timers))
      ensures forall u :: u in timers <==> u in old(timers) || (u == t && t.recurring)
      ensures if t.recurring then t.cb == old(t.cb) && t.next == (now + t.ms) % UINT64_MODULUS
              else t.cb == None && t.next == old(t.next)
    {
      hide Keys;
      ghost var keys := Keys(timers);
      cb := t.cb.value;
      if t.recurring {
        t.next := (now + t.ms) % UINT64_MODULUS;
        assert Keys(timers) == keys;
        var p := Insert(t);
      } else {
        t.cb := None;
        assert Keys(timers) == keys;
      }
    }

    /** What has become of a timer that expired at `now` with callback c. */
    ghost predicate Fired(t: Timer, now: nat, c: nat)
      reads this, t
    {
      if t.recurring then t in timers && t.cb == Some(c) && t.next == (now + t.ms) % UINT64_MODULUS
      else t !in timers && t.cb == None
    }

    /** listExpiredCb: the callbacks of the expired timers in deadline order. The recurring ones are armed
        again, the others are retired, and no other timer is touched. */
    method ListExpired(now: nat, probe: nat) returns (cbs: seq<nat>, ghost rollover: bool)
      requires Valid()
      modifies this`timers, this`previousTime, this`clock, timers
      ensures Valid() && clock == now && |cbs| <= |old(timers)|
      ensures previousTime == if old(timers) == [] then old(previousTime) else now
      ensures old(timers) != [] ==>
                (rollover <==> now < old(previousTime) && now < (old(previousTime) - 3_600_000) % UINT64_MODULUS)
      ensures rollover ==> |cbs| == |old(timers)|
      ensures !rollover && code.Intended? ==> ExactlyDue(old(Keys(timers)), now, |cbs|)
      ensures !rollover && code.AsWritten? && old(timers) != []
          ==> (ExactlyDue(old(Keys(timers)), now, |cbs|) <==> WrittenIsExact(old(Keys(timers)), probe, now))
      ensures forall i :: 0 <= i < |cbs| ==> Some(cbs[i]) == old(timers[i].cb) && Fired(old(timers)[i], now, cbs[i])
      ensures forall i :: |cbs| <= i < |old(timers)| ==> Untouched(old(timers)[i]) && old(timers)[i] in timers
      ensures forall t <- timers :: t in old(timers)
      ensures forall t <- all :: t.ms == old(t.ms)
      ensures old(Timely()) && old(clock) <= now && (forall t <- timers :: now + t.ms < UINT64_MODULUS)
          ==> Timely() && (old(Awake()) ==> Awake())
    {
      hide Keys, Sorted, ExactlyDue, WrittenIsExact, Identities, Awake, Timely;
      clock, rollover, cbs := now, false, [];
      if |timers| == 0 {
        EmptyDue(Keys(timers), now);
      } else {
        var n;
        n, rollover := SelectExpired(now, probe);
        cbs := FireAll(n, now);
      }
      NoLater();
    }

    /** Two calls of listExpiredCb, the second with the timers that the first has left. The second compares its
        time with that of the first: it sees a rollover exactly if its own lies before that, and before that less
        an hour in 64 bits. Then it returns all that is left, and otherwise exactly what is due. */
    method ListTwice(first: nat, second: nat, probe: nat)
      returns (cbs: seq<nat>, more: seq<nat>, ghost left: seq<Key>, ghost rollover: bool)
      requires Valid() && timers != []
      modifies this`timers, this`previousTime, this`clock, timers
      ensures Valid() && |more| <= |left|
      ensures left != [] ==>
                (rollover <==> second < first && second < (first - 3_600_000) % UINT64_MODULUS)
                && previousTime == second
      ensures rollover ==> |more| == |left|
      ensures !rollover && code.Intended? ==> ExactlyDue(left, second, |more|)
    {
      hide Keys, Sorted, ExactlyDue, WrittenIsExact, Identities, Awake, Timely, Fired;
      cbs, rollover := ListExpired(first, probe);
      left := Keys(timers);
      forall i | 0 <= i < |timers| ensures timers[i] in old(timers) {}
      more, rollover := ListExpired(second, probe);
    }

    /** Under a clock that does not run back no deadline moves forward. */
    twostate lemma NoLater()
      requires Sorted(old(Keys(timers))) && tickled == old(tickled) && reported == old(reported)
      requires previousTime == if old(timers) == [] then old(previousTime) else clock
      requires forall t <- timers :: t in old(timers) && t.ms == old(t.ms)
      requires forall t <- timers :: Untouched(t) || t.next == (clock + t.ms) % UINT64_MODULUS
      ensures old(Timely()) && old(clock) <= clock && (forall t <- timers :: clock + t.ms < UINT64_MODULUS)
          ==> Timely() && (old(Awake()) ==> Awake())
    {
      hide Keys;
      if old(Timely()) && old(clock) <= clock && (forall t <- timers :: clock + t.ms < UINT64_MODULUS) {
        forall t <- timers ensures t.ms <= t.next <= clock + t.ms && old(timers[0].next) <= t.next {
          var i :| 0 <= i < |old(timers)| && old(timers)[i] == t;
          ghost var first, here := old(Keys(timers))[0], old(Keys(timers))[i];
          assert first == old(timers[0].Key()) && here == old(t.Key());
          assert i == 0 || Less(first, here);
          assert old(t.ms) <= old(t.next) <= old(clock) + old(t.ms);
          if !Untouched(t) {
            SmallMod(clock + t.ms);
          }
        }
        assert timers != [] ==> timers[0] in timers && old(timers[0].next) <= timers[0].next;
      }
    }

    lemma SmallMod(x: nat)
      requires x < UINT64_MODULUS
      ensures x % UINT64_MODULUS == x
    {
    }

    twostate predicate Untouched(t: Timer)
      reads t
    {
      t.next == old(t.next) && t.cb == old(t.cb)
    }

    lemma EmptyDue(keys: seq<Key>, now: nat)
      requires keys == []
      ensures ExactlyDue(keys, now, 0)
    {
    }

    /** The collecting loop after j of its turns: was[i] is the callback expired[i] had. */
    ghost predicate Progress(expired: seq<Timer>, later: seq<Timer>, was: seq<nat>, j: nat, now: nat)
      reads this, all, timers, expired
      requires |was| == |expired|
    {
      && Sorted(Keys(timers))
      && (forall i :: 0 <= i < j <= |expired| ==> Fired(expired[i], now, was[i]))
      && (forall i :: 0 <= j <= i < |expired| ==> expired[i].cb == Some(was[i]) && expired[i] !in timers)
      && (forall t <- later :: t in timers)
      && (forall t <- timers :: t in all && (t in expired || t in later))
      && (forall t <- all :: t !in expired ==> (t.cb.Some? <==> t in timers))
    }

    static predicate Distinct(s: seq<Timer>) {
      forall i, j :: 0 <= i < j < |s| ==> s[i] != s[j]
    }

    method FireOne(expired: seq<Timer>, ghost later: seq<Timer>, ghost was: seq<nat>, j: nat, now: nat)
      returns (cb: nat)
      requires |was| == |expired| && j < |expired| && Progress(expired, later, was, j, now)
      requires Identities(expired + later) && Distinct(expired) && forall t <- expired :: t in all
      modifies this`timers, expired[j]
      ensures Progress(expired, later, was, j + 1, now) && cb == was[j] && expired[j].ms == old(expired[j].ms)
    {
      hide Keys, Sorted, Identities;
      assert Apart(timers, expired[j]) by { FewerApart(expired + later, timers); }
      cb := Fire(expired[j], now);
    }

    method FireAll(n: nat, now: nat) returns (cbs: seq<nat>)
      requires Valid() && n <= |timers|
      modifies this`timers, timers[..n]
      ensures Valid() && |cbs| == n
      ensures forall i :: 0 <= i < n ==> Some(cbs[i]) == old(timers[i].cb) && Fired(old(timers)[i], now, cbs[i])
      ensures forall i :: n <= i < |old(timers)| ==> old(timers)[i] in timers && old(timers)[i] !in old(timers)[..n]
      ensures forall t <- timers :: t in old(timers)
      ensures forall t <- all :: t.ms == old(t.ms)
    {
      hide Keys, Sorted, Identities, Progress, Distinct, Fired, Callbacks;
      var expired := timers[..n];
      ghost var later, was := timers[n..], Callbacks(expired);
      Cut(n);
      assert expired + later == timers;
      timers := timers[n..];
      cbs := [];
      StartFiring(expired, later, was, now);
      while |cbs| < n
        invariant |cbs| <= n && Progress(expired, later, was, |cbs|, now)
        invariant forall i :: 0 <= i < |cbs| ==> cbs[i] == was[i]
        invariant forall t <- all :: t.ms == old(t.ms)
      {
        var cb := FireOne(expired, later, was, |cbs|, now);
        cbs := cbs + [cb];
      }
      EndFiring(expired, later, was, now);
      FewerApart(expired + later, timers);
    }

    lemma Cut(n: nat)
      requires Sorted(Keys(timers)) && n <= |timers|
      ensures Sorted(Keys(timers[n..])) && Distinct(timers[..n])
      ensures forall i, j :: 0 <= i < n <= j < |timers| ==> timers[i] != timers[j]
    {
      hide Keys;
      KeysSlice(timers, n);
      forall i, j | 0 <= i < j < |timers| ensures timers[i] != timers[j] {
        assert Less(Keys(timers)[i], Keys(timers)[j]);
      }
    }

    lemma StartFiring(expired: seq<Timer>, later: seq<Timer>, was: seq<nat>, now: nat)
      requires |was| == |expired| && timers == later && Sorted(Keys(timers))
      requires forall i :: 0 <= i < |expired| ==> expired[i].cb == Some(was[i]) && expired[i] !in timers
      requires (forall t <- timers :: t in all) && forall t <- all :: t.cb.Some? <==> t in expired + later
      ensures Progress(expired, later, was, 0, now)
    {
    }

    lemma EndFiring(expired: seq<Timer>, later: seq<Timer>, was: seq<nat>, now: nat)
      requires |was| == |expired| && Progress(expired, later, was, |expired|, now)
      requires forall t <- all :: t.manager == this
      ensures Sorted(Keys(timers)) && Members()
      ensures forall i :: 0 <= i < |expired| ==> Fired(expired[i], now, was[i])
      ensures (forall t <- later :: t in timers) && (forall t <- timers :: t in expired + later)
    {
    }
  }
}
