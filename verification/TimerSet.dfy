/** The order of the timer set and positions in it, on keys alone. */
module TimerSet {

  /** What the comparator looks at: the deadline, then the address. */
  datatype Key = Key(next: nat, id: nat)

  predicate Less(a: Key, b: Key) { a.next < b.next || (a.next == b.next && a.id < b.id) }

  predicate Sorted(s: seq<Key>) {
    forall i, j :: 0 <= i < j < |s| ==> Less(s[i], s[j])
  }

  /** p is where k belongs: before the first element that is not less. */
  predicate Bound(s: seq<Key>, k: Key, p: nat) {
    p <= |s| && (forall i :: 0 <= i < p ==> Less(s[i], k)) && (forall i :: p <= i < |s| ==> !Less(s[i], k))
  }

  lemma InsertSorted(s: seq<Key>, k: Key, p: nat)
    requires Sorted(s) && Bound(s, k, p) && k !in s
    ensures Sorted(s[..p] + [k] + s[p..])
  {
  }

  lemma EraseSorted(s: seq<Key>, p: nat)
    requires Sorted(s) && p < |s|
    ensures Sorted(s[..p] + s[p + 1..])
  {
  }

  /** The first n keys are due at `now` and the others are not. */
  predicate ExactlyDue(s: seq<Key>, now: nat, n: nat) {
    n <= |s| && (forall i :: 0 <= i < n ==> s[i].next <= now) && (forall i :: n <= i < |s| ==> s[i].next > now)
  }

  /** The keys in front of the probe, and with them the following ones that are due right now. */
  ghost predicate Selected(s: seq<Key>, probe: Key, now: nat, n: nat) {
    exists p :: Bound(s, probe, p) && SelectedFrom(s, now, p, n)
  }

  predicate SelectedFrom(s: seq<Key>, now: nat, p: nat, n: nat) {
    && p <= n <= |s| && (forall i :: p <= i < n ==> s[i].next == now) && (n < |s| ==> s[n].next != now)
  }

  /** With a probe for `now` the selection is exact whatever the addresses are. */
  lemma ProbeIsExact(s: seq<Key>, id: nat, now: nat, n: nat)
    requires Sorted(s) && Selected(s, Key(now, id), now, n)
    ensures ExactlyDue(s, now, n)
  {
    var p :| Bound(s, Key(now, id), p) && SelectedFrom(s, now, p, n);
    if n < |s| {
      forall i | n <= i < |s| ensures s[i].next > now {
        assert i == n || Less(s[n], s[i]);
      }
    }
  }

  /** As written the probe has deadline 0, and the loop is not even reached when the first deadline is now:
      the selection is exact only if nothing is due, or all that is due is due now or, in front of the
      probe's address, at time 0. */
  predicate WrittenIsExact(s: seq<Key>, id: nat, now: nat) {
    || (forall i :: 0 <= i < |s| ==> s[i].next > now)
    || (s[0].next != now && forall i :: 0 <= i < |s| && s[i].next <= now ==> s[i].next == now || Less(s[i], Key(0, id)))
  }

  lemma WrittenExactIff(s: seq<Key>, id: nat, now: nat, n: nat)
    requires Sorted(s) && s != []
    requires if s[0].next == now then n == 0 else Selected(s, Key(0, id), now, n)
    ensures ExactlyDue(s, now, n) <==> WrittenIsExact(s, id, now)
  {
    if s[0].next != now {
      var p :| Bound(s, Key(0, id), p) && SelectedFrom(s, now, p, n);
      if ExactlyDue(s, now, n) {
        forall i | 0 <= i < |s| && s[i].next <= now ensures s[i].next == now || Less(s[i], Key(0, id)) {
          assert i < n;
        }
      }
      if WrittenIsExact(s, id, now) {
        WrittenExact(s, id, now, p, n);
      }
    }
  }

  lemma WrittenExact(s: seq<Key>, id: nat, now: nat, p: nat, n: nat)
    requires Sorted(s) && s != [] && s[0].next != now && WrittenIsExact(s, id, now)
    requires Bound(s, Key(0, id), p) && SelectedFrom(s, now, p, n)
    ensures ExactlyDue(s, now, n)
  {
    if n < |s| {
      assert s[n].next != now;
      forall i | n <= i < |s| ensures s[i].next > now {
        assert i == n || Less(s[n], s[i]);
      }
    }
  }

  /** As written a single timer that was due at 5 is not found at 10: nothing is selected, where it should be
      the one timer. */
  lemma OverdueIsMissed(id: nat, probe: nat)
    ensures var s := [Key(5, id)];
            && Selected(s, Key(0, probe), 10, 0) && (forall n: nat :: Selected(s, Key(0, probe), 10, n) ==> n == 0)
            && !ExactlyDue(s, 10, 0) && ExactlyDue(s, 10, 1) && !WrittenIsExact(s, probe, 10)
  {
    var s := [Key(5, id)];
    assert s[0].next == 5;
    assert Bound(s, Key(0, probe), 0) && SelectedFrom(s, 10, 0, 0);
    forall n: nat | Selected(s, Key(0, probe), 10, n) ensures n == 0 {
      var p :| Bound(s, Key(0, probe), p) && SelectedFrom(s, 10, p, n);
      assert !Less(s[0], Key(0, probe));
    }
  }
}
