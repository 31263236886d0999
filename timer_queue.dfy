// TimerQueue: the pending timers of one loop, ordered by expiration, plus
// the bookkeeping that lets a timer be cancelled while expired callbacks run.
module TimerQueues {
  import opened Timers

  /** One element of timers_: (expiration, timer). */
  datatype Entry = Entry(when: Timestamp, timer: Timer)

  /**
   * The strict order of timers_. The source breaks ties between equal
   * expirations by the Timer* address; here the sequence number stands in.
   */
  predicate EntryLess(a: Entry, b: Entry)
  {
    a.when < b.when || (a.when == b.when && a.timer.sequence < b.timer.sequence)
  }

  /** The iteration order of a std::set: each entry strictly before the next. */
  predicate Sorted(s: seq<Entry>)
  {
    forall i :: 0 < i < |s| ==> EntryLess(s[i - 1], s[i])
  }

  /** Sorted lists are strictly increasing between any two positions. */
  lemma {:induction false} SortedPairwise(s: seq<Entry>, i: nat, j: nat)
    requires Sorted(s) && i < j < |s|
    ensures EntryLess(s[i], s[j])
    decreases j - i
  {
    if i + 1 < j {
      SortedPairwise(s, i + 1, j);
    }
  }

  predicate DistinctIds(s: seq<Entry>)
  {
    forall i, j :: 0 <= i < j < |s| ==> s[i].timer.sequence != s[j].timer.sequence
  }

  /** The sequence numbers of the timers in s. */
  function Ids(s: seq<Entry>): set<nat>
  {
    if s == [] then {} else Ids(s[..|s| - 1]) + {s[|s| - 1].timer.sequence}
  }

  lemma {:induction false} IdsConcat(a: seq<Entry>, b: seq<Entry>)
    ensures Ids(a + b) == Ids(a) + Ids(b)
    decreases |b|
  {
    if b == [] {
      assert a + b == a;
    } else {
      var b' := b[..|b| - 1];
      assert (a + b)[..|a + b| - 1] == a + b';
      assert (a + b)[|a + b| - 1] == b[|b| - 1];
      IdsConcat(a, b');
      assert Ids(a + b) == Ids(a + b') + {b[|b| - 1].timer.sequence};
    }
  }

  lemma {:induction false} IdsIndex(s: seq<Entry>, id: nat)
    ensures id in Ids(s) <==> exists k :: 0 <= k < |s| && s[k].timer.sequence == id
    decreases |s|
  {
    if s != [] {
      IdsIndex(s[..|s| - 1], id);
      if id in Ids(s[..|s| - 1]) {
        var k :| 0 <= k < |s| - 1 && s[..|s| - 1][k].timer.sequence == id;
        assert s[k].timer.sequence == id;
      }
    }
  }

  lemma IdsPrefixStep(s: seq<Entry>, j: nat)
    requires j < |s|
    ensures Ids(s[..j + 1]) == Ids(s[..j]) + {s[j].timer.sequence}
  {
    assert s[..j + 1][..j] == s[..j];
  }

  lemma IdsMember(s: seq<Entry>, k: nat)
    requires k < |s|
    ensures s[k].timer.sequence in Ids(s)
  {
    IdsIndex(s, s[k].timer.sequence);
  }

  lemma IdsSingleton(e: Entry)
    ensures Ids([e]) == {e.timer.sequence}
  {
    assert [e][..0] == [];
  }

  function Sequences(s: seq<Entry>): (r: seq<nat>)
    ensures |r| == |s| && forall i :: 0 <= i < |s| ==> r[i] == s[i].timer.sequence
  {
    if s == [] then [] else [s[0].timer.sequence] + Sequences(s[1..])
  }

  /** The number of leading entries that are due at now (lower_bound of (now, max)). */
  function CountDue(s: seq<Entry>, now: Timestamp): (k: nat)
    ensures k <= |s|
  {
    if s == [] || s[0].when > now then 0 else 1 + CountDue(s[1..], now)
  }

  /** In a sorted list the due entries are exactly the prefix of length CountDue. */
  lemma {:induction false} CountDueSplits(s: seq<Entry>, now: Timestamp)
    requires Sorted(s)
    ensures forall i :: 0 <= i < |s| ==> (i < CountDue(s, now) <==> s[i].when <= now)
  {
    if s != [] {
      assert Sorted(s[1..]) by {
        assert forall i :: 0 < i < |s| - 1 ==> s[1..][i - 1] == s[i] && s[1..][i] == s[i + 1];
      }
      CountDueSplits(s[1..], now);
      assert forall i :: 0 < i < |s| ==> s[1..][i - 1] == s[i];
    }
  }

  /** howMuchTimeFromNow: the delay until when, at least 100 microseconds, as (tv_sec, tv_nsec). */
  function HowMuchTimeFromNow(when: Timestamp, now: Timestamp): (ts: (int, int))
    ensures ts.0 >= 0 && 0 <= ts.1 < 1000000000 && ts.1 % 1000 == 0
    ensures ts.0 * 1000000000 + ts.1 == (if when - now < 100 then 100 else when - now) * 1000
  {
    var micros := if when - now < 100 then 100 else when - now;
    (micros / kMicroSecondsPerSecond, (micros % kMicroSecondsPerSecond) * 1000)
  }

  /** Each listed entry is the pending timer registered under its sequence number, at its expiration. */
  ghost predicate Links(s: seq<Entry>, active: map<nat, Timer>)
    reads active.Values
  {
    forall k :: 0 <= k < |s| ==>
      && s[k].timer.sequence in active
      && active[s[k].timer.sequence] == s[k].timer
      && s[k].when == active[s[k].timer.sequence].expiration
  }

  /** Every registered timer is filed under its own sequence number, none above bound. */
  predicate Keyed(active: map<nat, Timer>, bound: nat)
  {
    forall id :: id in active ==> active[id].sequence == id && id <= bound
  }

  /** The invariant tying timers_ to activeTimers_. */
  ghost predicate Consistent(s: seq<Entry>, active: map<nat, Timer>, bound: nat)
    reads active.Values
  {
    Sorted(s) && active.Keys == Ids(s) && Keyed(active, bound) && Links(s, active)
  }

  /** A consistent list never holds the same timer twice. */
  lemma ConsistentDistinct(s: seq<Entry>, active: map<nat, Timer>, bound: nat)
    requires Consistent(s, active, bound)
    ensures DistinctIds(s)
  {
    forall i, j | 0 <= i < j < |s|
      ensures s[i].timer.sequence != s[j].timer.sequence
    {
      SortedPairwise(s, i, j);
    }
  }

  // ----- inserting at position i -----

  lemma InsertIndex(s: seq<Entry>, i: nat, e: Entry)
    requires i <= |s|
    ensures var r := s[..i] + [e] + s[i..];
      |r| == |s| + 1 && r[i] == e
      && (forall k :: 0 <= k < i ==> r[k] == s[k])
      && (forall k :: i < k < |r| ==> r[k] == s[k - 1])
  {
  }

  lemma InsertSorted(s: seq<Entry>, i: nat, e: Entry)
    requires Sorted(s) && i <= |s|
    requires i > 0 ==> EntryLess(s[i - 1], e)
    requires i < |s| ==> EntryLess(e, s[i])
    ensures Sorted(s[..i] + [e] + s[i..])
  {
    InsertIndex(s, i, e);
  }

  lemma InsertIds(s: seq<Entry>, i: nat, e: Entry)
    requires i <= |s|
    ensures Ids(s[..i] + [e] + s[i..]) == Ids(s) + {e.timer.sequence}
  {
    assert s == s[..i] + s[i..];
    IdsConcat(s[..i], s[i..]);
    IdsConcat(s[..i] + [e], s[i..]);
    IdsConcat(s[..i], [e]);
    IdsSingleton(e);
  }

  lemma InsertLinks(s: seq<Entry>, active: map<nat, Timer>, i: nat, e: Entry)
    requires Links(s, active) && i <= |s| && e.timer.sequence !in active && e.when == e.timer.expiration
    ensures Links(s[..i] + [e] + s[i..], active[e.timer.sequence := e.timer])
  {
    var r := s[..i] + [e] + s[i..];
    var active' := active[e.timer.sequence := e.timer];
    InsertIndex(s, i, e);
    forall k | 0 <= k < |r|
      ensures r[k].timer.sequence in active' && active'[r[k].timer.sequence] == r[k].timer
      ensures r[k].when == active'[r[k].timer.sequence].expiration
    {
      if k != i {
        assert r[k] == s[if k < i then k else k - 1];
      }
    }
  }

  /** The insertion point found by insert keeps timers_ strictly ordered. */
  lemma InsertSortedAt(s: seq<Entry>, active: map<nat, Timer>, bound: nat, i: nat, e: Entry)
    requires Consistent(s, active, bound) && i <= |s| && e.timer.sequence !in active
    requires i > 0 ==> EntryLess(s[i - 1], e)
    requires i < |s| ==> !EntryLess(s[i], e)
    ensures Sorted(s[..i] + [e] + s[i..])
  {
    if i < |s| {
      IdsIndex(s, s[i].timer.sequence);
    }
    InsertSorted(s, i, e);
  }

  lemma InsertKeys(s: seq<Entry>, active: map<nat, Timer>, i: nat, e: Entry)
    requires active.Keys == Ids(s) && i <= |s|
    ensures active[e.timer.sequence := e.timer].Keys == Ids(s[..i] + [e] + s[i..])
  {
    InsertIds(s, i, e);
  }

  lemma InsertMultiset(s: seq<Entry>, i: nat, e: Entry)
    requires i <= |s|
    ensures multiset(s[..i] + [e] + s[i..]) == multiset(s) + multiset{e}
  {
    assert s == s[..i] + s[i..];
  }

  /** insert: adding a fresh timer at its ordered position keeps the invariant. */
  lemma InsertConsistent(s: seq<Entry>, active: map<nat, Timer>, bound: nat, i: nat, e: Entry)
    requires Consistent(s, active, bound) && i <= |s|
    requires e.timer.sequence !in active && e.timer.sequence <= bound && e.when == e.timer.expiration
    requires i > 0 ==> EntryLess(s[i - 1], e)
    requires i < |s| ==> !EntryLess(s[i], e)
    ensures Consistent(s[..i] + [e] + s[i..], active[e.timer.sequence := e.timer], bound)
    ensures multiset(s[..i] + [e] + s[i..]) == multiset(s) + multiset{e}
  {
    InsertSortedAt(s, active, bound, i, e);
    InsertKeys(s, active, i, e);
    InsertLinks(s, active, i, e);
    InsertMultiset(s, i, e);
  }

  // ----- removing position j -----

  lemma RemoveIndex(s: seq<Entry>, j: nat)
    requires j < |s|
    ensures var r := s[..j] + s[j + 1..];
      |r| == |s| - 1 && forall k :: 0 <= k < |r| ==> r[k] == s[if k < j then k else k + 1]
  {
  }

  lemma RemoveSorted(s: seq<Entry>, j: nat)
    requires Sorted(s) && j < |s|
    ensures Sorted(s[..j] + s[j + 1..])
  {
    RemoveIndex(s, j);
    if 0 < j < |s| - 1 {
      SortedPairwise(s, j - 1, j + 1);
    }
  }

  lemma RemoveDistinct(s: seq<Entry>, j: nat)
    requires DistinctIds(s) && j < |s|
    ensures DistinctIds(s[..j] + s[j + 1..])
  {
    RemoveIndex(s, j);
  }

  /** A timer of a distinct list occurs in no part of the list without it. */
  lemma IdsNotElsewhere(s: seq<Entry>, j: nat)
    requires DistinctIds(s) && j < |s|
    ensures s[j].timer.sequence !in Ids(s[..j]) && s[j].timer.sequence !in Ids(s[j + 1..])
  {
    var x := s[j].timer.sequence;
    IdsIndex(s[..j], x);
    IdsIndex(s[j + 1..], x);
    assert forall k :: j + 1 <= k < |s| ==> s[j + 1..][k - j - 1] == s[k];
  }

  lemma RemoveIds(s: seq<Entry>, j: nat)
    requires DistinctIds(s) && j < |s|
    ensures Ids(s[..j] + s[j + 1..]) == Ids(s) - {s[j].timer.sequence}
  {
    var a, b, x := s[..j], s[j + 1..], s[j].timer.sequence;
    IdsNotElsewhere(s, j);
    IdsConcat(a, [s[j]]);
    IdsSingleton(s[j]);
    IdsConcat(a + [s[j]], b);
    IdsConcat(a, b);
    assert s == a + [s[j]] + b;
    assert Ids(s) == Ids(a) + {x} + Ids(b);
  }

  lemma RemoveLinks(s: seq<Entry>, active: map<nat, Timer>, j: nat)
    requires Links(s, active) && DistinctIds(s) && j < |s|
    ensures Links(s[..j] + s[j + 1..], active - {s[j].timer.sequence})
  {
    RemoveIndex(s, j);
    RemoveDistinct(s, j);
  }

  lemma RemoveKeys(s: seq<Entry>, active: map<nat, Timer>, j: nat)
    requires active.Keys == Ids(s) && DistinctIds(s) && j < |s|
    ensures (active - {s[j].timer.sequence}).Keys == Ids(s[..j] + s[j + 1..])
  {
    RemoveIds(s, j);
  }

  lemma RemoveMultiset(s: seq<Entry>, j: nat)
    requires j < |s|
    ensures multiset(s[..j] + s[j + 1..]) == multiset(s) - multiset{s[j]}
  {
    assert s == s[..j] + [s[j]] + s[j + 1..];
  }

  /** cancelInLoop: removing a pending timer keeps the invariant. */
  lemma RemoveConsistent(s: seq<Entry>, active: map<nat, Timer>, bound: nat, j: nat)
    requires Consistent(s, active, bound) && j < |s|
    ensures Consistent(s[..j] + s[j + 1..], active - {s[j].timer.sequence}, bound)
    ensures multiset(s[..j] + s[j + 1..]) == multiset(s) - multiset{s[j]}
    ensures Ids(s[..j] + s[j + 1..]) == Ids(s) - {s[j].timer.sequence}
  {
    ConsistentDistinct(s, active, bound);
    RemoveSorted(s, j);
    RemoveIds(s, j);
    RemoveKeys(s, active, j);
    RemoveLinks(s, active, j);
    RemoveMultiset(s, j);
  }

  // ----- splitting at k -----

  lemma SplitParts(s: seq<Entry>, k: nat)
    requires Sorted(s) && DistinctIds(s) && k <= |s|
    ensures Sorted(s[..k]) && Sorted(s[k..]) && DistinctIds(s[..k]) && DistinctIds(s[k..])
  {
    assert forall i :: 0 <= i < |s| - k ==> s[k..][i] == s[k + i];
  }

  lemma SplitApart(s: seq<Entry>, k: nat, id: nat)
    requires DistinctIds(s) && k <= |s| && id in Ids(s[..k])
    ensures id !in Ids(s[k..])
  {
    IdsIndex(s[..k], id);
    IdsIndex(s[k..], id);
    assert forall b :: k <= b < |s| ==> s[k..][b - k] == s[b];
  }

  lemma SplitIds(s: seq<Entry>, k: nat)
    requires DistinctIds(s) && k <= |s|
    ensures Ids(s) == Ids(s[..k]) + Ids(s[k..]) && Ids(s[..k]) !! Ids(s[k..])
    ensures forall x :: 0 <= x < k ==> s[x].timer.sequence in Ids(s[..k])
  {
    assert s == s[..k] + s[k..];
    IdsConcat(s[..k], s[k..]);
    forall id | id in Ids(s[..k]) ensures id !in Ids(s[k..]) {
      SplitApart(s, k, id);
    }
    forall x | 0 <= x < k ensures s[x].timer.sequence in Ids(s[..k]) {
      IdsMember(s[..k], x);
    }
  }

  lemma SplitLinks(s: seq<Entry>, active: map<nat, Timer>, k: nat)
    requires Links(s, active) && DistinctIds(s) && k <= |s|
    requires Ids(s[..k]) !! Ids(s[k..])
    ensures Links(s[k..], active - Ids(s[..k]))
  {
    var r := s[k..];
    forall x | 0 <= x < |r|
      ensures r[x].timer.sequence !in Ids(s[..k])
    {
      IdsIndex(r, r[x].timer.sequence);
    }
    assert forall x :: 0 <= x < |r| ==> r[x] == s[k + x];
  }

  lemma SplitConsistent(s: seq<Entry>, active: map<nat, Timer>, bound: nat, k: nat)
    requires Consistent(s, active, bound) && k <= |s|
    ensures Consistent(s[k..], active - Ids(s[..k]), bound)
    ensures DistinctIds(s[..k]) && Ids(s[..k]) !! Ids(s[k..]) && Ids(s) == Ids(s[..k]) + Ids(s[k..])
    ensures forall x :: 0 <= x < k ==> s[x].timer.sequence in Ids(s[..k])
  {
    ConsistentDistinct(s, active, bound);
    SplitParts(s, k);
    SplitIds(s, k);
    SplitLinks(s, active, k);
  }

  /** getExpired: the due prefix leaves a consistent remainder, all of it later than now. */
  lemma DueSplit(s: seq<Entry>, active: map<nat, Timer>, bound: nat, now: Timestamp)
    requires Consistent(s, active, bound)
    ensures var k := CountDue(s, now);
      && Consistent(s[k..], active - Ids(s[..k]), bound)
      && DistinctIds(s[..k]) && Ids(s[..k]) !! Ids(s[k..])
      && (forall i :: 0 <= i < k ==> s[i].when <= now)
      && (forall i :: k <= i < |s| ==> s[i].when > now)
  {
    CountDueSplits(s, now);
    SplitConsistent(s, active, bound, CountDue(s, now));
  }

  /** reset() restarts an expired timer iff it repeats and was not cancelled while the callbacks ran. */
  predicate Restarts(e: Entry, canceling: set<nat>)
  {
    e.timer.repeat && e.timer.sequence !in canceling
  }

  /** The ids of the expired timers that reset() restarts. */
  function Restartable(expired: seq<Entry>, canceling: set<nat>): set<nat>
  {
    if expired == [] then {}
    else
      var last := expired[|expired| - 1];
      Restartable(expired[..|expired| - 1], canceling) + (if Restarts(last, canceling) then {last.timer.sequence} else {})
  }

  /** Only expired timers are restarted. */
  lemma {:induction false} RestartableWithin(expired: seq<Entry>, canceling: set<nat>)
    ensures Restartable(expired, canceling) <= Ids(expired)
    decreases |expired|
  {
    if expired != [] {
      RestartableWithin(expired[..|expired| - 1], canceling);
    }
  }

  /** With distinct timers, an expired timer is restarted exactly when it repeats and was not cancelled. */
  lemma {:induction false} RestartableMember(expired: seq<Entry>, canceling: set<nat>, i: nat)
    requires DistinctIds(expired) && i < |expired|
    ensures expired[i].timer.sequence in Restartable(expired, canceling) <==> Restarts(expired[i], canceling)
    decreases |expired|
  {
    var init := expired[..|expired| - 1];
    var id := expired[i].timer.sequence;
    if i == |expired| - 1 {
      RestartableWithin(init, canceling);
      IdsIndex(init, id);
      forall k | 0 <= k < |init|
        ensures init[k].timer.sequence != id
      {
        assert init[k] == expired[k];
      }
    } else {
      RestartableMember(init, canceling, i);
      assert init[i] == expired[i];
    }
  }

  lemma RestartablePrefixStep(expired: seq<Entry>, canceling: set<nat>, i: nat)
    requires i < |expired|
    ensures Restartable(expired[..i + 1], canceling) ==
              Restartable(expired[..i], canceling) + (if Restarts(expired[i], canceling) then {expired[i].timer.sequence} else {})
  {
    assert expired[..i + 1][..i] == expired[..i];
  }

  class TimerQueue {
    /** timers_: pending timers in expiration order. */
    var timers: seq<Entry>
    /** activeTimers_: the same timers, looked up by sequence number. */
    var activeTimers: map<nat, Timer>
    var callingExpiredTimers: bool
    /** cancelingTimers_: timers cancelled from inside an expired callback. */
    var cancelingTimers: set<nat>
    /** The expirations passed to resetTimerfd (timerfd_settime), in order. */
    var armings: seq<Timestamp>
    const counter: SequenceCounter

    ghost predicate Valid()
      reads this, counter, activeTimers.Values
    {
      Consistent(timers, activeTimers, counter.numCreated)
    }

    constructor (counter: SequenceCounter)
      ensures Valid() && this.counter == counter
      ensures timers == [] && activeTimers == map[] && !callingExpiredTimers
      ensures cancelingTimers == {} && armings == []
    {
      timers := [];
      activeTimers := map[];
      callingExpiredTimers := false;
      cancelingTimers := {};
      armings := [];
      this.counter := counter;
    }

    /** insert(timer): add a timer not already pending; report whether it became the earliest. */
    method Insert(timer: Timer) returns (earliestChanged: bool)
      requires Valid() && timer.sequence !in activeTimers && timer.sequence <= counter.numCreated
      modifies this`timers, this`activeTimers
      ensures Valid()
      ensures earliestChanged <==> old(timers) == [] || timer.expiration < old(timers)[0].when
      ensures multiset(timers) == multiset(old(timers)) + multiset{Entry(timer.expiration, timer)}
      ensures activeTimers == old(activeTimers)[timer.sequence := timer]
    {
      var e := Entry(timer.expiration, timer);
      earliestChanged := timers == [] || e.when < timers[0].when;
      var i := 0;
      while i < |timers| && EntryLess(timers[i], e)
        invariant 0 <= i <= |timers|
        invariant i > 0 ==> EntryLess(timers[i - 1], e)
      {
        i := i + 1;
      }
      InsertConsistent(timers, activeTimers, counter.numCreated, i, e);
      timers := timers[..i] + [e] + timers[i..];
      activeTimers := activeTimers[timer.sequence := timer];
    }

    /** resetTimerfd(timerfd_, expiration) */
    method ResetTimerfd(expiration: Timestamp)
      modifies this`armings
      ensures armings == old(armings) + [expiration]
    {
      armings := armings + [expiration];
    }

    /** addTimerInLoop(timer): insert, and re-arm the timerfd when the earliest changed. */
    method AddTimerInLoop(timer: Timer)
      requires Valid() && timer.sequence !in activeTimers && timer.sequence <= counter.numCreated
      modifies this`timers, this`activeTimers, this`armings
      ensures Valid()
      ensures multiset(timers) == multiset(old(timers)) + multiset{Entry(timer.expiration, timer)}
      ensures activeTimers == old(activeTimers)[timer.sequence := timer]
      ensures armings == if old(timers) == [] || timer.expiration < old(timers)[0].when
                         then old(armings) + [timer.expiration] else old(armings)
    {
      var earliestChanged := Insert(timer);
      if earliestChanged {
        ResetTimerfd(timer.expiration);
      }
    }

    /** addTimer(cb, when, interval): create the timer and add it; returns its sequence number. */
    method AddTimer(cb: nat, when: Timestamp, interval: int) returns (id: nat, timer: Timer)
      requires Valid()
      modifies this`timers, this`activeTimers, this`armings, counter
      ensures Valid() && fresh(timer)
      ensures id == timer.sequence == old(counter.numCreated) + 1 && id !in old(activeTimers)
      ensures timer.expiration == when && timer.callback == cb && (timer.repeat <==> interval > 0)
      ensures activeTimers == old(activeTimers)[id := timer]
    {
      timer := new Timer(cb, when, interval, counter);
      id := timer.sequence;
      AddTimerInLoop(timer);
    }

    /**
     * cancelInLoop(timerId): remove a pending timer; a timer that is not
     * pending while expired callbacks run is remembered as cancelled.
     */
    method CancelInLoop(id: nat)
      requires Valid()
      modifies this`timers, this`activeTimers, this`cancelingTimers
      ensures Valid()
      ensures activeTimers == old(activeTimers) - {id}
      ensures Ids(timers) == old(Ids(timers)) - {id}
      ensures id in old(activeTimers) ==>
                multiset(timers) == multiset(old(timers)) - multiset{Entry(old(activeTimers[id].expiration), old(activeTimers[id]))}
      ensures id !in old(activeTimers) ==> timers == old(timers)
      ensures cancelingTimers == if id !in old(activeTimers) && callingExpiredTimers
                                 then old(cancelingTimers) + {id} else old(cancelingTimers)
    {
      if id in activeTimers {
        IdsIndex(timers, id);
        var j := 0;
        while j < |timers| && timers[j].timer.sequence != id
          invariant 0 <= j <= |timers|
          invariant forall k :: 0 <= k < j ==> timers[k].timer.sequence != id
        {
          j := j + 1;
        }
        assert j < |timers|;
        RemoveConsistent(timers, activeTimers, counter.numCreated, j);
        timers := timers[..j] + timers[j + 1..];
        activeTimers := activeTimers - {id};
      } else if callingExpiredTimers {
        cancelingTimers := cancelingTimers + {id};
      }
    }

    /** getExpired(now): move every due timer out of both sets, in order. */
    method GetExpired(now: Timestamp) returns (expired: seq<Entry>)
      requires Valid()
      modifies this`timers, this`activeTimers
      ensures Valid()
      ensures expired == old(timers)[..CountDue(old(timers), now)]
      ensures timers == old(timers)[CountDue(old(timers), now)..]
      ensures forall i :: 0 <= i < |expired| ==> expired[i].when <= now
      ensures forall i :: 0 <= i < |timers| ==> timers[i].when > now
      ensures activeTimers == old(activeTimers) - Ids(expired)
      ensures DistinctIds(expired) && Ids(expired) !! Ids(timers)
      ensures forall i :: 0 <= i < |expired| ==> expired[i].timer.sequence !in activeTimers
    {
      ghost var s0, a0 := timers, activeTimers;
      ghost var due := CountDue(timers, now);
      CountDueSplits(timers, now);
      DueSplit(timers, activeTimers, counter.numCreated, now);
      var k := 0;
      while k < |timers| && timers[k].when <= now
        invariant 0 <= k <= due
      {
        k := k + 1;
      }
      assert k == due;
      expired := timers[..k];
      timers := timers[k..];
      var j := 0;
      while j < |expired|
        invariant 0 <= j <= |expired|
        invariant activeTimers == a0 - Ids(expired[..j]) && timers == s0[k..]
      {
        IdsPrefixStep(expired, j);
        activeTimers := activeTimers - {expired[j].timer.sequence};
        j := j + 1;
      }
      assert expired[..j] == expired;
      forall i | 0 <= i < |expired| ensures expired[i].timer.sequence !in activeTimers {
        IdsMember(expired, i);
      }
    }

    /** One step of reset(): restart a repeating expired timer and insert it again. */
    method Reinsert(t: Timer, now: Timestamp)
      requires Valid() && t.repeat && t.sequence !in activeTimers && t.sequence <= counter.numCreated
      modifies this`timers, this`activeTimers, t`expiration
      ensures Valid()
      ensures t.expiration == now + t.interval
      ensures activeTimers == old(activeTimers)[t.sequence := t]
    {
      assert t !in activeTimers.Values;
      t.Restart(now);
      var _ := Insert(t);
    }

    /**
     * reset(expired, now): restart and re-insert each repeating timer that
     * was not cancelled, drop the others, then re-arm for the new earliest.
     */
    method Reset(expired: seq<Entry>, now: Timestamp)
      requires Valid()
      requires forall i :: 0 <= i < |expired| ==> expired[i].timer.sequence !in activeTimers && expired[i].timer.sequence <= counter.numCreated
      requires DistinctIds(expired)
      modifies this`timers, this`activeTimers, this`armings, set e | e in expired :: e.timer
      ensures Valid()
      ensures activeTimers.Keys == old(activeTimers.Keys) + Restartable(expired, cancelingTimers)
      ensures forall id :: id in old(activeTimers) ==> activeTimers[id] == old(activeTimers[id])
      ensures forall i :: 0 <= i < |expired| && Restarts(expired[i], cancelingTimers) ==>
                expired[i].timer.expiration == now + expired[i].timer.interval
      ensures armings == if timers != [] && IsValid(timers[0].when)
                         then old(armings) + [timers[0].when] else old(armings)
    {
      var i := 0;
      while i < |expired|
        invariant 0 <= i <= |expired|
        invariant Valid()
        invariant activeTimers.Keys == old(activeTimers.Keys) + Restartable(expired[..i], cancelingTimers)
        invariant forall id :: id in old(activeTimers) ==> activeTimers[id] == old(activeTimers[id])
        invariant forall k :: i <= k < |expired| ==> expired[k].timer.sequence !in activeTimers
        invariant forall k :: 0 <= k < i && Restarts(expired[k], cancelingTimers) ==>
                    expired[k].timer.expiration == now + expired[k].timer.interval
        invariant armings == old(armings)
      {
        var t := expired[i].timer;
        RestartablePrefixStep(expired, cancelingTimers, i);
        if t.repeat && t.sequence !in cancelingTimers {
          Reinsert(t, now);
        }
        i := i + 1;
      }
      assert expired[..i] == expired;
      RearmEarliest();
    }

    /** The tail of reset(): arm the timerfd for the earliest pending timer, if it is valid. */
    method RearmEarliest()
      requires Valid()
      modifies this`armings
      ensures armings == if timers != [] && IsValid(timers[0].when)
                         then old(armings) + [timers[0].when] else old(armings)
    {
      var nextExpire := InvalidTime;
      if timers != [] {
        nextExpire := timers[0].timer.expiration;
      }
      if IsValid(nextExpire) {
        ResetTimerfd(nextExpire);
      }
    }

    /**
     * The callback phase of handleRead: with callingExpiredTimers_ set and
     * cancelingTimers_ cleared, run each expired timer in order; `cancels`
     * are the timer ids those callbacks cancel. A pending timer they cancel
     * leaves both sets; an expired one is remembered in cancelingTimers_.
     */
    method RunExpired(expired: seq<Entry>, cancels: seq<nat>) returns (ran: seq<nat>)
      requires Valid()
      requires forall i :: 0 <= i < |expired| ==> expired[i].timer.sequence !in activeTimers
      modifies this`timers, this`activeTimers, this`cancelingTimers, this`callingExpiredTimers
      ensures Valid() && !callingExpiredTimers
      ensures ran == Sequences(expired)
      ensures forall i :: 0 <= i < |expired| ==> expired[i].timer.sequence !in activeTimers
      ensures forall id :: id in activeTimers <==> id in old(activeTimers) && id !in cancels
      ensures forall id :: id in activeTimers ==> activeTimers[id] == old(activeTimers[id])
      ensures forall id :: id in cancelingTimers ==> id in cancels
      ensures forall id :: id in cancels && id !in old(activeTimers) ==> id in cancelingTimers
    {
      callingExpiredTimers := true;
      cancelingTimers := {};
      ran := Sequences(expired);
      var c := 0;
      while c < |cancels|
        invariant 0 <= c <= |cancels|
        invariant Valid() && callingExpiredTimers
        invariant forall i :: 0 <= i < |expired| ==> expired[i].timer.sequence !in activeTimers
        invariant forall id :: id in activeTimers <==> id in old(activeTimers) && id !in cancels[..c]
        invariant forall id :: id in activeTimers ==> activeTimers[id] == old(activeTimers[id])
        invariant forall id :: id in cancelingTimers ==> id in cancels[..c]
        invariant forall id :: id in cancels[..c] && id !in old(activeTimers) ==> id in cancelingTimers
      {
        assert cancels[..c + 1] == cancels[..c] + [cancels[c]];
        CancelInLoop(cancels[c]);
        c := c + 1;
      }
      assert cancels[..c] == cancels;
      callingExpiredTimers := false;
    }

    /**
     * The part of handleRead after getExpired: run the expired timers'
     * callbacks, then reset. An expired timer is pending again, restarted at
     * now + interval, exactly when it repeats and no callback cancelled it;
     * a timer pending before stays so, unchanged, unless a callback
     * cancelled it; and the timerfd is armed for the new earliest timer.
     */
    method RunAndReset(expired: seq<Entry>, now: Timestamp, cancels: seq<nat>) returns (ran: seq<nat>)
      requires Valid() && DistinctIds(expired)
      requires forall i :: 0 <= i < |expired| ==> expired[i].timer.sequence !in activeTimers && expired[i].timer.sequence <= counter.numCreated
      modifies this`timers, this`activeTimers, this`cancelingTimers, this`callingExpiredTimers, this`armings
      modifies set e | e in expired :: e.timer
      ensures Valid() && !callingExpiredTimers
      ensures ran == Sequences(expired)
      ensures forall i :: 0 <= i < |expired| ==>
                (expired[i].timer.sequence in activeTimers <==> expired[i].timer.repeat && expired[i].timer.sequence !in cancels)
      ensures forall i :: 0 <= i < |expired| && expired[i].timer.sequence in activeTimers ==>
                expired[i].timer.expiration == now + expired[i].timer.interval
      ensures forall id :: id in old(activeTimers) ==>
                (id in activeTimers <==> id !in cancels) && (id in activeTimers ==> activeTimers[id] == old(activeTimers[id]))
      ensures activeTimers.Keys <= old(activeTimers.Keys) + Ids(expired)
      ensures forall id :: id in cancelingTimers ==> id in cancels
      ensures armings == if timers != [] && IsValid(timers[0].when)
                         then old(armings) + [timers[0].when] else old(armings)
    {
      ghost var k1 := activeTimers.Keys;
      ran := RunExpired(expired, cancels);
      ghost var k2 := activeTimers.Keys;
      Reset(expired, now);
      BatchKeys(expired, k1, k2, activeTimers.Keys, cancels, cancelingTimers);
    }

    /**
     * handleRead at now: take the due timers, run their callbacks in
     * expiration order, then reset. Returns the sequence numbers that ran.
     * Afterwards a due timer is pending again, restarted at now + interval,
     * exactly when it repeats and no callback cancelled it; a timer that was
     * not due stays pending unless a callback cancelled it; nothing else is
     * pending; and the timerfd is armed for the new earliest timer.
     */
    method HandleRead(now: Timestamp, cancels: seq<nat>) returns (ran: seq<nat>)
      requires Valid()
      modifies this, activeTimers.Values
      ensures Valid() && !callingExpiredTimers
      ensures ran == Sequences(old(timers)[..CountDue(old(timers), now)])
      ensures var due := old(timers)[..CountDue(old(timers), now)];
        forall i :: 0 <= i < |due| ==>
          (due[i].timer.sequence in activeTimers <==> due[i].timer.repeat && due[i].timer.sequence !in cancels)
      ensures var due := old(timers)[..CountDue(old(timers), now)];
        forall i :: 0 <= i < |due| && due[i].timer.sequence in activeTimers ==>
          due[i].timer.expiration == now + due[i].timer.interval
      ensures var due := old(timers)[..CountDue(old(timers), now)];
        forall id :: id in old(activeTimers) && id !in Ids(due) ==>
          (id in activeTimers <==> id !in cancels) &&
          (id in activeTimers ==> activeTimers[id] == old(activeTimers[id]))
      ensures activeTimers.Keys <= old(activeTimers.Keys)
      ensures forall id :: id in cancelingTimers ==> id in cancels
      ensures armings == if timers != [] && IsValid(timers[0].when)
                         then old(armings) + [timers[0].when] else old(armings)
    {
      ghost var pending := timers;
      var expired := GetExpired(now);
      assert forall i :: 0 <= i < |expired| ==> expired[i].timer in old(activeTimers.Values) by {
        assert forall i :: 0 <= i < |expired| ==> expired[i] == pending[i];
      }
      assert pending == expired + timers;
      IdsConcat(expired, timers);
      ran := RunAndReset(expired, now, cancels);
    }
  }

  /**
   * The ids pending after one batch: k1 before the callbacks, k2 after they
   * cancelled, k3 after reset restarted the expired timers.
   */
  lemma BatchKeys(expired: seq<Entry>, k1: set<nat>, k2: set<nat>, k3: set<nat>, cancels: seq<nat>, canceling: set<nat>)
    requires DistinctIds(expired)
    requires forall i :: 0 <= i < |expired| ==> expired[i].timer.sequence !in k1
    requires forall id :: id in k2 <==> id in k1 && id !in cancels
    requires forall id :: id in cancels && id !in k1 ==> id in canceling
    requires forall id :: id in canceling ==> id in cancels
    requires k3 == k2 + Restartable(expired, canceling)
    ensures forall i :: 0 <= i < |expired| ==>
              (expired[i].timer.sequence in k3 <==> expired[i].timer.repeat && expired[i].timer.sequence !in cancels)
    ensures forall id :: id in k1 ==> (id in k3 <==> id !in cancels)
    ensures k3 <= k1 + Ids(expired)
  {
    RestartableWithin(expired, canceling);
    forall id | id in k1 && id in Ids(expired)
      ensures false
    {
      IdsIndex(expired, id);
    }
    forall i | 0 <= i < |expired|
      ensures expired[i].timer.sequence in k3 <==> expired[i].timer.repeat && expired[i].timer.sequence !in cancels
    {
      RestartableMember(expired, canceling, i);
    }
  }

  /** The timers one handleRead runs are exactly the pending ones due at now. */
  lemma RanExactlyDue(s: seq<Entry>, active: map<nat, Timer>, bound: nat, now: Timestamp)
    requires Consistent(s, active, bound)
    ensures forall i :: 0 <= i < |s| ==> (s[i].timer.sequence in Sequences(s[..CountDue(s, now)]) <==> s[i].when <= now)
  {
    CountDueSplits(s, now);
    ConsistentDistinct(s, active, bound);
    var ran := Sequences(s[..CountDue(s, now)]);
    forall i | 0 <= i < |s|
      ensures s[i].timer.sequence in ran <==> s[i].when <= now
    {
      if s[i].timer.sequence in ran {
        var k :| 0 <= k < |ran| && ran[k] == s[i].timer.sequence;
        assert s[..CountDue(s, now)][k] == s[k];
      }
    }
  }
}
