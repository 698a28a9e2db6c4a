/** The two-index timer queue of rtsp-server/net/Timer.h and rtsp-server/net/Timer.cpp. */
module TimerQueue {
  const ID_MOD := 0x1_0000_0000

  type TimerId = nat

  /** Key of the ordered index: deadline first, then id. */
  datatype Key = Key(deadline: int, id: TimerId)

  predicate Before(a: Key, b: Key) {
    a.deadline < b.deadline || (a.deadline == b.deadline && a.id < b.id)
  }

  class Timer {
    var interval: nat
    var next_timeout: int

    /** A zero interval becomes one millisecond. */
    constructor (msec: nat)
      ensures interval == (if msec == 0 then 1 else msec)
    {
      interval := if msec == 0 then 1 else msec;
      next_timeout := 0;
    }

    method SetNextTimeout(time_point: int)
      modifies this`next_timeout
      ensures next_timeout == time_point + interval
    {
      next_timeout := time_point + interval;
    }
  }

  // ---------------------------------------------------------------------------
  // The least key
  // ---------------------------------------------------------------------------

  ghost predicate IsFirst(keys: set<Key>, k: Key) {
    k in keys && forall j :: j in keys ==> j == k || Before(k, j)
  }

  lemma {:induction false} FirstExists(keys: set<Key>)
    requires keys != {}
    ensures exists k :: IsFirst(keys, k)
    decreases |keys|
  {
    var k :| k in keys;
    if keys == {k} {
      assert IsFirst(keys, k);
    } else {
      var rest := keys - {k};
      assert rest != {};
      FirstExists(rest);
      var f :| IsFirst(rest, f);
      var m := if Before(k, f) then k else f;
      forall j | j in keys
        ensures j == m || Before(m, j)
      {
        assert j == k || j in rest;
      }
      assert IsFirst(keys, m);
    }
  }

  // ---------------------------------------------------------------------------
  // What the queue holds, as values
  // ---------------------------------------------------------------------------

  /** Interval and stored deadline of one timer. */
  datatype Entry = Entry(interval: nat, deadline: int)

  type Entries = map<TimerId, Entry>

  function KeyOf(m: Entries, id: TimerId): Key
    requires id in m
  {
    Key(m[id].deadline, id)
  }

  ghost predicate IsFirstOf(m: Entries, k: Key) {
    && k.id in m && k == KeyOf(m, k.id)
    && forall id :: id in m ==> id == k.id || Before(k, KeyOf(m, id))
  }

  /** Ids whose timers are due. */
  function Due(m: Entries, now: int): set<TimerId> {
    set id | id in m && m[id].deadline <= now
  }

  /** The entries after the first timer fired: re-armed or dropped. */
  function Fired(m: Entries, id: TimerId, now: int, again: bool): Entries
    requires id in m
  {
    if again then m[id := Entry(m[id].interval, now + m[id].interval)] else m - {id}
  }

  class TimerQueue {
    var timers: map<TimerId, Timer>
    var events: map<Key, Timer>
    var last_timer_id: nat

    /** Both indices hold the same timers, and each event key is the deadline its
        timer stores. */
    ghost predicate Agree()
      reads `timers, `events, timers.Values`next_timeout
    {
      && (forall id :: id in timers ==> Key(timers[id].next_timeout, id) in events)
      && (forall k :: k in events ==> k.id in timers && events[k] == timers[k.id] && timers[k.id].next_timeout == k.deadline)
    }

    ghost predicate Valid()
      reads `timers, `events, timers.Values
    {
      && Agree()
      && (forall id :: id in timers ==> timers[id].interval >= 1)
      && (forall i, j :: i in timers && j in timers && i != j ==> timers[i] != timers[j])
    }

    ghost function Contents(): Entries
      reads `timers, timers.Values
    {
      map id | id in timers :: Entry(timers[id].interval, timers[id].next_timeout)
    }

    constructor ()
      ensures Valid() && Contents() == map[] && events == map[] && last_timer_id == 0
    {
      timers := map[];
      events := map[];
      last_timer_id := 0;
    }

    /** `emplace` leaves an existing element alone. The key is built from the raw
        interval, the stored deadline from the clamped one. Agreement survives
        exactly when the interval is not zero and the id is new, or both indices
        already hold this very id at this very deadline. */
    method AddTimer(ms: nat, now: int) returns (timer_id: TimerId)
      requires Valid() && ms < ID_MOD && last_timer_id < ID_MOD
      modifies this
      ensures timer_id == last_timer_id == (old(last_timer_id) + 1) % ID_MOD
      ensures Agree() <==>
              if timer_id in old(timers) then old(Contents())[timer_id].deadline == now + ms else ms >= 1
      ensures timer_id !in old(timers) && ms >= 1 ==> Valid()
      ensures Contents() == if timer_id in old(timers) then old(Contents())
                            else old(Contents())[timer_id := if ms == 0 then Entry(1, now + 1) else Entry(ms, now + ms)]
      ensures events.Keys == old(events.Keys) + {Key(now + ms, timer_id)}
    {
      hide TimerQueue.Valid, TimerQueue.Agree, TimerQueue.Contents;
      last_timer_id := (last_timer_id + 1) % ID_MOD;
      timer_id := last_timer_id;
      var timer := new Timer(ms);
      timer.SetNextTimeout(now);
      var key := Key(now + ms, timer_id);
      if timer_id !in timers {
        EmplaceBoth(timer_id, key, timer);
      } else {
        EmplaceEvent(key, timer);
      }
    }

    /** The second `emplace` for an id that is in use; the first did nothing. */
    method EmplaceEvent(key: Key, timer: Timer)
      requires Valid() && key.id in timers && timer !in timers.Values
      modifies this`events
      ensures Agree() <==> Contents()[key.id].deadline == key.deadline
      ensures events.Keys == old(events.Keys) + {key}
    {
      if key !in events {
        assert timers[key.id].next_timeout != key.deadline;
        events := events[key := timer];
        assert events[key] != timers[key.id];
      }
    }

    /** Both `emplace` calls for a new id. */
    method EmplaceBoth(id: TimerId, key: Key, timer: Timer)
      requires Valid() && id !in timers && key.id == id && timer !in timers.Values && timer.interval >= 1
      modifies this`timers, this`events
      ensures Agree() <==> key.deadline == timer.next_timeout
      ensures Agree() ==> Valid()
      ensures events.Keys == old(events.Keys) + {key}
      ensures Contents() == old(Contents())[id := Entry(timer.interval, timer.next_timeout)]
    {
      hide TimerQueue.Contents;
      EmplaceTimer(id, timer);
      EmplaceKey(key, timer);
      if key.deadline != timer.next_timeout {
        assert Key(timer.next_timeout, id) !in events;
      }
    }

    method EmplaceKey(key: Key, timer: Timer)
      modifies this`events
      ensures events == old(events)[key := timer] && events.Keys == old(events.Keys) + {key}
    {
      events := events[key := timer];
    }

    method EmplaceTimer(id: TimerId, timer: Timer)
      modifies this`timers
      ensures timers == old(timers)[id := timer]
      ensures Contents() == old(Contents())[id := Entry(timer.interval, timer.next_timeout)]
    {
      timers := timers[id := timer];
      assert Contents().Keys == old(Contents())[id := Entry(timer.interval, timer.next_timeout)].Keys;
    }

    method RemoveTimer(timer_id: TimerId)
      requires Valid()
      modifies `timers, `events
      ensures Valid() && Contents() == old(Contents()) - {timer_id}
    {
      if timer_id in timers {
        Drop(Key(timers[timer_id].next_timeout, timer_id));
      }
    }

    /** `events_.begin()`: there is a first event because a timer is left. */
    method First() returns (k: Key)
      requires Valid() && timers != map[]
      ensures k in events && IsFirstOf(Contents(), k)
    {
      assert events.Keys != {} by {
        var id :| id in timers;
        assert Key(timers[id].next_timeout, id) in events;
      }
      FirstExists(events.Keys);
      k :| k in events && forall j :: j in events ==> j == k || Before(k, j);
      forall id | id in timers
        ensures id == k.id || Before(k, KeyOf(Contents(), id))
      {
        assert KeyOf(Contents(), id) in events;
      }
    }

    /** Time to sleep: -1 without timers; otherwise no timer is due before the
        sleep is over, and one is due at its end. */
    method GetTimeRemaining(now: int) returns (msec: int)
      requires Valid()
      ensures timers == map[] <==> msec == -1
      ensures timers != map[] ==>
                && msec >= 0
                && (forall id :: id in Contents() ==> msec == 0 || now + msec <= Contents()[id].deadline)
                && Due(Contents(), now + msec) != {}
    {
      if |timers| == 0 {
        return -1;
      }
      var k := First();
      msec := k.deadline - now;
      if msec < 0 {
        msec := 0;
      }
      assert k.id in Due(Contents(), now + msec);
    }

    /** The callback of timer k asked to run again. */
    method ReArm(k: Key, timer: Timer, now: int)
      requires Valid() && k in events && events[k] == timer
      modifies this`events, timer`next_timeout
      ensures Valid() && Contents() == Fired(old(Contents()), k.id, now, true)
    {
      hide TimerQueue.Contents, Fired;
      RearmTimer(k, timer, now);
      MoveEvent(k, timer);
    }

    method RearmTimer(k: Key, timer: Timer, now: int)
      requires Valid() && k in events && events[k] == timer
      modifies timer`next_timeout
      ensures timer.next_timeout == now + timer.interval
      ensures Contents() == Fired(old(Contents()), k.id, now, true)
    {
      timer.SetNextTimeout(now);
      assert forall id :: id in timers && id != k.id ==> timers[id] != timer;
    }

    /** Erases the old event of a timer and emplaces the one for its new deadline. */
    method MoveEvent(k: Key, timer: Timer)
      requires k in events && k.id in timers && timers[k.id] == timer
      requires forall id :: id in timers && id != k.id ==> Key(timers[id].next_timeout, id) in events
      requires forall j :: j in events && j != k ==>
                 j.id in timers && j.id != k.id && events[j] == timers[j.id] && timers[j.id].next_timeout == j.deadline
      modifies this`events
      ensures Agree()
    {
      events := events - {k};
      if Key(timer.next_timeout, k.id) !in events {
        events := events[Key(timer.next_timeout, k.id) := timer];
      }
    }

    /** The callback of timer k is done. */
    method Drop(k: Key)
      requires Valid() && k in events
      modifies this`events, this`timers
      ensures Valid() && Contents() == old(Contents()) - {k.id}
      ensures timers.Values <= old(timers.Values)
    {
      hide TimerQueue.Contents;
      events := events - {k};
      DropTimer(k.id);
    }

    method DropTimer(id: TimerId)
      modifies this`timers
      ensures timers == old(timers) - {id} && Contents() == old(Contents()) - {id}
    {
      timers := timers - {id};
    }

    /** One round of the loop: fires the first timer if it is due. */
    method FireFirst(now: int, round: nat, answer: (nat, TimerId) -> bool) returns (done: bool, k: Key)
      requires Valid()
      modifies this`events, this`timers, timers.Values
      ensures Valid() && timers.Values <= old(timers.Values)
      ensures done ==> Contents() == old(Contents()) && Due(Contents(), now) == {}
      ensures !done ==> IsFirstOf(old(Contents()), k) && k.deadline <= now
                        && Contents() == Fired(old(Contents()), k.id, now, answer(round, k.id))
    {
      hide Due, Fired;
      k := Key(0, 0);
      if |timers| == 0 {
        assert Contents() == map[];
        NoEntries(now);
        return true, k;
      }
      k := First();
      if k.deadline > now {
        NothingDue(Contents(), k, now);
        return true, k;
      }
      if answer(round, k.id) {
        ReArm(k, events[k], now);
      } else {
        assert Fired(Contents(), k.id, now, false) == Contents() - {k.id} by { Dropped(Contents(), k.id, now); }
        Drop(k);
      }
      return false, k;
    }

    /** Fires every due timer exactly once, in the order of deadline and id, never
        one that is not due; a timer that asks for it is re-armed from `now`.
        `answer(i, id)` is what the callback of timer id says in the i-th round. */
    method HandleTimerEvent(now: int, answer: (nat, TimerId) -> bool) returns (fired: seq<Key>)
      requires Valid()
      modifies this`events, this`timers, timers.Values
      ensures Valid()
      ensures Handled(old(Contents()), Contents(), now, answer, fired)
      ensures Due(Contents(), now) == {}
    {
      hide Handled, Due, Fired, TimerQueue.Valid, TimerQueue.Agree, TimerQueue.Contents;
      fired := [];
      var done := false;
      ghost var m0 := Contents();
      ghost var due := Due(m0, now);
      Intervals();
      HandledNothing(m0, now, answer);
      while !done
        invariant Valid() && timers.Values <= old(timers.Values)
        invariant Handled(m0, Contents(), now, answer, fired)
        invariant due == Due(Contents(), now) && (done ==> due == {})
        decreases !done, due
      {
        ghost var m := Contents();
        var k;
        done, k := FireFirst(now, |fired|, answer);
        if !done {
          HandledNext(m0, m, now, answer, fired, k);
          fired, due := fired + [k], due - {k.id};
        }
      }
    }

    lemma SameIds()
      ensures Contents().Keys == timers.Keys
    {
    }

    lemma Intervals()
      requires Valid()
      ensures forall id :: id in Contents() ==> Contents()[id].interval >= 1
    {
    }
  }

  // ---------------------------------------------------------------------------
  // One pass over the due timers
  // ---------------------------------------------------------------------------

  /** From m0 to m the timers in `fired` fired in this order, and nothing else
      changed. What is still due comes after all of them. */
  ghost predicate Handled(m0: Entries, m: Entries, now: int, answer: (nat, TimerId) -> bool, fired: seq<Key>) {
    && Positive(m) && m.Keys <= m0.Keys
    && WereDue(m0, now, fired)
    && Ascending(fired)
    && RestComesLater(m, now, fired)
    && Untouched(m0, m, fired)
    && Answered(m0, m, now, answer, fired)
  }

  predicate Positive(m: Entries) {
    forall id :: id in m ==> m[id].interval >= 1
  }

  predicate WereDue(m0: Entries, now: int, fired: seq<Key>) {
    forall i :: 0 <= i < |fired| ==> fired[i].id in m0 && fired[i] == KeyOf(m0, fired[i].id) && fired[i].deadline <= now
  }

  predicate Ascending(fired: seq<Key>) {
    forall i, j :: 0 <= i < j < |fired| ==> Before(fired[i], fired[j])
  }

  ghost predicate RestComesLater(m: Entries, now: int, fired: seq<Key>) {
    forall i, id :: 0 <= i < |fired| && id in m && m[id].deadline <= now ==> Before(fired[i], KeyOf(m, id))
  }

  ghost predicate Untouched(m0: Entries, m: Entries, fired: seq<Key>) {
    forall id :: id in m0 && (forall i :: 0 <= i < |fired| ==> fired[i].id != id) ==> id in m && m[id] == m0[id]
  }

  /** Each callback's answer was followed. */
  ghost predicate Answered(m0: Entries, m: Entries, now: int, answer: (nat, TimerId) -> bool, fired: seq<Key>)
  {
    forall i :: 0 <= i < |fired| ==>
      var id := fired[i].id;
      && id in m0
      && if answer(i, id) then id in m && m[id] == Entry(m0[id].interval, now + m0[id].interval) else id !in m
  }

  lemma HandledNothing(m: Entries, now: int, answer: (nat, TimerId) -> bool)
    requires forall id :: id in m ==> m[id].interval >= 1
    ensures Handled(m, m, now, answer, [])
  {
  }

  lemma NothingDue(m: Entries, k: Key, now: int)
    requires IsFirstOf(m, k) && k.deadline > now
    ensures Due(m, now) == {}
  {
  }

  lemma NoEntries(now: int)
    ensures Due(map[], now) == {}
  {
  }

  lemma Dropped(m: Entries, id: TimerId, now: int)
    requires id in m
    ensures Fired(m, id, now, false) == m - {id}
  {
  }

  lemma DueAfterFire(m: Entries, k: Key, now: int, again: bool)
    requires IsFirstOf(m, k) && k.deadline <= now && m[k.id].interval >= 1
    ensures Due(Fired(m, k.id, now, again), now) == Due(m, now) - {k.id} && k.id in Due(m, now)
  {
  }

  lemma FiredIsNotDue(m0: Entries, m: Entries, now: int, answer: (nat, TimerId) -> bool, fired: seq<Key>, i: nat)
    requires Positive(m) && Answered(m0, m, now, answer, fired) && i < |fired|
    ensures fired[i].id in m ==> m[fired[i].id].deadline > now
  {
    var id := fired[i].id;
    if id in m {
      assert m[id].interval >= 1;
    }
  }

  /** The next timer to fire has not fired in this pass. */
  lemma NextIsNew(m0: Entries, m: Entries, now: int, answer: (nat, TimerId) -> bool, fired: seq<Key>, k: Key)
    requires Positive(m) && m.Keys <= m0.Keys && RestComesLater(m, now, fired)
    requires Untouched(m0, m, fired) && Answered(m0, m, now, answer, fired)
    requires IsFirstOf(m, k) && k.deadline <= now
    ensures forall i :: 0 <= i < |fired| ==> fired[i].id != k.id && Before(fired[i], k)
    ensures k.id in m0 && m[k.id] == m0[k.id]
  {
    forall i | 0 <= i < |fired|
      ensures fired[i].id != k.id && Before(fired[i], k)
    {
      assert Before(fired[i], KeyOf(m, k.id));
      FiredIsNotDue(m0, m, now, answer, fired, i);
    }
  }

  lemma NextKeepsOrder(m0: Entries, m: Entries, now: int, fired: seq<Key>, k: Key, again: bool)
    requires WereDue(m0, now, fired) && Ascending(fired) && RestComesLater(m, now, fired) && Positive(m)
    requires forall i :: 0 <= i < |fired| ==> fired[i].id != k.id && Before(fired[i], k)
    requires IsFirstOf(m, k) && k.deadline <= now && k.id in m0 && m[k.id] == m0[k.id]
    ensures WereDue(m0, now, fired + [k]) && Ascending(fired + [k])
    ensures RestComesLater(Fired(m, k.id, now, again), now, fired + [k])
  {
  }

  lemma NextIsAnswered(m0: Entries, m: Entries, now: int, answer: (nat, TimerId) -> bool, fired: seq<Key>, k: Key)
    requires Answered(m0, m, now, answer, fired)
    requires forall i :: 0 <= i < |fired| ==> fired[i].id != k.id
    requires k.id in m && k.id in m0 && m[k.id] == m0[k.id]
    ensures Answered(m0, Fired(m, k.id, now, answer(|fired|, k.id)), now, answer, fired + [k])
  {
  }

  lemma OthersUntouched(m0: Entries, m: Entries, now: int, fired: seq<Key>, k: Key, again: bool)
    requires Positive(m) && m.Keys <= m0.Keys && Untouched(m0, m, fired) && k.id in m
    ensures var t := Fired(m, k.id, now, again);
            Positive(t) && t.Keys <= m0.Keys && Untouched(m0, t, fired + [k])
  {
    var t := Fired(m, k.id, now, again);
    forall id | id in m0 && (forall i :: 0 <= i < |fired + [k]| ==> (fired + [k])[i].id != id)
      ensures id in t && t[id] == m0[id]
    {
      assert (fired + [k])[|fired|].id != id;
      forall i | 0 <= i < |fired|
        ensures fired[i].id != id
      {
        assert (fired + [k])[i].id != id;
      }
    }
  }

  lemma HandledNext(m0: Entries, m: Entries, now: int, answer: (nat, TimerId) -> bool, fired: seq<Key>, k: Key)
    requires Handled(m0, m, now, answer, fired)
    requires IsFirstOf(m, k) && k.deadline <= now
    ensures var t := Fired(m, k.id, now, answer(|fired|, k.id));
            && Handled(m0, t, now, answer, fired + [k])
            && Due(t, now) == Due(m, now) - {k.id} && k.id in Due(m, now)
  {
    hide WereDue, Ascending, RestComesLater, Untouched, Answered, Fired;
    NextIsNew(m0, m, now, answer, fired, k);
    NextKeepsOrder(m0, m, now, fired, k, answer(|fired|, k.id));
    NextIsAnswered(m0, m, now, answer, fired, k);
    OthersUntouched(m0, m, now, fired, k, answer(|fired|, k.id));
    DueAfterFire(m, k, now, answer(|fired|, k.id));
  }

  /** A pass fires exactly the timers that were due. */
  lemma FiredAreTheDue(m0: Entries, m: Entries, now: int, answer: (nat, TimerId) -> bool, fired: seq<Key>)
    requires Handled(m0, m, now, answer, fired) && Due(m, now) == {}
    ensures forall id :: id in Due(m0, now) <==> exists i :: 0 <= i < |fired| && fired[i].id == id
    ensures forall i, j :: 0 <= i < j < |fired| ==> fired[i].id != fired[j].id
  {
    forall id | id in Due(m0, now)
      ensures exists i :: 0 <= i < |fired| && fired[i].id == id
    {
      assert id !in Due(m, now);
    }
  }

  // ---------------------------------------------------------------------------
  // Disagreement
  // ---------------------------------------------------------------------------

  /** A timer of 0 ms is filed under another deadline than it stores. */
  method ZeroIntervalDisagrees(now: int) returns (queue: TimerQueue)
    ensures fresh(queue) && !queue.Agree()
    ensures queue.Contents() == map[1 := Entry(1, now + 1)] && queue.events.Keys == {Key(now, 1)}
  {
    hide TimerQueue.Valid, TimerQueue.Agree, TimerQueue.Contents;
    queue := new TimerQueue();
    queue.SameIds();
    var _ := queue.AddTimer(0, now);
  }

  /** The ids come round after enough timers: with the first timer still waiting, its id
      is given out once more, and the second event under it has no timer. */
  method ReusedIdDisagrees() returns (queue: TimerQueue)
    ensures fresh(queue) && !queue.Agree()
  {
    hide TimerQueue.Valid, TimerQueue.Agree, TimerQueue.Contents;
    queue := new TimerQueue();
    queue.SameIds();
    var first := queue.AddTimer(10, 0);
    while queue.last_timer_id != 0
      invariant fresh(queue) && queue.Valid() && queue.Contents() == map[first := Entry(10, 10)]
      invariant queue.last_timer_id < ID_MOD
      decreases if queue.last_timer_id == 0 then 0 else ID_MOD - queue.last_timer_id
    {
      queue.SameIds();
      var other := queue.AddTimer(10, 0);
      queue.RemoveTimer(other);
    }
    queue.SameIds();
    var second := queue.AddTimer(10, 5);
  }
}
