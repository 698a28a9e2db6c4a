/** The trigger queue of rtsp-server/net/TaskScheduler.cpp over the ring of
    rtsp-server/net/RingBuffer.h, with producers and the consumer interleaved at
    every access to a shared field.

    A producer runs `AddTriggerEvent`: it looks at the size, takes the lock, and
    inside the lock runs `PushData`. The consumer runs `Pop`. */
module TriggerQueue {
  /** Where the holder of the lock stands inside `PushData`. */
  datatype Producer<T> =
    | Out
    | Entered(item: T)   // holds the lock
    | Checked(item: T)   // saw room
    | Written(item: T)   // stored into the slot
    | Advanced(item: T)  // moved put_pos

  /** Where the consumer stands inside `Pop`. */
  datatype Consumer =
    | Idle
    | Ready      // saw data
    | Taken      // moved the item out of the slot
    | Moved      // moved get_pos

  datatype Machine<T> = Machine(
    num: int,             // num_datas_, the one field both sides write
    put: nat,             // written by the producer
    get: nat,             // written by the consumer
    slots: seq<T>,        // buffer_; its length is capacity_
    waiting: seq<T>,      // items whose callers passed the size check and wait for the lock
    producer: Producer<T>,
    consumer: Consumer,
    pushed: seq<T>,       // items stored so far
    popped: seq<T>,       // items moved out so far, in the order their callbacks run
    answers: seq<Answer<T>> // calls of AddTriggerEvent that returned true, in that order
  )

  /** `stored` tells whether the item of a true answer reached the ring. */
  datatype Answer<T> = Answer(item: T, stored: bool)

  datatype Event<T> =
    | Admit(item: T)      // size check outside the lock
    | Enter(i: nat)       // lock, for any one of the waiting callers
    | CheckRoom           // num_datas_ < capacity_
    | Write               // buffer_[put_pos_] = data
    | AdvancePut          // Add(put_pos_)
    | Count               // ++num_datas_, unlock, return true
    | CheckData           // num_datas_ > 0
    | Take(moved: T)      // data = move(buffer_[get_pos_]); the slot keeps some moved-from value
    | AdvanceGet          // Add(get_pos_)
    | Uncount             // --num_datas_

  function Next(pos: nat, capacity: nat): nat {
    if pos + 1 == capacity then 0 else pos + 1
  }

  ghost predicate Enabled<T>(s: Machine<T>, e: Event<T>) {
    match e
    case Admit(_) => s.num < |s.slots|
    case Enter(i) => i < |s.waiting| && s.producer.Out?
    case CheckRoom => s.producer.Entered?
    case Write => s.producer.Checked? && s.put < |s.slots|
    case AdvancePut => s.producer.Written?
    case Count => s.producer.Advanced?
    case CheckData => s.consumer.Idle? && s.num > 0
    case Take(_) => s.consumer.Ready? && s.get < |s.slots|
    case AdvanceGet => s.consumer.Taken?
    case Uncount => s.consumer.Moved?
  }

  ghost function Apply<T>(s: Machine<T>, e: Event<T>): Machine<T>
    requires Enabled(s, e)
  {
    match e
    case Admit(item) => s.(waiting := s.waiting + [item])
    case Enter(i) => s.(waiting := s.waiting[..i] + s.waiting[i + 1..], producer := Entered(s.waiting[i]))
    case CheckRoom =>
      var item := s.producer.item;
      if s.num < |s.slots| then s.(producer := Checked(item))
      else s.(producer := Out, answers := s.answers + [Answer(item, false)])
    case Write =>
      var item := s.producer.item;
      s.(producer := Written(item), slots := s.slots[s.put := item], pushed := s.pushed + [item])
    case AdvancePut => s.(producer := Advanced(s.producer.item), put := Next(s.put, |s.slots|))
    case Count => s.(producer := Out, num := s.num + 1, answers := s.answers + [Answer(s.producer.item, true)])
    case CheckData => s.(consumer := Ready)
    case Take(moved) =>
      s.(consumer := Taken, popped := s.popped + [s.slots[s.get]], slots := s.slots[s.get := moved])
    case AdvanceGet => s.(consumer := Moved, get := Next(s.get, |s.slots|))
    case Uncount => s.(consumer := Idle, num := s.num - 1)
  }

  ghost predicate Init<T>(s: Machine<T>) {
    && s.num == 0 && s.put == 0 && s.get == 0 && s.waiting == []
    && s.producer.Out? && s.consumer.Idle?
    && s.pushed == [] && s.popped == [] && s.answers == []
  }

  /** A run: states[i] becomes states[i + 1] by events[i]. */
  ghost predicate Run<T>(states: seq<Machine<T>>, events: seq<Event<T>>) {
    && |states| == |events| + 1 && Init(states[0])
    && (forall i :: 0 <= i < |events| ==> Enabled(states[i], events[i]) && states[i + 1] == Apply(states[i], events[i]))
  }

  // ---------------------------------------------------------------------------
  // Slots
  // ---------------------------------------------------------------------------

  /** The slot of the k-th item. */
  function Slot(k: nat, capacity: nat): (p: nat)
    ensures 0 < capacity ==> p < capacity
  {
    if k == 0 then 0 else Next(Slot(k - 1, capacity), capacity)
  }

  lemma {:induction false} SlotFrom(k: nat, j: nat, capacity: nat)
    requires j <= capacity && 0 < capacity
    ensures var p := Slot(k, capacity);
            Slot(k + j, capacity) == if p + j < capacity then p + j else p + j - capacity
  {
    if j > 0 {
      SlotFrom(k, j - 1, capacity);
    }
  }

  /** Items less than a lap apart have different slots. */
  lemma SlotsDiffer(k: nat, l: nat, capacity: nat)
    requires k < l < k + capacity
    ensures Slot(k, capacity) != Slot(l, capacity)
  {
    SlotFrom(k, l - k, capacity);
  }

  // ---------------------------------------------------------------------------
  // Invariant
  // ---------------------------------------------------------------------------

  /** Items stored but not yet counted. */
  function Uncounted<T>(s: Machine<T>): nat {
    if s.producer.Written? || s.producer.Advanced? then 1 else 0
  }

  /** Items taken but still counted. */
  function StillCounted<T>(s: Machine<T>): nat {
    if s.consumer.Taken? || s.consumer.Moved? then 1 else 0
  }

  ghost predicate Inv<T>(s: Machine<T>) {
    var cap := |s.slots|;
    && s.popped <= s.pushed
    && s.num == |s.pushed| - |s.popped| - Uncounted(s) + StillCounted(s)
    && Uncounted(s) <= |s.pushed| - |s.popped|
    && 0 <= s.num && s.num + Uncounted(s) <= cap
    && (s.producer.Checked? ==> s.num < cap)
    && (s.consumer.Ready? ==> s.num > 0)
    && (s.producer.Written? ==> s.pushed != [])
    && (s.consumer.Taken? ==> s.popped != [])
    && (cap > 0 ==> s.put == Slot(if s.producer.Written? then |s.pushed| - 1 else |s.pushed|, cap))
    && (cap > 0 ==> s.get == Slot(if s.consumer.Taken? then |s.popped| - 1 else |s.popped|, cap))
    && (forall k :: |s.popped| <= k < |s.pushed| ==> s.slots[Slot(k, cap)] == s.pushed[k])
  }

  function StoredItems<T>(answers: seq<Answer<T>>): seq<T> {
    if answers == [] then []
    else
      var last := answers[|answers| - 1];
      StoredItems(answers[..|answers| - 1]) + if last.stored then [last.item] else []
  }

  /** The stored items are those of the true answers that stored theirs, in
      order, and the one a producer has in hand. */
  ghost predicate Accounted<T>(s: Machine<T>) {
    s.pushed == StoredItems(s.answers) + InFlight(s)
  }

  /** Stored, but its AddTriggerEvent has not returned yet. */
  function InFlight<T>(s: Machine<T>): seq<T> {
    if s.producer.Written? || s.producer.Advanced? then [s.producer.item] else []
  }

  /** The slots of the items that are still counted, the one being moved out of
      included. */
  ghost predicate Occupied<T>(s: Machine<T>, p: nat) {
    exists k :: |s.popped| - StillCounted(s) <= k < |s.pushed| && 0 <= k && Slot(k, |s.slots|) == p
  }

  lemma InitInv<T>(s: Machine<T>)
    requires Init(s)
    ensures Inv(s)
  {
  }

  /** The step that stores an item never hits an occupied slot. */
  lemma WriteHitsFreeSlot<T>(s: Machine<T>)
    requires Inv(s) && s.producer.Checked?
    ensures s.put < |s.slots| && !Occupied(s, s.put)
  {
    var cap, n := |s.slots|, |s.pushed|;
    forall k | |s.popped| - StillCounted(s) <= k < n && 0 <= k
      ensures Slot(k, cap) != s.put
    {
      SlotsDiffer(k, n, cap);
    }
  }

  /** The step that takes an item finds the oldest one in its slot. */
  lemma TakeFindsOldest<T>(s: Machine<T>)
    requires Inv(s) && s.consumer.Ready?
    ensures |s.popped| < |s.pushed| && s.get < |s.slots| && s.slots[s.get] == s.pushed[|s.popped|]
  {
  }

  lemma WriteKeepsInv<T>(s: Machine<T>, e: Event<T>)
    requires Inv(s) && Enabled(s, e) && e.Write?
    ensures Inv(Apply(s, e))
  {
    var t, cap := Apply(s, e), |s.slots|;
    forall k | |t.popped| <= k < |t.pushed|
      ensures t.slots[Slot(k, cap)] == t.pushed[k]
    {
      if k < |s.pushed| {
        SlotsDiffer(k, |s.pushed|, cap);
      }
    }
  }

  lemma TakeKeepsInv<T>(s: Machine<T>, e: Event<T>)
    requires Inv(s) && Enabled(s, e) && e.Take?
    ensures Inv(Apply(s, e))
  {
    TakeFindsOldest(s);
    var t, cap := Apply(s, e), |s.slots|;
    forall k | |t.popped| <= k < |t.pushed|
      ensures t.slots[Slot(k, cap)] == t.pushed[k]
    {
      SlotsDiffer(|s.popped|, k, cap);
    }
  }

  /** Every step keeps the invariant. */
  lemma StepKeepsInv<T>(s: Machine<T>, e: Event<T>)
    requires Inv(s) && Enabled(s, e)
    ensures Inv(Apply(s, e))
  {
    match e
    case Write => WriteKeepsInv(s, e);
    case Take(_) => TakeKeepsInv(s, e);
    case _ =>
  }

  lemma StepKeepsAccount<T>(s: Machine<T>, e: Event<T>)
    requires Accounted(s) && Enabled(s, e)
    ensures Accounted(Apply(s, e))
  {
    hide StoredItems;
    match e
    case CheckRoom => StoredSnoc(s.answers, Answer(s.producer.item, false));
    case Count => StoredSnoc(s.answers, Answer(s.producer.item, true));
    case _ =>
  }

  lemma StoredSnoc<T>(answers: seq<Answer<T>>, a: Answer<T>)
    ensures StoredItems(answers + [a]) == StoredItems(answers) + if a.stored then [a.item] else []
  {
    assert (answers + [a])[..|answers|] == answers;
  }

  /** Safety over every run and every interleaving: the popped items are a prefix
      of the pushed ones, the counter stays within the capacity, and no answer is
      unaccounted for. */
  lemma {:induction false} RunIsSafe<T>(states: seq<Machine<T>>, events: seq<Event<T>>, n: nat)
    requires Run(states, events) && n <= |events|
    ensures Inv(states[n]) && Accounted(states[n])
    ensures states[n].popped <= states[n].pushed && 0 <= states[n].num <= |states[n].slots|
  {
    if n == 0 {
      InitInv(states[0]);
    } else {
      RunIsSafe(states, events, n - 1);
      StepKeepsInv(states[n - 1], events[n - 1]);
      StepKeepsAccount(states[n - 1], events[n - 1]);
    }
  }

  // ---------------------------------------------------------------------------
  // No call is forgotten
  // ---------------------------------------------------------------------------

  /** Items of the calls that passed the size check. */
  ghost function AdmittedBy<T>(e: Event<T>): multiset<T> {
    if e.Admit? then multiset{e.item} else multiset{}
  }

  ghost function AdmittedItems<T>(events: seq<Event<T>>): multiset<T> {
    if events == [] then multiset{}
    else AdmittedItems(events[..|events| - 1]) + AdmittedBy(events[|events| - 1])
  }

  ghost function Holding<T>(p: Producer<T>): multiset<T> {
    if p.Out? then multiset{} else multiset{p.item}
  }

  ghost function Answered<T>(answers: seq<Answer<T>>): multiset<T> {
    if answers == [] then multiset{}
    else Answered(answers[..|answers| - 1]) + multiset{answers[|answers| - 1].item}
  }

  /** Items of calls that wait, hold the lock or have their answer. */
  ghost function Calls<T>(s: Machine<T>): multiset<T> {
    multiset(s.waiting) + Holding(s.producer) + Answered(s.answers)
  }

  lemma StepKeepsCalls<T>(s: Machine<T>, e: Event<T>)
    requires Enabled(s, e)
    ensures Calls(Apply(s, e)) == Calls(s) + AdmittedBy(e)
  {
    hide Answered, Holding;
    match e
    case Enter(i) => EnterKeepsCalls(s.waiting, i, s.producer);
    case CheckRoom => AnswerKeepsCalls(s, false);
    case Count => AnswerKeepsCalls(s, true);
    case Write => SameItem(s.producer, Apply(s, e).producer);
    case AdvancePut => SameItem(s.producer, Apply(s, e).producer);
    case _ =>
  }

  lemma SameItem<T>(p: Producer<T>, q: Producer<T>)
    requires !p.Out? && !q.Out? && p.item == q.item
    ensures Holding(p) == Holding(q)
  {
  }

  lemma EnterKeepsCalls<T>(waiting: seq<T>, i: nat, p: Producer<T>)
    requires i < |waiting| && p.Out?
    ensures multiset(waiting[..i] + waiting[i + 1..]) + Holding(Entered(waiting[i])) == multiset(waiting) + Holding(p)
  {
    assert waiting == waiting[..i] + [waiting[i]] + waiting[i + 1..];
  }

  /** A holder of the lock that leaves has its answer; one that found room goes on. */
  lemma AnswerKeepsCalls<T>(s: Machine<T>, stored: bool)
    requires !s.producer.Out?
    ensures var item := s.producer.item;
            && multiset(s.waiting) + Holding<T>(Out) + Answered(s.answers + [Answer(item, stored)]) == Calls(s)
            && Holding(Checked(item)) == Holding(s.producer)
  {
    assert (s.answers + [Answer(s.producer.item, stored)])[..|s.answers|] == s.answers;
  }

  lemma AdmittedNext<T>(events: seq<Event<T>>, n: nat)
    requires 0 < n <= |events|
    ensures AdmittedItems(events[..n]) == AdmittedItems(events[..n - 1]) + AdmittedBy(events[n - 1])
  {
    assert events[..n][..n - 1] == events[..n - 1];
  }

  lemma NothingAdmitted<T>(s: Machine<T>, events: seq<Event<T>>)
    requires Init(s)
    ensures Calls(s) == AdmittedItems(events[..0])
  {
  }

  /** Over every run, each call that passed the size check waits, holds the lock or
      has been answered, exactly once. */
  lemma {:induction false} NoCallIsForgotten<T>(states: seq<Machine<T>>, events: seq<Event<T>>, n: nat)
    requires Run(states, events) && n <= |events|
    ensures Calls(states[n]) == AdmittedItems(events[..n])
  {
    hide Enabled, Apply, Init, Calls, AdmittedBy, AdmittedItems;
    if n == 0 {
      NothingAdmitted(states[0], events);
    } else {
      NoCallIsForgotten(states, events, n - 1);
      StepKeepsCalls(states[n - 1], events[n - 1]);
      AdmittedNext(events, n);
    }
  }

  // ---------------------------------------------------------------------------
  // When a true answer loses its item
  // ---------------------------------------------------------------------------

  /** An item is lost exactly by the room check inside the lock when the ring has
      filled up since the size check outside it. */
  lemma LossExactly<T>(s: Machine<T>, e: Event<T>)
    requires Inv(s) && Enabled(s, e)
    ensures Lost(Apply(s, e).answers) > Lost(s.answers) <==> e.CheckRoom? && s.num == |s.slots|
  {
    var t := Apply(s, e);
    if |t.answers| > |s.answers| {
      assert t.answers[..|s.answers|] == s.answers;
    }
  }

  /** How many items of true answers never reached the ring. */
  function Lost<T>(answers: seq<Answer<T>>): nat {
    if answers == [] then 0
    else Lost(answers[..|answers| - 1]) + if answers[|answers| - 1].stored then 0 else 1
  }

  /** Producers call AddTriggerEvent one after the other. */
  ghost predicate Serial<T>(states: seq<Machine<T>>, events: seq<Event<T>>)
    requires Run(states, events)
  {
    forall i :: 0 <= i < |events| && events[i].Admit? ==> states[i].waiting == [] && states[i].producer.Out?
  }

  ghost predicate SerialInv<T>(s: Machine<T>) {
    && Lost(s.answers) == 0
    && (s.waiting != [] ==> |s.waiting| == 1 && s.producer.Out? && s.num < |s.slots|)
    && (s.producer.Entered? ==> s.num < |s.slots|)
  }

  lemma SerialStep<T>(s: Machine<T>, e: Event<T>)
    requires SerialInv(s) && Enabled(s, e)
    requires e.Admit? ==> s.waiting == [] && s.producer.Out?
    ensures SerialInv(Apply(s, e))
  {
    var t := Apply(s, e);
    if |t.answers| > |s.answers| {
      assert t.answers[..|s.answers|] == s.answers;
    }
  }

  /** With serialised callers a true answer always means that the item is stored. */
  lemma {:induction false} SerialRunsLoseNothing<T>(states: seq<Machine<T>>, events: seq<Event<T>>, n: nat)
    requires Run(states, events) && Serial(states, events) && n <= |events|
    ensures SerialInv(states[n])
  {
    if n > 0 {
      hide Enabled, Apply, SerialInv;
      SerialRunsLoseNothing(states, events, n - 1);
      SerialStep(states[n - 1], events[n - 1]);
    } else {
      assert SerialInv(states[0]);
    }
  }

  lemma NoEvents<T>(s: Machine<T>) returns (states: seq<Machine<T>>, events: seq<Event<T>>)
    requires Init(s)
    ensures Run(states, events) && events == [] && states == [s]
  {
    states, events := [s], [];
  }

  lemma Then<T>(states: seq<Machine<T>>, events: seq<Event<T>>, e: Event<T>, next: Machine<T>)
    returns (longer: seq<Machine<T>>, more: seq<Event<T>>)
    requires Run(states, events) && Enabled(states[|events|], e) && Apply(states[|events|], e) == next
    ensures Run(longer, more) && |longer| == |more| + 1 && |more| == |events| + 1 && longer[|more|] == next
    ensures longer[0] == states[0] && states <= longer
  {
    hide Enabled, Apply;
    longer, more := states + [next], events + [e];
  }

  /** Nobody is inside `AddTriggerEvent`. */
  ghost predicate Quiet<T>(s: Machine<T>) {
    s.waiting == [] && s.producer.Out? && s.num < |s.slots| && s.put < |s.slots|
  }

  ghost function Stored<T>(s: Machine<T>, item: T): Machine<T>
    requires s.put < |s.slots|
  {
    s.(num := s.num + 1, put := Next(s.put, |s.slots|), slots := s.slots[s.put := item], producer := Out,
       pushed := s.pushed + [item], answers := s.answers + [Answer(item, true)])
  }

  /** The holder of the lock stores its item. */
  lemma Store<T>(states: seq<Machine<T>>, events: seq<Event<T>>) returns (longer: seq<Machine<T>>, more: seq<Event<T>>)
    requires Run(states, events)
    requires var s := states[|events|]; s.producer.Entered? && s.num < |s.slots| && s.put < |s.slots|
    ensures Run(longer, more) && |longer| == |more| + 1 && longer[0] == states[0]
    ensures longer[|more|] == Stored(states[|events|], states[|events|].producer.item)
  {
    var s, item := states[|events|], states[|events|].producer.item;
    hide Run;
    var s1 := s.(producer := Checked(item));
    longer, more := Then(states, events, CheckRoom, s1);
    var s2 := s1.(producer := Written(item), slots := s.slots[s.put := item], pushed := s.pushed + [item]);
    longer, more := Then(longer, more, Write, s2);
    var s3 := s2.(producer := Advanced(item), put := Next(s.put, |s.slots|));
    longer, more := Then(longer, more, AdvancePut, s3);
    longer, more := Then(longer, more, Count, Stored(s, item));
  }

  /** One call of `AddTriggerEvent` from beginning to end. */
  lemma OneCall<T>(states: seq<Machine<T>>, events: seq<Event<T>>, item: T)
    returns (longer: seq<Machine<T>>, more: seq<Event<T>>)
    requires Run(states, events) && Quiet(states[|events|])
    ensures Run(longer, more) && |longer| == |more| + 1 && longer[0] == states[0]
    ensures longer[|more|] == Stored(states[|events|], item)
  {
    var s := states[|events|];
    hide Run;
    longer, more := Then(states, events, Admit(item), s.(waiting := [item]));
    longer, more := Then(longer, more, Enter(0), s.(producer := Entered(item)));
    longer, more := Store(longer, more);
  }

  /** Calls that leave n slots of the ring taken. */
  lemma {:induction false} Fill<T>(slots: seq<T>, item: T, n: nat) returns (states: seq<Machine<T>>, events: seq<Event<T>>)
    requires n < |slots|
    ensures Run(states, events) && |states| == |events| + 1 && states[0].slots == slots && Quiet(states[|events|])
    ensures var s := states[|events|];
            && |s.slots| == |slots| && s.num == s.put == n && s.popped == []
            && s.pushed == seq(n, _ => item) && s.answers == seq(n, _ => Answer(item, true))
  {
    hide Run;
    if n == 0 {
      states, events := NoEvents(Machine(0, 0, 0, slots, [], Out, Idle, [], [], []));
    } else {
      states, events := Fill(slots, item, n - 1);
      states, events := OneCall(states, events, item);
    }
  }

  /** Two concurrent callers and one free slot, in a ring of any size: both get a true
      answer, and the second callback is gone. */
  lemma ConcurrentCallersLose<T>(slots: seq<T>, item: T, a: T, b: T)
    returns (states: seq<Machine<T>>, events: seq<Event<T>>)
    requires slots != []
    ensures Run(states, events) && |states| == |events| + 1 && states[0].slots == slots
    ensures var last, full := states[|events|], |slots| - 1;
            && last.answers == seq(full, _ => Answer(item, true)) + [Answer(a, true), Answer(b, false)]
            && last.pushed == seq(full, _ => item) + [a] && last.popped == []
  {
    hide Run;
    states, events := Fill(slots, item, |slots| - 1);
    var s := states[|events|];
    states, events := Then(states, events, Admit(a), s.(waiting := [a]));
    states, events := Then(states, events, Admit(b), s.(waiting := [a, b]));
    states, events := Then(states, events, Enter(0), s.(waiting := [b], producer := Entered(a)));
    states, events := Store(states, events);
    s := states[|events|];
    states, events := Then(states, events, Enter(0), s.(waiting := [], producer := Entered(b)));
    s := s.(waiting := [], answers := s.answers + [Answer(b, false)]);
    states, events := Then(states, events, CheckRoom, s);
  }

  // ---------------------------------------------------------------------------
  // Progress
  // ---------------------------------------------------------------------------

  /** Neither side is ever blocked: the holder of the lock has a next step, a waiting
      caller gets a free lock, and the consumer has a next step while an item is counted. */
  lemma SidesMoveOn<T>(s: Machine<T>, moved: T)
    requires Inv(s)
    ensures !s.producer.Out? ==>
              Enabled(s, CheckRoom) || Enabled(s, Write) || Enabled(s, AdvancePut) || Enabled(s, Count)
    ensures s.producer.Out? && s.waiting != [] ==> Enabled(s, Enter(0))
    ensures !s.consumer.Idle? || s.num > 0 ==>
              Enabled(s, CheckData) || Enabled(s, Take(moved)) || Enabled(s, AdvanceGet) || Enabled(s, Uncount)
  {
    if s.consumer.Ready? {
      TakeFindsOldest(s);
    }
  }

  /** The consumer takes one item from beginning to end. */
  lemma OnePop<T>(states: seq<Machine<T>>, events: seq<Event<T>>) returns (longer: seq<Machine<T>>, more: seq<Event<T>>)
    requires Run(states, events) && states[|events|].consumer.Idle? && states[|events|].num > 0
    ensures Run(longer, more) && |longer| == |more| + 1 && states <= longer
    ensures var s, t := states[|events|], longer[|more|];
            && |s.popped| < |s.pushed| && t.popped == s.popped + [s.pushed[|s.popped|]]
            && t.num == s.num - 1 && t.consumer.Idle?
            && t.pushed == s.pushed && t.producer == s.producer && t.waiting == s.waiting && t.answers == s.answers
  {
    var s := states[|events|];
    RunIsSafe(states, events, |events|);
    FindsOldest(s);
    hide Run, Inv, Next;
    var item := s.slots[s.get];
    var s1 := s.(consumer := Ready);
    longer, more := Then(states, events, CheckData, s1);
    var s2 := s1.(consumer := Taken, popped := s.popped + [item], slots := s.slots[s.get := item]);
    var a := longer;
    longer, more := Then(longer, more, Take(item), s2);
    Extends(states, a, longer);
    var s3 := s2.(consumer := Moved, get := Next(s.get, |s.slots|));
    a := longer;
    longer, more := Then(longer, more, AdvanceGet, s3);
    Extends(states, a, longer);
    a := longer;
    longer, more := Then(longer, more, Uncount, s3.(consumer := Idle, num := s.num - 1));
    Extends(states, a, longer);
  }

  lemma Extends<T>(a: seq<T>, b: seq<T>, c: seq<T>)
    requires a <= b <= c
    ensures a <= c
  {
  }

  lemma FindsOldest<T>(s: Machine<T>)
    requires Inv(s) && s.consumer.Idle? && s.num > 0
    ensures |s.popped| < |s.pushed| && s.get < |s.slots| && s.slots[s.get] == s.pushed[|s.popped|]
  {
    TakeFindsOldest(s.(consumer := Ready));
  }

  /** Whenever nobody is inside, the consumer can run every stored item's callback, in
      order. */
  lemma {:induction false} Drain<T>(states: seq<Machine<T>>, events: seq<Event<T>>)
    returns (longer: seq<Machine<T>>, more: seq<Event<T>>)
    requires Run(states, events) && states[|events|].consumer.Idle? && states[|events|].producer.Out?
    ensures Run(longer, more) && |longer| == |more| + 1 && states <= longer
    ensures longer[|more|].popped == longer[|more|].pushed == states[|events|].pushed
    decreases states[|events|].num
  {
    RunIsSafe(states, events, |events|);
    longer, more := states, events;
    if states[|events|].num > 0 {
      longer, more := OnePop(states, events);
      var mid := longer;
      longer, more := Drain(longer, more);
      Extends(states, mid, longer);
    } else {
      AllPopped(states[|events|]);
    }
  }

  lemma AllPopped<T>(s: Machine<T>)
    requires Inv(s) && s.num <= 0 && s.consumer.Idle? && s.producer.Out?
    ensures s.popped == s.pushed
  {
  }
}
