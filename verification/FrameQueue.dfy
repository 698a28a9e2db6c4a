/** The drop-oldest queue of threadsafe_queue.h. */
module FrameQueue {
  /** A frame that left the queue at its front: dropped or popped. */
  datatype Departure<F> = Departure(frame: F, dropped: bool)

  function Frames<F>(departed: seq<Departure<F>>): (s: seq<F>)
    ensures |s| == |departed|
  {
    seq(|departed|, i requires 0 <= i < |departed| => departed[i].frame)
  }

  function Popped<F>(departed: seq<Departure<F>>): seq<F> {
    if departed == [] then []
    else
      var last := departed[|departed| - 1];
      Popped(departed[..|departed| - 1]) + if last.dropped then [] else [last.frame]
  }

  function Drops<F>(departed: seq<Departure<F>>): nat {
    if departed == [] then 0
    else Drops(departed[..|departed| - 1]) + if departed[|departed| - 1].dropped then 1 else 0
  }

  /** The queue as a value. */
  datatype Queue<F> = Queue(contents: seq<F>, limit: nat, terminated: bool, pushed: seq<F>, departed: seq<Departure<F>>)
  {
    /** Pushed frames are exactly the departed ones, in order, and then the queued
        ones; the length is within the limit. */
    ghost predicate Valid() {
      pushed == Frames(departed) + contents && |contents| <= limit
    }

    /** `move_push`. */
    function Push(f: F): Queue<F> {
      if terminated then this
      else
        var q := contents + [f];
        if |q| > limit then
          this.(contents := q[1..], pushed := pushed + [f], departed := departed + [Departure(q[0], true)])
        else this.(contents := q, pushed := pushed + [f])
    }

    /** `wait_and_pop` on a queue that holds a frame. */
    function Pop(): Queue<F>
      requires contents != []
    {
      this.(contents := contents[1..], departed := departed + [Departure(contents[0], false)])
    }
  }

  lemma DepartedSnoc<F>(departed: seq<Departure<F>>, d: Departure<F>)
    ensures Frames(departed + [d]) == Frames(departed) + [d.frame]
    ensures Popped(departed + [d]) == Popped(departed) + if d.dropped then [] else [d.frame]
    ensures Drops(departed + [d]) == Drops(departed) + if d.dropped then 1 else 0
  {
    assert (departed + [d])[..|departed|] == departed;
  }

  lemma PushKeepsValid<F>(q: Queue<F>, f: F)
    requires q.Valid()
    ensures q.Push(f).Valid()
    ensures Popped(q.Push(f).departed) == Popped(q.departed)
    ensures Drops(q.Push(f).departed) == Drops(q.departed) + if !q.terminated && |q.contents| == q.limit then 1 else 0
  {
    if !q.terminated && |q.contents| == q.limit {
      var all := q.contents + [f];
      DepartedSnoc(q.departed, Departure(all[0], true));
      assert q.pushed + [f] == Frames(q.departed) + all;
      assert all == [all[0]] + all[1..];
    }
  }

  lemma PopKeepsValid<F>(q: Queue<F>)
    requires q.Valid() && q.contents != []
    ensures q.Pop().Valid()
    ensures Popped(q.Pop().departed) == Popped(q.departed) + [q.contents[0]]
    ensures Drops(q.Pop().departed) == Drops(q.departed)
  {
    DepartedSnoc(q.departed, Departure(q.contents[0], false));
    assert q.contents == [q.contents[0]] + q.contents[1..];
  }

  /** No frame is unaccounted for: pushed = popped + dropped + queued. */
  lemma {:induction false} CountsAddUp<F>(departed: seq<Departure<F>>)
    ensures |departed| == |Popped(departed)| + Drops(departed)
  {
    if departed != [] {
      CountsAddUp(departed[..|departed| - 1]);
    }
  }

  lemma NothingUnaccounted<F>(q: Queue<F>)
    requires q.Valid()
    ensures |q.pushed| == |Popped(q.departed)| + Drops(q.departed) + |q.contents|
  {
    CountsAddUp(q.departed);
  }

  /** What comes of a call of `wait_and_pop`: a frame, nullptr, or no return yet. */
  datatype Woken<F> = Got(frame: F) | Drained | Waits

  // ---------------------------------------------------------------------------
  // The class
  // ---------------------------------------------------------------------------

  class ThreadsafeQueue<F> {
    var data_queue: seq<F>
    const size_limit: nat
    var m_termination: bool
    var m_dropped_count: nat
    /** History, for the specification. */
    ghost var pushed: seq<F>
    ghost var departed: seq<Departure<F>>
    ghost const unset: nat

    ghost function Model(): Queue<F>
      reads this
    {
      Queue(data_queue, size_limit, m_termination, pushed, departed)
    }

    /** The drop counter counts from whatever value it had at construction. */
    ghost predicate Valid()
      reads this
    {
      Model().Valid() && m_dropped_count == unset + Drops(departed)
    }

    /** The constructor leaves the drop counter unset; `garbage` is its value. */
    constructor (size_limit: nat, garbage: nat)
      ensures Valid() && Model() == Queue([], size_limit, false, [], []) && m_dropped_count == unset == garbage
    {
      data_queue := [];
      this.size_limit := size_limit;
      m_termination := false;
      m_dropped_count := garbage;
      pushed, departed := [], [];
      unset := garbage;
    }

    method MovePush(f: F)
      requires Valid()
      modifies this
      ensures Valid() && Model() == old(Model()).Push(f)
    {
      hide Popped, Drops, Frames;
      PushKeepsValid(Model(), f);
      if m_termination {
        return;
      }
      data_queue := data_queue + [f];
      pushed := pushed + [f];
      if |data_queue| > size_limit {
        departed := departed + [Departure(data_queue[0], true)];
        data_queue := data_queue[1..];
        m_dropped_count := m_dropped_count + 1;
      }
    }

    /** Takes the oldest frame while there is one. On an empty queue the caller is told
        that it is terminated, or waits until that changes. */
    method WaitAndPop() returns (r: Woken<F>)
      requires Valid()
      modifies this
      ensures Valid()
      ensures r.Waits? <==> old(data_queue) == [] && !old(m_termination)
      ensures r.Drained? <==> old(data_queue) == [] && old(m_termination)
      ensures old(data_queue) == [] ==> Model() == old(Model())
      ensures old(data_queue) != [] ==> r == Got(old(data_queue)[0]) && Model() == old(Model()).Pop()
    {
      if |data_queue| == 0 && !m_termination {
        return Waits;
      }
      if |data_queue| > 0 {
        PopKeepsValid(Model());
        var res := data_queue[0];
        departed := departed + [Departure(res, false)];
        data_queue := data_queue[1..];
        return Got(res);
      }
      return Drained;
    }

    method Termination()
      requires Valid()
      modifies this`m_termination
      ensures Valid() && Model() == old(Model()).(terminated := true)
    {
      m_termination := true;
    }
  }
}
