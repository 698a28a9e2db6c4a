/** The life of an output in rtsp_output.cpp: the encoder's data callback, which
    starts, feeds and stops it, interleaved with the frame push thread.

    Pushes and the stop both run in the data callback, so they are serialised; the
    stop requests of the user interface and the push thread may come in between any
    two steps. */
module OutputLifecycle {
  import opened Wrappers
  import opened FrameQueue

  datatype Thread<F> =
    | NoThread
    | Waiting            // in wait_and_pop
    | Holding(frame: F)  // popped a frame, about to hand it to the server
    | Exited             // got nullptr

  /** Where `rtsp_output_actual_stop` stands. */
  datatype Stop = NotStopping | Joining | Removing | Finishing

  datatype Output<F> = Output(
    active: bool,
    starting: bool,
    stopping: bool,
    stop: Stop,
    queue: Option<Queue<F>>,
    thread: Thread<F>,
    session: bool,       // the session is registered with the server
    delivered: seq<F>)   // frames handed to PushFrame since the queue was made

  datatype Event<F> =
    | Start(ok: bool)                    // rtsp_output_start
    | RequestStop                        // rtsp_output_stop
    | BeginStreaming(ok: bool, added: bool) // rtsp_output_data while starting
    | Frame(frame: F, wanted: bool, due: bool) // rtsp_output_data with a packet; `due`: past the stop time
    | NoPacket                           // rtsp_output_data without a packet: encoder error
    | Join                               // frame_push_thread->join() returns
    | RemoveSession
    | FinishStop
    | PopFrame                           // the thread takes the front frame
    | Deliver                            // server->PushFrame
    | Exit                               // the thread got nullptr and leaves

  predicate Enabled<F>(s: Output<F>, e: Event<F>) {
    match e
    case Start(_) => !s.active && s.stop.NotStopping?
    case RequestStop => true
    case BeginStreaming(_, _) => s.starting && s.stop.NotStopping?
    case Frame(_, _, _) => !s.starting && s.stop.NotStopping?
    case NoPacket => !s.starting && s.stop.NotStopping?
    case Join => s.stop.Joining? && (s.thread.Exited? || s.thread.NoThread?)
    case RemoveSession => s.stop.Removing?
    case FinishStop => s.stop.Finishing?
    case PopFrame => s.thread.Waiting? && s.queue.Some? && s.queue.value.contents != []
    case Deliver => s.thread.Holding?
    case Exit => s.thread.Waiting? && s.queue.Some? && s.queue.value.contents == [] && s.queue.value.terminated
  }

  const QUEUE_LIMIT: nat := 2

  /** The first steps of `rtsp_output_actual_stop`. */
  function BeginStop<F>(s: Output<F>): Output<F> {
    s.(active := false, stop := Joining,
       queue := if s.queue.Some? then Some(s.queue.value.(terminated := true)) else Option.None)
  }

  function NewQueue<F>(): Queue<F> {
    Queue([], QUEUE_LIMIT, false, [], [])
  }

  function Apply<F>(s: Output<F>, e: Event<F>): Output<F>
    requires Enabled(s, e)
  {
    match e
    case Start(ok) => if s.starting || s.stopping || !ok then s else s.(starting := true)
    case RequestStop => if s.starting || s.stopping then s else s.(stopping := true)
    case BeginStreaming(ok, added) =>
      // it can fail before the queue and the session exist, or after
      if !added then BeginStop(s)
      else
        var made := s.(queue := Some(NewQueue()), session := true, delivered := []);
        if !ok then BeginStop(made)
        else made.(thread := Waiting, active := true, starting := false)
    case Frame(frame, wanted, due) =>
      if !s.active then s
      else if s.stopping && due then BeginStop(s)
      else if wanted && s.queue.Some? then s.(queue := Some(s.queue.value.Push(frame)))
      else s
    case NoPacket => if !s.active then s else BeginStop(s)
    case Join => s.(thread := NoThread, stop := Removing)
    case RemoveSession => s.(session := false, stop := Finishing)
    case FinishStop => s.(queue := Option.None, starting := false, stopping := false, stop := NotStopping)
    case PopFrame =>
      var q := s.queue.value;
      s.(queue := Some(q.Pop()), thread := Holding(q.contents[0]))
    case Deliver => s.(delivered := s.delivered + [s.thread.frame], thread := Waiting)
    case Exit => s.(thread := Exited)
  }

  predicate Init<F>(s: Output<F>) {
    s == Output(false, false, false, NotStopping, Option.None, NoThread, false, [])
  }

  ghost predicate Run<F>(states: seq<Output<F>>, events: seq<Event<F>>) {
    && |states| == |events| + 1 && Init(states[0])
    && (forall i :: 0 <= i < |events| ==> Enabled(states[i], events[i]) && states[i + 1] == Apply(states[i], events[i]))
  }

  // ---------------------------------------------------------------------------
  // Invariant
  // ---------------------------------------------------------------------------

  function InHand<F>(t: Thread<F>): seq<F> {
    if t.Holding? then [t.frame] else []
  }

  ghost predicate Inv<F>(s: Output<F>) {
    && (s.active ==> s.stop.NotStopping? && !s.starting && s.queue.Some? && !s.queue.value.terminated
                     && (s.thread.Waiting? || s.thread.Holding?))
    && (!s.active && s.stop.NotStopping? ==> s.queue.None? && s.thread.NoThread? && !s.session)
    && (s.stop.Removing? || s.stop.Finishing? ==> s.thread.NoThread?)
    && (s.stop.Finishing? ==> !s.session)
    && (!s.thread.NoThread? ==> s.queue.Some? && s.session)
    && (s.thread.Exited? ==> s.queue.value.contents == [] && s.queue.value.terminated)
    && match s.queue
       case None => true
       case Some(q) =>
         && q.Valid() && q.limit == QUEUE_LIMIT
         && Popped(q.departed) == s.delivered + InHand(s.thread)
         && (!s.stop.NotStopping? ==> q.terminated)
         && (s.thread.NoThread? ==> q.contents == [])
  }

  lemma PushKeepsInv<F>(s: Output<F>, frame: F)
    requires Inv(s) && s.active
    ensures Inv(s.(queue := Some(s.queue.value.Push(frame))))
  {
    PushKeepsValid(s.queue.value, frame);
  }

  lemma StepKeepsInv<F>(s: Output<F>, e: Event<F>)
    requires Inv(s) && Enabled(s, e)
    ensures Inv(Apply(s, e))
  {
    match e
    case Frame(frame, wanted, due) =>
      if s.active {
        PushKeepsInv(s, frame);
      }
    case PopFrame => PopKeepsValid(s.queue.value);
    case _ =>
  }

  /** Over every run: an active output has its queue, its thread and its session;
      popped frames are exactly the delivered ones and the one in hand, in order. */
  lemma {:induction false} RunKeepsInv<F>(states: seq<Output<F>>, events: seq<Event<F>>, n: nat)
    requires Run(states, events) && n <= |events|
    ensures Inv(states[n])
  {
    if n > 0 {
      hide Inv, Enabled, Apply;
      RunKeepsInv(states, events, n - 1);
      StepKeepsInv(states[n - 1], events[n - 1]);
    } else {
      assert Inv(states[0]);
    }
  }

  /** When the session is about to be removed, every pushed frame was dropped by a
      full queue or reached the server, in push order; and no frame is ever
      delivered without a session. */
  lemma DrainedBeforeRemoval<F>(states: seq<Output<F>>, events: seq<Event<F>>, n: nat)
    requires Run(states, events) && n < |events|
    ensures events[n].RemoveSession? && states[n].queue.Some? ==>
              var q := states[n].queue.value;
              q.pushed == Frames(q.departed) && states[n].delivered == Popped(q.departed)
    ensures events[n].Deliver? ==> states[n].session
  {
    RunKeepsInv(states, events, n);
    if events[n].RemoveSession? && states[n].queue.Some? {
      var q := states[n].queue.value;
      assert q.pushed == Frames(q.departed) + [] == Frames(q.departed);
      assert Popped(q.departed) == states[n].delivered + [] == states[n].delivered;
    }
  }

  // ---------------------------------------------------------------------------
  // From the encoder to the server
  // ---------------------------------------------------------------------------

  /** The frames the encoder delivered for the stream. */
  function Submitted<F>(events: seq<Event<F>>): seq<F> {
    if events == [] then []
    else
      var e := events[|events| - 1];
      Submitted(events[..|events| - 1]) + if e.Frame? && e.wanted then [e.frame] else []
  }

  lemma ActiveStep<F>(s: Output<F>, e: Event<F>)
    requires Inv(s) && Enabled(s, e) && s.active && Apply(s, e).active
    ensures Apply(s, e).queue.Some?
    ensures Apply(s, e).queue.value.pushed
            == s.queue.value.pushed + if e.Frame? && e.wanted then [e.frame] else []
  {
  }

  /** While the output is active, the queue was offered exactly the frames submitted
      since the streaming began. */
  lemma {:induction false} ActivePushes<F>(states: seq<Output<F>>, events: seq<Event<F>>, i: nat, n: nat)
    requires Run(states, events) && i < n <= |events|
    requires events[i].BeginStreaming? && forall k :: i < k <= n ==> states[k].active
    ensures states[n].queue.Some? && states[n].queue.value.pushed == Submitted(events[i + 1..n])
    decreases n - i
  {
    hide Inv, Enabled, Apply;
    RunKeepsInv(states, events, n - 1);
    assert states[n] == Apply(states[n - 1], events[n - 1]) && states[n].active;
    if n == i + 1 {
      Begun(states[i], events[i]);
    } else {
      ActivePushes(states, events, i, n - 1);
      ActiveStep(states[n - 1], events[n - 1]);
      assert events[i + 1..n][..n - i - 2] == events[i + 1..n - 1];
    }
  }

  lemma Begun<F>(s: Output<F>, e: Event<F>)
    requires Enabled(s, e) && e.BeginStreaming? && Apply(s, e).active && Inv(s)
    ensures Apply(s, e).queue == Some(NewQueue())
  {
  }

  lemma StoppingStep<F>(s: Output<F>, e: Event<F>)
    requires Inv(s) && Enabled(s, e) && s.queue.Some?
    requires (s.active && !Apply(s, e).active) || s.stop.Joining? || (s.stop.Removing? && !e.RemoveSession?)
    ensures var t := Apply(s, e);
            && t.queue.Some? && t.queue.value.pushed == s.queue.value.pushed
            && !t.active && (t.stop.Joining? || t.stop.Removing?)
  {
  }

  /** From the start of the stop until the session is removed the queue takes no
      frame, whatever is requested meanwhile. */
  lemma {:induction false} StopPushesNothing<F>(states: seq<Output<F>>, events: seq<Event<F>>, j: nat, n: nat)
    requires Run(states, events) && j < n <= |events|
    requires states[j].active && !states[j + 1].active && forall k :: j < k < n ==> !events[k].RemoveSession?
    ensures states[j].queue.Some? && states[n].queue.Some?
    ensures states[n].queue.value.pushed == states[j].queue.value.pushed
    ensures !states[n].active && (states[n].stop.Joining? || states[n].stop.Removing?)
    decreases n - j
  {
    hide Enabled, Apply;
    RunKeepsInv(states, events, j);
    RunKeepsInv(states, events, n - 1);
    if n > j + 1 {
      StopPushesNothing(states, events, j, n - 1);
    }
    StoppingStep(states[n - 1], events[n - 1]);
  }

  /** A whole session: streaming begins with event i, the stop begins with event j
      and event n is the first removal of the session after it, whatever happens
      meanwhile. By then every frame submitted in between was dropped by a full queue
      or handed to the server, each once and in the order of submission. */
  lemma FramesReachServer<F>(states: seq<Output<F>>, events: seq<Event<F>>, i: nat, j: nat, n: nat)
    requires Run(states, events) && i < j < n < |events|
    requires events[i].BeginStreaming? && events[n].RemoveSession?
    requires forall k :: i < k <= j ==> states[k].active
    requires !states[j + 1].active && forall k :: j < k < n ==> !events[k].RemoveSession?
    ensures states[n].queue.Some?
    ensures var q := states[n].queue.value;
            Frames(q.departed) == Submitted(events[i + 1..j]) && states[n].delivered == Popped(q.departed)
  {
    hide Inv, Enabled, Apply;
    ActivePushes(states, events, i, j);
    StopPushesNothing(states, events, j, n);
    DrainedBeforeRemoval(states, events, n);
  }

  // ---------------------------------------------------------------------------
  // The stop comes to an end
  // ---------------------------------------------------------------------------

  function Work<F>(s: Output<F>): nat {
    var n := if s.queue.Some? then |s.queue.value.contents| else 0;
    match s.thread
    case Waiting => 2 * n + 1
    case Holding(_) => 2 * n + 2
    case _ => 0
  }

  /** While the stop waits for the push thread, the thread is never blocked: either
      it has left and the join returns, or one of its steps can be taken, and each
      of them leaves it less to do. */
  lemma JoinReturns<F>(s: Output<F>, e: Event<F>)
    requires Inv(s) && s.stop.Joining?
    ensures Enabled(s, Join) || Enabled(s, PopFrame) || Enabled(s, Deliver) || Enabled(s, Exit)
    ensures (e.PopFrame? || e.Deliver? || e.Exit?) && Enabled(s, e) ==> Work(Apply(s, e)) < Work(s)
    ensures e.RequestStop? ==> Work(Apply(s, e)) == Work(s)
    ensures Enabled(s, e) ==> e.Join? || e.PopFrame? || e.Deliver? || e.Exit? || e.RequestStop?
  {
  }

  // ---------------------------------------------------------------------------
  // A stop request while nothing runs
  // ---------------------------------------------------------------------------

  predicate Stuck<F>(s: Output<F>) {
    !s.active && !s.starting && s.stopping && s.stop.NotStopping?
  }

  /** A stop request while the output neither runs, starts nor stops. */
  predicate IdleStop<F>(s: Output<F>, e: Event<F>) {
    e.RequestStop? && !s.active && !s.starting && s.stop.NotStopping?
  }

  lemma SticksStep<F>(s: Output<F>, e: Event<F>)
    requires Inv(s) && Enabled(s, e)
    ensures Stuck(Apply(s, e)) <==> Stuck(s) || IdleStop(s, e)
  {
  }

  /** Over every run the output is stuck, so that no start succeeds any more, if and only
      if a stop was ever requested while it was idle. */
  lemma {:induction false} StuckExactly<F>(states: seq<Output<F>>, events: seq<Event<F>>, m: nat)
    requires Run(states, events) && m <= |events|
    ensures Stuck(states[m]) <==> exists n :: 0 <= n < m && IdleStop(states[n], events[n])
  {
    hide Inv, Apply, Enabled, IdleStop;
    if m == 0 {
      assert !Stuck(states[0]);
    } else {
      StuckExactly(states, events, m - 1);
      RunKeepsInv(states, events, m - 1);
      SticksStep(states[m - 1], events[m - 1]);
    }
  }

  /** A run in which the first start fails because a stop was requested before it. */
  lemma IdleStopBlocksStart<F>() returns (states: seq<Output<F>>, events: seq<Event<F>>)
    ensures Run(states, events) && events == [RequestStop, Start(true)]
    ensures Stuck(states[2]) && !states[2].starting
  {
    var s0: Output<F> := Output(false, false, false, NotStopping, Option.None, NoThread, false, []);
    var s1 := Apply(s0, RequestStop);
    events := [RequestStop, Start(true)];
    states := [s0, s1, Apply(s1, Start(true))];
  }

  // ---------------------------------------------------------------------------
  // What each call does
  // ---------------------------------------------------------------------------

  /** A start takes effect exactly when it succeeds and the output is not stopping, a stop
      request exactly when the output is not starting. */
  lemma RequestsTakeEffect<F>(s: Output<F>, ok: bool)
    ensures Enabled(s, Start(ok)) ==>
              Apply(s, Start(ok)) == s.(starting := s.starting || (ok && !s.stopping))
    ensures Apply(s, RequestStop) == s.(stopping := s.stopping || !s.starting)
  {
  }

  /** The first data while starting: with a session and a thread the output streams from an
      empty queue; without, the stop begins. */
  lemma BeginTakesEffect<F>(s: Output<F>, ok: bool, added: bool)
    requires Inv(s) && Enabled(s, BeginStreaming(ok, added))
    ensures var t := Apply(s, BeginStreaming(ok, added));
            && (t.active <==> ok && added) && (t.stop.Joining? <==> !(ok && added))
            && (t.active ==> t.session && !t.starting && t.thread.Waiting? && t.delivered == []
                             && t.queue.value.contents == [] && t.queue.value.pushed == [] && t.queue.value.limit == 2)
            && (!t.active ==> t.thread == s.thread && (t.session <==> added))
  {
  }

  /** Data of a running output: it begins the stop exactly when it is missing, or a stop was
      requested and it is due; otherwise a wanted frame is offered to the queue. */
  lemma DataTakesEffect<F>(s: Output<F>, frame: F, wanted: bool, due: bool)
    requires Inv(s) && s.active
    ensures Apply(s, NoPacket).stop.Joining? && !Apply(s, NoPacket).active
    ensures var t := Apply(s, Frame(frame, wanted, due));
            && (t.stop.Joining? <==> s.stopping && due) && (t.active <==> !(s.stopping && due))
            && (t.queue.value.terminated <==> s.stopping && due)
            && (t.active ==> t.queue.value.pushed == s.queue.value.pushed + if wanted then [frame] else [])
            && t.thread == s.thread && t.delivered == s.delivered
  {
  }

  /** Behind the stop the output is idle and can be started again. */
  lemma FinishTakesEffect<F>(s: Output<F>)
    requires Inv(s) && s.stop.Finishing?
    ensures var t := Apply(s, FinishStop);
            && !t.active && !t.session && t.queue.None? && t.thread.NoThread?
            && Enabled(t, Start(true)) && Apply(t, Start(true)).starting
  {
  }

  // ---------------------------------------------------------------------------
  // Every list of frames can be streamed
  // ---------------------------------------------------------------------------

  lemma Then<F>(states: seq<Output<F>>, events: seq<Event<F>>, e: Event<F>)
    returns (longer: seq<Output<F>>, more: seq<Event<F>>)
    requires Run(states, events) && Enabled(states[|events|], e)
    ensures Run(longer, more) && |longer| == |more| + 1 && more == events + [e]
    ensures longer == states + [Apply(states[|events|], e)]
  {
    hide Enabled, Apply, Init;
    longer, more := states + [Apply(states[|events|], e)], events + [e];
  }

  function Delivered<F>(frames: seq<F>): (d: seq<Departure<F>>)
    ensures |d| == |frames|
  {
    seq(|frames|, i requires 0 <= i < |frames| => Departure(frames[i], false))
  }

  /** Streaming, with everything delivered that was pushed. */
  function Streaming<F>(frames: seq<F>): Output<F> {
    Output(true, false, false, NotStopping, Some(Queue([], QUEUE_LIMIT, false, frames, Delivered(frames))), Waiting, true,
           frames)
  }

  lemma DeliveredNext<F>(frames: seq<F>, frame: F)
    ensures Delivered(frames + [frame]) == Delivered(frames) + [Departure(frame, false)]
  {
  }

  /** Start, begin, and each frame pushed, popped and delivered. */
  lemma {:induction false} StreamFrames<F>(frames: seq<F>) returns (states: seq<Output<F>>, events: seq<Event<F>>)
    ensures Run(states, events) && |states| == |events| + 1 && states[|events|] == Streaming(frames)
  {
    hide Run, Delivered;
    if frames == [] {
      states, events := NotStarted();
      states, events := Then(states, events, Start(true));
      states, events := Then(states, events, BeginStreaming(true, true));
      NothingDelivered<F>();
    } else {
      var n := |frames| - 1;
      states, events := StreamFrames(frames[..n]);
      states, events := Then(states, events, Frame(frames[n], true, false));
      states, events := Then(states, events, PopFrame);
      states, events := Then(states, events, Deliver);
      assert frames == frames[..n] + [frames[n]];
      var none: seq<F> := [];
      assert none + [frames[n]] == [frames[n]] && [frames[n]][1..] == none;
      DeliveredNext(frames[..n], frames[n]);
    }
  }

  lemma NothingDelivered<F>()
    ensures Delivered<F>([]) == []
  {
  }

  lemma NotStarted<F>() returns (states: seq<Output<F>>, events: seq<Event<F>>)
    ensures Run(states, events) && events == [] && |states| == 1 && Init(states[0])
  {
    states, events := [Output(false, false, false, NotStopping, Option.None, NoThread, false, [])], [];
  }

  /** For any frames there is a run from the start of the output to its end in which
      exactly these frames are pushed and delivered before the session is removed with
      event n, and after which the output can be started again. */
  lemma EveryStreamHasARun<F>(frames: seq<F>, late: F)
    returns (states: seq<Output<F>>, events: seq<Event<F>>, n: nat)
    ensures Run(states, events) && n < |events| && events[n].RemoveSession?
    ensures states[n].queue.Some? && states[n].queue.value.pushed == states[n].delivered == frames
    ensures var t := states[|events|];
            !t.active && !t.session && Enabled(t, Start(true)) && Apply(t, Start(true)).starting
  {
    hide Run, Delivered;
    states, events := StreamFrames(frames);
    states, events := Then(states, events, RequestStop);
    states, events := Then(states, events, Frame(late, true, true));
    states, events := Then(states, events, Exit);
    states, events := Then(states, events, Join);
    n := |events|;
    states, events := Then(states, events, RemoveSession);
    states, events := Then(states, events, FinishStop);
  }
}
