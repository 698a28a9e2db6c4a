/** When a job of a scheduler meets the object whose bare pointer it keeps: the send
    callback of rtsp-server/xop/MediaSession.cpp, the close callback of
    rtsp-server/xop/RtspConnection.cpp, the disconnect callback and `Stop` of
    rtsp-server/net/TcpServer.cpp and `Disconnect` of rtsp-server/net/TcpConnection.cpp
    on the first-in-first-out queue of one scheduler, the only one of the plugin's
    event loop.

    The lock of the client map makes looking a client up and queueing its task one
    step, and taking it out of the map another. */
module ClientLifetime {
  /** How far a connection's end has got. */
  datatype Stage =
    | Open
    | Closing       // is_closed_ is set, the close callback comes next
    | Unregistered  // RemoveClient is done, the disconnect callback comes next
    | Leaving       // RemoveConnection is queued, waits in a timer, or was lost

  /** `registered`: in the session's client map; `alive`: not destroyed yet. */
  datatype Client = Client(stage: Stage, registered: bool, alive: bool)

  datatype Job =
    | Packet(client: nat)        // the task of SendRtpPacket for a client of its own connection
    | GroupPacket(group: nat)    // the same for a multicast connection, which clients share
    | Disconnecting(client: nat) // the Close that Disconnect queues
    | Remove(client: nat)        // RemoveConnection

  /** `groups` tells for each multicast connection which clients hold it, and `session`
      whether the session, which holds them all, still exists. `timers` are the clients
      whose RemoveConnection waits in a timer; `drained` those for which the queue has
      been empty since. */
  datatype Machine = Machine(clients: seq<Client>, groups: seq<set<nat>>, session: bool, queue: seq<Job>,
                             timers: set<nat>, drained: set<nat>)

  /** What AddTriggerEvent does with RemoveConnection: queues it, drops it although it
      answers true, or refuses it. */
  datatype Answer = Queued | Lost | Refused

  datatype Event =
    | Register(i: nat)                 // AddClient, while a request is handled
    | Join(i: nat, g: nat)             // a client of a multicast session takes its connection
    | Submit(i: nat, room: bool)       // SendRtpPacket, in the send callback
    | SubmitGroup(g: nat, room: bool)  // the same for a multicast connection
    | RemoveSession
    | Disconnect(i: nat, room: bool)   // TcpServer::Stop, for a connection in its map
    | Close(i: nat)
    | Unregister(i: nat)               // RemoveClient, in the close callback
    | QueueRemoval(i: nat, answer: Answer)
    | RunNext                          // the scheduler takes a job off its queue
    | Drained                          // the drain loop saw the queue empty
    | RunTimer(i: nat)                 // RemoveConnection from the timer

  /** Timers run behind the drain loop, so a removal in a timer has seen the queue
      empty since it was set. */
  predicate Enabled(s: Machine, e: Event) {
    match e
    case Register(i) => i < |s.clients| && s.clients[i].stage.Open?
    case Join(i, g) => i < |s.clients| && s.clients[i].stage.Open? && g < |s.groups| && s.session
    case Submit(i, _) => i < |s.clients| && s.clients[i].registered
    case SubmitGroup(g, _) => g < |s.groups| && s.session
    case RemoveSession => true
    case Disconnect(i, _) => i < |s.clients| && s.clients[i].alive
    case Close(i) => i < |s.clients| && s.clients[i].stage.Open?
    case Unregister(i) => i < |s.clients| && s.clients[i].stage.Closing?
    case QueueRemoval(i, _) => i < |s.clients| && s.clients[i].stage.Unregistered?
    case RunNext => s.queue != []
    case Drained => s.queue == []
    case RunTimer(i) => i in s.drained && i < |s.clients|
  }

  function With(s: Machine, i: nat, c: Client): Machine
    requires i < |s.clients|
  {
    s.(clients := s.clients[i := c])
  }

  function RunJob(s: Machine, job: Job): Machine {
    match job
    case Remove(i) => if i < |s.clients| then With(s, i, s.clients[i].(alive := false)) else s
    case Disconnecting(i) =>
      if i < |s.clients| && s.clients[i].stage.Open? then With(s, i, s.clients[i].(stage := Closing)) else s
    case _ => s
  }

  function Apply(s: Machine, e: Event): Machine
    requires Enabled(s, e)
  {
    match e
    case Register(i) => With(s, i, s.clients[i].(registered := true))
    case Join(i, g) => s.(groups := s.groups[g := s.groups[g] + {i}])
    case Submit(i, room) => if s.clients[i].alive && room then s.(queue := s.queue + [Packet(i)]) else s
    case SubmitGroup(g, room) => if room then s.(queue := s.queue + [GroupPacket(g)]) else s
    case RemoveSession => s.(session := false)
    case Disconnect(i, room) => if room then s.(queue := s.queue + [Disconnecting(i)]) else s
    case Close(i) => With(s, i, s.clients[i].(stage := Closing))
    case Unregister(i) => With(s, i, s.clients[i].(stage := Unregistered, registered := false))
    case QueueRemoval(i, answer) =>
      var t := With(s, i, s.clients[i].(stage := Leaving));
      match answer {
        case Queued => t.(queue := t.queue + [Remove(i)])
        case Lost => t
        case Refused => t.(timers := t.timers + {i})
      }
    case RunNext => RunJob(s.(queue := s.queue[1..]), s.queue[0])
    case Drained => s.(drained := s.timers)
    case RunTimer(i) => With(s, i, s.clients[i].(alive := false))
  }

  predicate Init(s: Machine) {
    && s.queue == [] && s.timers == {} && s.drained == {} && s.session
    && (forall g :: 0 <= g < |s.groups| ==> s.groups[g] == {})
    && forall i :: 0 <= i < |s.clients| ==> s.clients[i] == Client(Open, false, true)
  }

  /** Steps from any state. */
  ghost predicate Path(states: seq<Machine>, events: seq<Event>) {
    && |states| == |events| + 1
    && (forall i :: 0 <= i < |events| ==> Enabled(states[i], events[i]) && states[i + 1] == Apply(states[i], events[i]))
  }

  ghost predicate Run(states: seq<Machine>, events: seq<Event>) {
    Path(states, events) && Init(states[0])
  }

  // ---------------------------------------------------------------------------
  // Invariant
  // ---------------------------------------------------------------------------

  /** Before its removal is queued a client is alive and no removal of it exists;
      behind a queued removal no packet of the client comes; a client that is gone,
      or whose removal may run from a timer, has no packet queued. */
  ghost predicate Inv(s: Machine) {
    && (forall p :: 0 <= p < |s.queue| ==> InRange(s, s.queue[p]))
    && (forall g, i :: 0 <= g < |s.groups| && i in s.groups[g] ==> i < |s.clients|)
    && (forall i :: 0 <= i < |s.clients| ==> ClientOk(s, s.clients[i], i))
    && Ordered(s.queue)
    && s.drained <= s.timers
  }

  predicate InRange(s: Machine, job: Job) {
    if job.GroupPacket? then job.group < |s.groups| else job.client < |s.clients|
  }

  predicate ClientOk(s: Machine, c: Client, i: nat) {
    && (!c.stage.Leaving? ==> c.alive && i !in s.timers && Remove(i) !in s.queue)
    && (c.stage.Unregistered? || c.stage.Leaving? ==> !c.registered)
    && (!c.alive || i in s.drained ==> Packet(i) !in s.queue)
  }

  ghost predicate Ordered(queue: seq<Job>) {
    forall p, q :: 0 <= p < q < |queue| && queue[p].Remove? ==> queue[q] != Packet(queue[p].client)
  }

  lemma QueueOne(queue: seq<Job>, job: Job)
    ensures forall j :: j in queue + [job] <==> j in queue || j == job
    ensures Ordered(queue) && (job.Packet? ==> Remove(job.client) !in queue) ==> Ordered(queue + [job])
  {
  }

  lemma QueuedInRange(s: Machine, queue: seq<Job>, job: Job)
    requires (forall p :: 0 <= p < |queue| ==> InRange(s, queue[p])) && InRange(s, job)
    ensures forall p :: 0 <= p < |queue + [job]| ==> InRange(s, (queue + [job])[p])
  {
  }

  lemma StepKeepsInv(s: Machine, e: Event)
    requires Inv(s) && Enabled(s, e)
    ensures Inv(Apply(s, e))
  {
    hide Inv, Apply;
    match e
    case Submit(i, room) => SubmitKeepsInv(s, i, room);
    case QueueRemoval(i, answer) => RemovalKeepsInv(s, i, answer);
    case RunNext => RunKeepsInv(s);
    case SubmitGroup(g, room) => OtherJobKeepsInv(s, e);
    case Disconnect(i, room) => OtherJobKeepsInv(s, e);
    case _ => OtherKeepsInv(s, e);
  }

  lemma OtherJobKeepsInv(s: Machine, e: Event)
    requires Inv(s) && Enabled(s, e) && (e.SubmitGroup? || e.Disconnect?)
    ensures Inv(Apply(s, e))
  {
    hide Ordered;
    var job := if e.SubmitGroup? then GroupPacket(e.g) else Disconnecting(e.i);
    QueueOne(s.queue, job);
    QueuedInRange(s, s.queue, job);
  }

  lemma OtherKeepsInv(s: Machine, e: Event)
    requires Inv(s) && Enabled(s, e)
    requires !e.Submit? && !e.QueueRemoval? && !e.RunNext? && !e.SubmitGroup? && !e.Disconnect?
    ensures Inv(Apply(s, e))
  {
    hide Ordered;
  }

  lemma SubmitKeepsInv(s: Machine, i: nat, room: bool)
    requires Inv(s) && Enabled(s, Submit(i, room))
    ensures Inv(Apply(s, Submit(i, room)))
  {
    hide Ordered;
    QueueOne(s.queue, Packet(i));
    QueuedInRange(s, s.queue, Packet(i));
  }

  lemma RemovalKeepsInv(s: Machine, i: nat, answer: Answer)
    requires Inv(s) && Enabled(s, QueueRemoval(i, answer))
    ensures Inv(Apply(s, QueueRemoval(i, answer)))
  {
    hide Ordered;
    QueueOne(s.queue, Remove(i));
    QueuedInRange(s, s.queue, Remove(i));
  }

  lemma RunKeepsInv(s: Machine)
    requires Inv(s) && s.queue != []
    ensures Inv(Apply(s, RunNext))
  {
    hide Ordered;
    OrderedRest(s.queue);
    assert forall p :: 0 <= p < |s.queue[1..]| ==> s.queue[1..][p] == s.queue[p + 1];
    assert s.queue[0] in s.queue;
  }

  lemma OrderedRest(queue: seq<Job>)
    requires queue != [] && Ordered(queue)
    ensures Ordered(queue[1..])
    ensures forall j :: j in queue[1..] ==> j in queue && (queue[0].Remove? ==> j != Packet(queue[0].client))
  {
    var rest := queue[1..];
    forall j | j in rest
      ensures j in queue && (queue[0].Remove? ==> j != Packet(queue[0].client))
    {
      var p :| 0 <= p < |rest| && rest[p] == j;
      assert queue[p + 1] == j;
    }
  }

  /** Over every run: the client of a task that is about to run is still alive. */
  lemma {:induction false} TasksMeetLiveClients(states: seq<Machine>, events: seq<Event>, n: nat)
    requires Run(states, events) && n <= |events|
    ensures Inv(states[n])
    ensures n < |events| && events[n].RunNext? && states[n].queue[0].Packet? ==>
              var i := states[n].queue[0].client;
              i < |states[n].clients| && states[n].clients[i].alive
  {
    hide Apply;
    if n > 0 {
      TasksMeetLiveClients(states, events, n - 1);
      StepKeepsInv(states[n - 1], events[n - 1]);
    }
    if n < |events| && events[n].RunNext? {
      assert states[n].queue[0] in states[n].queue;
    }
  }

  // ---------------------------------------------------------------------------
  // Jobs of shared connections and of Disconnect
  // ---------------------------------------------------------------------------

  /** The clients that keep the object of a job's bare pointer. */
  function Holders(s: Machine, job: Job): set<nat> {
    match job
    case GroupPacket(g) => if g < |s.groups| then s.groups[g] else {}
    case _ => {job.client}
  }

  predicate Alive(s: Machine, i: nat) {
    i < |s.clients| && s.clients[i].alive
  }

  /** The object of the job's bare pointer still exists. */
  ghost predicate Live(s: Machine, job: Job) {
    (job.GroupPacket? && s.session) || exists i :: i in Holders(s, job) && Alive(s, i)
  }

  /** A client that outlasts the first p jobs of the queue: its removal is not among
      them and cannot run from a timer before. */
  predicate Outlasts(s: Machine, i: nat, p: nat)
    requires p <= |s.queue|
  {
    Alive(s, i) && Remove(i) !in s.queue[..p] && i !in s.drained
  }

  /** The job has a holder that outlasts the jobs before it. */
  ghost predicate Held(s: Machine, p: nat)
    requires p < |s.queue|
  {
    exists i :: i in Holders(s, s.queue[p]) && Outlasts(s, i, p)
  }

  /** How many jobs run. */
  function Ran(events: seq<Event>): nat {
    if events == [] then 0 else Ran(events[..|events| - 1]) + if events[|events| - 1].RunNext? then 1 else 0
  }

  lemma HoldersStay(s: Machine, e: Event, job: Job)
    requires Enabled(s, e)
    ensures Holders(s, job) <= Holders(Apply(s, e), job)
  {
  }

  lemma Appended(queue: seq<Job>, job: Job, p: nat)
    requires p < |queue|
    ensures (queue + [job])[p] == queue[p] && (queue + [job])[..p] == queue[..p]
  {
  }

  lemma QueueMoves(s: Machine, e: Event, p: nat)
    requires Enabled(s, e) && p < |s.queue| && (e.RunNext? ==> p > 0)
    ensures var q, t := if e.RunNext? then p - 1 else p, Apply(s, e);
            q < |t.queue| && t.queue[q] == s.queue[p] && t.queue[..q] == s.queue[p - q..p]
  {
    assert s.queue[0..p] == s.queue[..p];
    match e
    case Submit(i, _) => Appended(s.queue, Packet(i), p);
    case SubmitGroup(g, _) => Appended(s.queue, GroupPacket(g), p);
    case Disconnect(i, _) => Appended(s.queue, Disconnecting(i), p);
    case QueueRemoval(i, _) => Appended(s.queue, Remove(i), p);
    case RunNext => assert s.queue[1..][..p - 1] == s.queue[1..p];
    case _ =>
  }

  lemma OutlastsStep(s: Machine, e: Event, i: nat, p: nat)
    requires Enabled(s, e) && p < |s.queue| && (e.RunNext? ==> p > 0) && Outlasts(s, i, p)
    ensures var q := if e.RunNext? then p - 1 else p;
            q < |Apply(s, e).queue| && Outlasts(Apply(s, e), i, q)
  {
    QueueMoves(s, e, p);
    if e.RunNext? {
      assert s.queue[0] == s.queue[..p][0];
      forall j | j in s.queue[1..p]
        ensures j in s.queue[..p]
      {
        var k :| 0 <= k < p - 1 && s.queue[1..p][k] == j;
        assert s.queue[..p][k + 1] == j;
      }
    }
  }

  /** A held job stays held until it runs. */
  lemma {:induction false} HeldStays(states: seq<Machine>, events: seq<Event>, p: nat)
    requires Path(states, events)
    requires p < |states[0].queue| && Held(states[0], p) && Ran(events) <= p
    ensures var t, q := states[|events|], p - Ran(events);
            q < |t.queue| && t.queue[q] == states[0].queue[p] && Held(t, q)
    decreases |events|
  {
    hide Apply, Enabled, Outlasts, Holders, Init;
    if events != [] {
      var n := |events| - 1;
      HeldStays(states[..n + 1], events[..n], p);
      var s, e, q := states[n], events[n], p - Ran(events[..n]);
      assert states[..n + 1][n] == s;
      var i :| i in Holders(s, s.queue[q]) && Outlasts(s, i, q);
      HoldersStay(s, e, s.queue[q]);
      QueueMoves(s, e, q);
      OutlastsStep(s, e, i, q);
    }
  }

  lemma HeldIsLive(s: Machine, p: nat)
    requires p < |s.queue| && Held(s, p)
    ensures Live(s, s.queue[p])
  {
  }

  // ---------------------------------------------------------------------------
  // A job that is not held can miss its object
  // ---------------------------------------------------------------------------

  /** What ending clients does not touch. */
  predicate SameBut(s: Machine, t: Machine) {
    && |t.clients| == |s.clients| && t.groups == s.groups && t.drained == s.drained && t.session == s.session
    && forall i :: 0 <= i < |s.clients| && t.clients[i].alive ==> s.clients[i].alive
  }

  lemma Then(states: seq<Machine>, events: seq<Event>, e: Event) returns (longer: seq<Machine>, more: seq<Event>)
    requires Path(states, events) && Enabled(states[|events|], e)
    ensures Path(longer, more) && longer[0] == states[0] && longer[|more|] == Apply(states[|events|], e)
    ensures longer == states + [Apply(states[|events|], e)]
    ensures more == events + [e] && |longer| == |more| + 1 && Ran(more) == Ran(events) + if e.RunNext? then 1 else 0
  {
    hide Enabled, Apply;
    longer, more := states + [Apply(states[|events|], e)], events + [e];
    assert more[..|events|] == events;
  }

  /** The timers that may run do. */
  lemma {:induction false} RunTimers(states: seq<Machine>, events: seq<Event>, todo: set<nat>)
    returns (longer: seq<Machine>, more: seq<Event>)
    requires Path(states, events) && todo <= states[|events|].drained
    requires forall i :: i in todo ==> i < |states[|events|].clients|
    ensures Path(longer, more) && |longer| == |more| + 1 && longer[0] == states[0] && Ran(more) == Ran(events)
    ensures var s, t := states[|events|], longer[|more|];
            t.queue == s.queue && SameBut(s, t) && forall i :: i in todo ==> !t.clients[i].alive
    decreases todo
  {
    longer, more := states, events;
    if i :| i in todo {
      longer, more := Then(states, events, RunTimer(i));
      longer, more := RunTimers(longer, more, todo - {i});
    }
  }

  lemma JobRuns(s: Machine)
    requires s.queue != []
    ensures var t := Apply(s, RunNext);
            && t.queue == s.queue[1..] && SameBut(s, t)
            && (s.queue[0].Remove? && s.queue[0].client < |s.clients| ==> !t.clients[s.queue[0].client].alive)
  {
  }

  /** The first p jobs of the queue run. */
  lemma {:induction false} RunJobs(states: seq<Machine>, events: seq<Event>, p: nat)
    returns (longer: seq<Machine>, more: seq<Event>)
    requires Path(states, events) && p <= |states[|events|].queue|
    ensures Path(longer, more) && |longer| == |more| + 1 && longer[0] == states[0] && Ran(more) == Ran(events) + p
    ensures var s, t := states[|events|], longer[|more|];
            && t.queue == s.queue[p..] && SameBut(s, t)
            && forall i :: 0 <= i < |s.clients| && Remove(i) in s.queue[..p] ==> !t.clients[i].alive
  {
    hide Apply, Ran;
    longer, more := states, events;
    if p > 0 {
      longer, more := RunJobs(states, events, p - 1);
      var s, mid := states[|events|], longer[|more|];
      JobRuns(mid);
      longer, more := Then(longer, more, RunNext);
      assert s.queue[..p] == s.queue[..p - 1] + [s.queue[p - 1]];
      assert mid.queue[0] == s.queue[p - 1] && mid.queue[1..] == s.queue[p..];
    }
  }

  /** The job can run when its object is gone. */
  lemma UnheldFails(s: Machine, p: nat) returns (states: seq<Machine>, events: seq<Event>)
    requires p < |s.queue| && !Held(s, p)
    ensures Path(states, events) && states[0] == s && Ran(events) == p && !Live(states[|events|], s.queue[p])
  {
    hide Path, Ran;
    states, events := Nowhere(s);
    states, events := Then(states, events, RemoveSession);
    var s1 := states[|events|];
    states, events := RunTimers(states, events, set i | i in s.drained && i < |s.clients|);
    states, events := RunJobs(states, events, p);
    var t := states[|events|];
    forall i | i in Holders(t, s.queue[p])
      ensures !Alive(t, i)
    {
      HolderIsGone(s, t, p, i);
    }
  }

  lemma HolderIsGone(s: Machine, t: Machine, p: nat, i: nat)
    requires p < |s.queue| && !Held(s, p) && i in Holders(s, s.queue[p]) && SameBut(s.(session := t.session), t)
    requires i < |s.clients| && i in s.drained ==> !t.clients[i].alive
    requires i < |s.clients| && Remove(i) in s.queue[..p] ==> !t.clients[i].alive
    ensures !Alive(t, i)
  {
    assert !Outlasts(s, i, p);
  }

  lemma Nowhere(s: Machine) returns (states: seq<Machine>, events: seq<Event>)
    ensures Path(states, events) && states == [s] && events == [] && Ran(events) == 0
  {
    states, events := [s], [];
  }

  ghost predicate AlwaysLive(s: Machine, p: nat)
    requires p < |s.queue|
  {
    forall states, events :: Path(states, events) && states[0] == s && Ran(events) == p ==>
      Live(states[|events|], s.queue[p])
  }

  /** A job meets its object in every continuation, when its turn comes, if and only if a
      client that holds the object outlasts the jobs before it. */
  lemma SafeExactly(s: Machine, p: nat)
    requires p < |s.queue|
    ensures Held(s, p) <==> AlwaysLive(s, p)
  {
    hide Held, Live, Ran;
    if Held(s, p) {
      forall states, events | Path(states, events) && states[0] == s && Ran(events) == p
        ensures Live(states[|events|], s.queue[p])
      {
        HeldStays(states, events, p);
        HeldIsLive(states[|events|], 0);
      }
    } else {
      var states, events := UnheldFails(s, p);
    }
  }

  /** A client's own packets are always held. */
  lemma PacketsAreHeld(s: Machine, p: nat)
    requires Inv(s) && p < |s.queue| && s.queue[p].Packet?
    ensures Held(s, p)
  {
    var i := s.queue[p].client;
    assert Packet(i) in s.queue && InRange(s, s.queue[p]) && ClientOk(s, s.clients[i], i);
    assert Remove(i) !in s.queue[..p];
    assert Outlasts(s, i, p);
  }

  /** What a caller can look at before the job is queued: the Close of Disconnect is held
      exactly when no removal of the connection is queued or may run from a timer, as for
      every connection whose end has not begun; a multicast packet is held exactly when
      this is so for a client that holds the connection. */
  lemma HeldWhenQueued(s: Machine, e: Event)
    requires Inv(s) && Enabled(s, e)
    ensures e.Disconnect? && e.room ==>
              && (Held(Apply(s, e), |s.queue|) <==> Remove(e.i) !in s.queue && e.i !in s.drained)
              && (!s.clients[e.i].stage.Leaving? ==> Held(Apply(s, e), |s.queue|))
    ensures e.SubmitGroup? && e.room ==>
              (Held(Apply(s, e), |s.queue|) <==>
               exists i :: i in s.groups[e.g] && Alive(s, i) && Remove(i) !in s.queue && i !in s.drained)
  {
    var t := Apply(s, e);
    if (e.Disconnect? || e.SubmitGroup?) && e.room {
      assert t.queue[..|s.queue|] == s.queue;
      if e.SubmitGroup? {
        if i :| i in s.groups[e.g] && Alive(s, i) && Remove(i) !in s.queue && i !in s.drained {
          assert Outlasts(t, i, |s.queue|);
        }
      } else if Remove(e.i) !in s.queue && e.i !in s.drained {
        assert Outlasts(t, e.i, |s.queue|);
      }
    }
  }

  /** A run in which the server stops while a connection is on its way out: the Close is
      queued behind the removal and comes to a connection that is gone. */
  lemma CloseBehindRemoval() returns (states: seq<Machine>, events: seq<Event>)
    ensures Run(states, events) && |states| == |events| + 1
    ensures var s := states[|events|];
            s.queue == [Disconnecting(0)] && !Live(s, s.queue[0])
  {
    hide Path;
    var s := Machine([Client(Open, false, true)], [], true, [], {}, {});
    states, events := Nowhere(s);
    states, events := Then(states, events, Close(0));
    states, events := Then(states, events, Unregister(0));
    states, events := Then(states, events, QueueRemoval(0, Queued));
    states, events := Then(states, events, Disconnect(0, true));
    states, events := Then(states, events, RunNext);
  }

  /** A run in which a client holds one multicast connection of the session, and the
      session goes while a packet of the other one is queued. */
  lemma GroupGoesWithSession() returns (states: seq<Machine>, events: seq<Event>)
    ensures Run(states, events) && events == [Register(0), Join(0, 0), SubmitGroup(1, true), RemoveSession]
    ensures states[4].queue == [GroupPacket(1)] && !Live(states[4], GroupPacket(1))
    ensures Live(states[4], GroupPacket(0))
  {
    hide Path;
    var s := Machine([Client(Open, false, true)], [{}, {}], true, [], {}, {});
    states, events := Nowhere(s);
    states, events := Then(states, events, Register(0));
    states, events := Then(states, events, Join(0, 0));
    states, events := Then(states, events, SubmitGroup(1, true));
    states, events := Then(states, events, RemoveSession);
    assert 0 in Holders(states[4], GroupPacket(0)) && Alive(states[4], 0);
  }

  lemma Served() returns (states: seq<Machine>, events: seq<Event>)
    ensures Run(states, events) && events == [Register(0), Submit(0, true), RunNext] && |states| == 4
    ensures states[2].queue == [Packet(0)]
    ensures states[3] == Machine([Client(Open, true, true)], [], true, [], {}, {})
  {
    hide Path;
    var s := Machine([Client(Open, false, true)], [], true, [], {}, {});
    states, events := Nowhere(s);
    states, events := Then(states, events, Register(0));
    states, events := Then(states, events, Submit(0, true));
    states, events := Then(states, events, RunNext);
  }

  /** A run from the registration of a client over one of its packets to its end. */
  lemma ServedAndGone() returns (states: seq<Machine>, events: seq<Event>)
    ensures Run(states, events) && |states| == 8 && states[2].queue == [Packet(0)]
    ensures events == [Register(0), Submit(0, true), RunNext, Close(0), Unregister(0), QueueRemoval(0, Queued), RunNext]
    ensures states[7] == Machine([Client(Leaving, false, false)], [], true, [], {}, {})
  {
    hide Path;
    states, events := Served();
    states, events := Then(states, events, Close(0));
    states, events := Then(states, events, Unregister(0));
    states, events := Then(states, events, QueueRemoval(0, Queued));
    states, events := Then(states, events, RunNext);
  }

  /** The same when the queue refuses the removal and a timer does it. */
  lemma ServedAndTimedOut() returns (states: seq<Machine>, events: seq<Event>)
    ensures Run(states, events) && |states| == 9
    ensures events == [Register(0), Submit(0, true), RunNext, Close(0), Unregister(0), QueueRemoval(0, Refused),
                       Drained, RunTimer(0)]
    ensures states[8].clients == [Client(Leaving, false, false)] && states[8].queue == []
  {
    hide Path;
    states, events := Served();
    states, events := Then(states, events, Close(0));
    states, events := Then(states, events, Unregister(0));
    states, events := Then(states, events, QueueRemoval(0, Refused));
    states, events := Then(states, events, Drained);
    states, events := Then(states, events, RunTimer(0));
  }

  /** The job of Disconnect closes an open connection. */
  lemma DisconnectCloses() returns (states: seq<Machine>, events: seq<Event>)
    ensures Run(states, events) && events == [Disconnect(0, true), RunNext] && |states| == 3
    ensures states[1].queue == [Disconnecting(0)] && states[2].clients == [Client(Closing, false, true)]
  {
    hide Path;
    var s := Machine([Client(Open, false, true)], [], true, [], {}, {});
    states, events := Nowhere(s);
    states, events := Then(states, events, Disconnect(0, true));
    states, events := Then(states, events, RunNext);
  }
}
