/** From the access unit to the bytes a client's peer receives: the packetizers, the
    send callback of rtsp-server/xop/MediaSession.cpp, the clients' tasks and, over
    TCP, the byte stream of rtsp-server/net/TcpConnection.cpp. */
module EndToEnd {
  import opened Bytes
  import opened Wrappers
  import opened Payload
  import opened RtpPacket
  import opened Depacketizer
  import opened RtpState
  import opened RtpConnection
  import opened FanOut
  import opened Stream
  import opened TcpStream
  import opened TcpConnection
  import opened RtspMessage
  import AnnexB
  import H264Source
  import H265Source

  // ---------------------------------------------------------------------------
  // The packets of an access unit become tasks
  // ---------------------------------------------------------------------------

  function MediaFor(p: Packet, timestamp: nat): Media {
    Media(p.payload, p.last, timestamp, p.kind)
  }

  /** The queued tasks with their packet as it was queued. */
  ghost function InfosFor(tasks: seq<Queued>, m: Media): (infos: seq<Info>)
    ensures |infos| == |tasks|
  {
    seq(|tasks|, i requires 0 <= i < |tasks| => Info(tasks[i].conn, tasks[i].chn, m))
  }

  /** One task for each packet, in order. */
  function OwnFor(c: RtpConnection, chn: nat, packets: seq<Packet>, timestamp: nat): (own: seq<Info>)
    ensures |own| == |packets|
  {
    seq(|packets|, k requires 0 <= k < |packets| => Info(c, chn, MediaFor(packets[k], timestamp)))
  }

  ghost predicate AtMostOnce(c: RtpConnection, conns: seq<RtpConnection>) {
    forall i, j :: 0 <= i < j < |conns| ==> conns[i] != c || conns[j] != c
  }

  lemma {:induction false} OwnInfosConcat(c: RtpConnection, a: seq<Info>, b: seq<Info>)
    ensures OwnInfos(c, a + b) == OwnInfos(c, a) + OwnInfos(c, b)
  {
    if b == [] {
      assert a + b == a;
    } else {
      var n := |b| - 1;
      assert (a + b)[..|a| + n] == a + b[..n];
      OwnInfosConcat(c, a, b[..n]);
      Regroup(OwnInfos(c, a), OwnInfos(c, b[..n]), if b[n].conn == c then [b[n]] else []);
    }
  }

  lemma {:induction false} AdmittedTasks(conns: seq<RtpConnection>, groups: bool, chn: nat, pkt: RtpPacket, n: nat)
    ensures |Admitted(conns, groups, chn, pkt, n)| <= |conns|
    ensures forall t :: t in Admitted(conns, groups, chn, pkt, n) ==> t.conn in conns && t.chn == chn && t.pkt == pkt
  {
    if conns != [] {
      AdmittedTasks(conns[..|conns| - 1], groups, chn, pkt, n);
    }
  }

  /** While there is room, a packet leaves exactly one task to an open connection that
      is listed once. */
  lemma {:induction false} AdmittedOwn(c: RtpConnection, conns: seq<RtpConnection>, groups: bool, chn: nat,
                                       pkt: RtpPacket, m: Media, n: nat)
    requires AtMostOnce(c, conns) && n + |conns| <= MAX_TRIGGER_EVENTS
    ensures OwnInfos(c, InfosFor(Admitted(conns, groups, chn, pkt, n), m)) ==
            if c in conns && (groups || !c.transport.OverMulticast?) && !c.is_closed then [Info(c, chn, m)] else []
  {
    hide OwnInfos, InfosFor, AtMostOnce;
    if conns == [] {
      NobodysInfos(c, m);
    } else {
      var k := |conns| - 1;
      var last, front := conns[k], Admitted(conns[..k], groups, chn, pkt, n);
      LastOrBefore(c, conns);
      AdmittedOwn(c, conns[..k], groups, chn, pkt, m, n);
      AdmittedTasks(conns[..k], groups, chn, pkt, n);
      OneMoreTask(c, front, Queued(last, chn, pkt), m);
    }
  }

  lemma LastOrBefore(c: RtpConnection, conns: seq<RtpConnection>)
    requires conns != [] && AtMostOnce(c, conns)
    ensures var front, last := conns[..|conns| - 1], conns[|conns| - 1];
            AtMostOnce(c, front) && (c in conns <==> c in front || c == last) && (c == last ==> c !in front)
  {
  }

  lemma NobodysInfos(c: RtpConnection, m: Media)
    ensures OwnInfos(c, InfosFor([], m)) == []
  {
  }

  lemma OneMoreTask(c: RtpConnection, tasks: seq<Queued>, t: Queued, m: Media)
    ensures var own := OwnInfos(c, InfosFor(tasks, m));
            OwnInfos(c, InfosFor(tasks + [t], m)) == if t.conn == c then own + [Info(t.conn, t.chn, m)] else own
  {
    assert InfosFor(tasks + [t], m) == InfosFor(tasks, m) + [Info(t.conn, t.chn, m)];
    OwnInfosConcat(c, InfosFor(tasks, m), [Info(t.conn, t.chn, m)]);
    OwnOne(c, Info(t.conn, t.chn, m));
  }

  lemma OwnOne(c: RtpConnection, t: Info)
    ensures OwnInfos(c, [t]) == if t.conn == c then [t] else []
  {
    assert [t][..0] == [];
  }

  /** The callback's argument for one packet. */
  method Present(p: Packet, timestamp: nat) returns (pkt: RtpPacket)
    requires |p.payload| <= MAX_RTP_PAYLOAD_SIZE
    ensures fresh(pkt) && fresh(pkt.data) && pkt.Valid() && HEAD <= pkt.size
    ensures MediaOf(pkt) == MediaFor(p, timestamp)
  {
    pkt := new RtpPacket();
    forall k | 0 <= k < |p.payload| {
      pkt.data[HEAD + k] := p.payload[k];
    }
    pkt.size := HEAD + |p.payload|;
    pkt.last := p.last;
    pkt.timestamp := timestamp;
    pkt.kind := p.kind;
    assert pkt.data[HEAD..pkt.size] == p.payload;
  }

  /** What is known of the queued tasks. */
  ghost predicate AreTasks(tasks: seq<Queued>, infos: seq<Info>, chn: nat)
    requires |tasks| == |infos|
    reads set t | t in tasks :: t.conn
    reads set t | t in tasks :: t.pkt
    reads set t | t in tasks :: t.pkt.data
  {
    forall i :: 0 <= i < |tasks| ==>
      Waits(tasks[i], infos[i]) && infos[i].chn == chn && infos[i].media.Fits()
  }

  /** An open unicast client of the session. */
  ghost predicate Listed(c: RtpConnection, clients: seq<RtpConnection>, groups: seq<RtpConnection>)
    reads c
  {
    AtMostOnce(c, clients) && c in clients && c !in groups && !c.transport.OverMulticast? && !c.is_closed
  }

  method QueueOne(p: Packet, timestamp: nat, chn: nat, clients: seq<RtpConnection>, groups: seq<RtpConnection>,
                  scheduler: Scheduler, ghost c: RtpConnection)
    returns (ghost tasks: seq<Queued>)
    requires |p.payload| <= MAX_RTP_PAYLOAD_SIZE && timestamp < 0x1_0000_0000
    requires forall conn :: conn in clients + groups ==> Ready(conn.Model(), chn)
    modifies scheduler
    ensures scheduler.tasks == old(scheduler.tasks) + tasks && |tasks| <= |clients| + |groups|
    ensures AreTasks(tasks, InfosFor(tasks, MediaFor(p, timestamp)), chn)
    ensures forall t :: t in tasks ==> t.conn in clients + groups && fresh(t.pkt) && fresh(t.pkt.data)
    ensures Listed(c, clients, groups) && |old(scheduler.tasks)| + |clients| + |groups| <= MAX_TRIGGER_EVENTS ==>
              OwnInfos(c, InfosFor(tasks, MediaFor(p, timestamp))) == [Info(c, chn, MediaFor(p, timestamp))]
  {
    hide Admitted, OwnInfos, Ready, MediaOf, InfosFor, AreTasks, Listed;
    var pkt := Present(p, timestamp);
    ghost var n, m := |scheduler.tasks|, MediaFor(p, timestamp);
    var tmp := OnPacket(pkt, chn, clients, groups, scheduler);
    ghost var own := Admitted(clients, false, chn, tmp, n);
    ghost var more := Admitted(groups, true, chn, tmp, n + |own|);
    tasks := own + more;
    AdmittedTasks(clients, false, chn, tmp, n);
    AdmittedTasks(groups, true, chn, tmp, n + |own|);
    Regroup(old(scheduler.tasks), own, more);
    TasksOfPacket(tasks, chn, tmp, m);
    if Listed(c, clients, groups) && n + |clients| + |groups| <= MAX_TRIGGER_EVENTS {
      OneTaskEach(c, clients, groups, chn, tmp, m, n);
    }
  }

  lemma TasksOfPacket(tasks: seq<Queued>, chn: nat, pkt: RtpPacket, m: Media)
    requires pkt.Valid() && HEAD <= pkt.size && MediaOf(pkt) == m && m.Fits()
    requires forall t :: t in tasks ==> Ready(t.conn.Model(), chn) && t.chn == chn && t.pkt == pkt
    ensures AreTasks(tasks, InfosFor(tasks, m), chn)
  {
    hide Ready, MediaOf;
  }

  lemma OneTaskEach(c: RtpConnection, clients: seq<RtpConnection>, groups: seq<RtpConnection>, chn: nat,
                    pkt: RtpPacket, m: Media, n: nat)
    requires Listed(c, clients, groups) && n + |clients| + |groups| <= MAX_TRIGGER_EVENTS
    ensures var own := Admitted(clients, false, chn, pkt, n);
            OwnInfos(c, InfosFor(own + Admitted(groups, true, chn, pkt, n + |own|), m)) == [Info(c, chn, m)]
  {
    hide Admitted, OwnInfos;
    var own := Admitted(clients, false, chn, pkt, n);
    var more := Admitted(groups, true, chn, pkt, n + |own|);
    AdmittedTasks(clients, false, chn, pkt, n);
    AdmittedOwn(c, clients, false, chn, pkt, m, n);
    AdmittedOwn(c, groups, true, chn, pkt, m, n + |own|);
    assert InfosFor(own + more, m) == InfosFor(own, m) + InfosFor(more, m);
    OwnInfosConcat(c, InfosFor(own, m), InfosFor(more, m));
  }

  // ---------------------------------------------------------------------------
  // Earlier tasks and later ones
  // ---------------------------------------------------------------------------

  /** The transport takes all of the client's packets. */
  ghost predicate TakesAll(c: RtpConnection, infos: seq<Info>, taken: nat -> bool) {
    forall k :: 0 <= k < |infos| && infos[k].conn == c ==> taken(k)
  }

  lemma {:induction false} OwnTasksPrefix(c: RtpConnection, s: Sender, a: seq<Info>, b: seq<Info>,
                                          taken: nat -> bool, n: nat)
    requires n <= |a|
    ensures OwnTasks(c, s, a + b, taken, n) == OwnTasks(c, s, a, taken, n)
  {
    hide TaskStep;
    if n > 0 {
      OwnTasksPrefix(c, s, a, b, taken, n - 1);
    }
  }

  /** The answers from the n-th on. */
  function From(taken: nat -> bool, n: nat): nat -> bool {
    (k: nat) => taken(n + k)
  }

  /** Running two lists of tasks is running the second behind the first. */
  lemma {:induction false} OwnTasksConcat(c: RtpConnection, s: Sender, a: seq<Info>, b: seq<Info>,
                                          taken: nat -> bool, n: nat)
    requires n <= |b|
    ensures OwnTasks(c, s, a + b, taken, |a| + n)
            == OwnTasks(c, OwnTasks(c, s, a, taken, |a|), b, From(taken, |a|), n)
  {
    hide TaskStep;
    if n == 0 {
      OwnTasksPrefix(c, s, a, b, taken, |a|);
    } else {
      OwnTasksConcat(c, s, a, b, taken, n - 1);
      assert (a + b)[|a| + n - 1] == b[n - 1];
    }
  }

  lemma MoreTasks(starts: map<RtpConnection, Sender>, a: seq<Info>, b: seq<Info>, taken: nat -> bool, n: nat)
    requires n <= |a| && AsAlone(starts, a, taken, n)
    ensures AsAlone(starts, a + b, taken, n)
  {
    hide OwnTasks;
    forall c | c in starts
      ensures c.State() == OwnTasks(c, starts[c], a + b, taken, n)
    {
      OwnTasksPrefix(c, starts[c], a, b, taken, n);
    }
  }

  lemma {:induction false} OwnKeepsReady(c: RtpConnection, s: Sender, infos: seq<Info>, taken: nat -> bool,
                                         n: nat, chn: nat)
    requires n <= |infos| && Ready(s.conn, chn)
    ensures Ready(OwnTasks(c, s, infos, taken, n).conn, chn)
  {
    hide ConnInv, AfterTask, HandedByTask;
    if n > 0 {
      OwnKeepsReady(c, s, infos, taken, n - 1, chn);
      var p, t := OwnTasks(c, s, infos, taken, n - 1), infos[n - 1];
      if t.conn == c && t.chn < |p.conn.channels| {
        TaskKeepsReady(p.conn, t.chn, t.media, taken(n - 1), chn);
      }
    }
  }

  /** A client whose packets are all taken stays open, keeps its transport, and goes on
      playing. */
  predicate StaysOpen(a: Conn, b: Conn) {
    && (!a.is_closed ==> !b.is_closed) && b.transport == a.transport && b.attached == a.attached
    && |b.channels| == |a.channels|
    && forall i :: 0 <= i < |a.channels| && a.channels[i].Active() ==> b.channels[i].Active()
  }

  lemma TaskStaysOpen(c: Conn, chn: nat, m: Media)
    requires chn < |c.channels|
    ensures StaysOpen(c, AfterTask(c, chn, m, true))
  {
  }

  lemma StaysOpenThen(a: Conn, b: Conn, c: Conn)
    requires StaysOpen(a, b) && StaysOpen(b, c)
    ensures StaysOpen(a, c)
  {
  }

  lemma StaysOpenAtFirst(c: Conn)
    ensures StaysOpen(c, c)
  {
  }

  lemma {:induction false} OwnStaysOpen(c: RtpConnection, s: Sender, infos: seq<Info>, taken: nat -> bool, n: nat)
    requires n <= |infos| && TakesAll(c, infos, taken)
    ensures StaysOpen(s.conn, OwnTasks(c, s, infos, taken, n).conn)
  {
    hide StaysOpen, AfterTask, HandedByTask;
    StaysOpenAtFirst(s.conn);
    if n > 0 {
      OwnStaysOpen(c, s, infos, taken, n - 1);
      var p, t := OwnTasks(c, s, infos, taken, n - 1), infos[n - 1];
      if t.conn == c && t.chn < |p.conn.channels| {
        TaskStaysOpen(p.conn, t.chn, t.media);
        StaysOpenThen(s.conn, p.conn, AfterTask(p.conn, t.chn, t.media, true));
      }
    }
  }

  /** The queue holds the tasks from the n-th on, of known clients and on packets that
      are fresh or were queued before. */
  ghost predicate QueueOk(scheduler: Scheduler, infos: seq<Info>, n: nat, starts: map<RtpConnection, Sender>)
    reads scheduler
    reads set t | t in scheduler.tasks :: t.conn
    reads set t | t in scheduler.tasks :: t.pkt
    reads set t | t in scheduler.tasks :: t.pkt.data
  {
    && n + |scheduler.tasks| == |infos|
    && (forall i :: 0 <= i < |scheduler.tasks| ==> Waits(scheduler.tasks[i], infos[n + i]))
    && forall t :: t in scheduler.tasks ==> t.conn in starts
  }

  /** The send callback for every packet of an access unit, while the scheduler runs some
      of its tasks behind each: `runs` tells how many. */
  method Broadcast(packets: seq<Packet>, timestamp: nat, chn: nat, clients: seq<RtpConnection>,
                   groups: seq<RtpConnection>, scheduler: Scheduler, runs: nat -> nat, taken: nat -> bool,
                   ghost earlier: seq<Info>, ghost starts: map<RtpConnection, Sender>, ghost c: RtpConnection)
    returns (ghost infos: seq<Info>)
    requires Bounded(packets) && timestamp < 0x1_0000_0000 && QueueOk(scheduler, earlier, 0, starts)
    requires forall conn :: conn in starts ==> starts[conn] == conn.State()
    requires forall conn :: conn in clients + groups ==> conn in starts && Ready(conn.Model(), chn)
    modifies scheduler, starts.Keys
    modifies set t | t in scheduler.tasks :: t.pkt.data
    ensures scheduler.tasks == [] && AsAlone(starts, infos, taken, |infos|)
    ensures earlier <= infos && forall k :: |earlier| <= k < |infos| ==> infos[k].chn == chn && infos[k].media.Fits()
    ensures old(Listed(c, clients, groups)) && TakesAll(c, infos, taken)
            && |earlier| + |packets| * (|clients| + |groups|) <= MAX_TRIGGER_EVENTS ==>
              OwnInfos(c, infos[|earlier|..]) == OwnFor(c, chn, packets, timestamp)
  {
    hide OwnInfos, OwnTasks, Ready, MediaOf, TakesAll, OwnFor, Bounded, Waits, AsAlone, QueueOk, Later, OpenAtStart, Listed;
    ghost var w, datas := |clients| + |groups|, set t | t in scheduler.tasks :: t.pkt.data;
    ghost var served := OpenAtStart(c, clients, groups, starts) && |earlier| + |packets| * w <= MAX_TRIGGER_EVENTS;
    ListedAtStart(c, clients, groups, starts);
    QueueLength(scheduler, earlier, 0, starts);
    infos := earlier;
    var i, ran: nat := 0, 0;
    StartsAlone(starts, earlier, taken);
    NothingLater(c, earlier, taken, chn, packets, timestamp, served);
    while i < |packets|
      invariant 0 <= i <= |packets| && QueueOk(scheduler, infos, ran, starts) && ran <= |infos|
      invariant forall t :: t in scheduler.tasks ==> t.pkt.data in datas || fresh(t.pkt.data)
      invariant |scheduler.tasks| <= |earlier| + i * w && AsAlone(starts, infos, taken, ran)
      invariant Later(c, earlier, infos, taken, chn, packets, i, timestamp, served)
    {
      Products(i, |packets|, w);
      ghost var more := QueueNext(packets, i, timestamp, chn, clients, groups, scheduler, infos, ran, taken, starts, c);
      LaterNext(c, earlier, infos, more, taken, chn, packets, i, timestamp, served);
      infos := infos + more;
      var count := if runs(i) < |scheduler.tasks| then runs(i) else |scheduler.tasks|;
      RunQueue(scheduler, count, taken, ran, infos, starts);
      ran := ran + count;
      i := i + 1;
    }
    var rest := |scheduler.tasks|;
    QueueLength(scheduler, infos, ran, starts);
    RunQueue(scheduler, rest, taken, ran, infos, starts);
    LaterSays(c, earlier, infos, taken, chn, packets, timestamp, served);
  }

  /** Listed with the state at the start. */
  ghost predicate OpenAtStart(c: RtpConnection, clients: seq<RtpConnection>, groups: seq<RtpConnection>,
                              starts: map<RtpConnection, Sender>) {
    && c in starts && AtMostOnce(c, clients) && c in clients && c !in groups
    && !starts[c].conn.transport.OverMulticast? && !starts[c].conn.is_closed
  }

  lemma ListedAtStart(c: RtpConnection, clients: seq<RtpConnection>, groups: seq<RtpConnection>,
                      starts: map<RtpConnection, Sender>)
    requires forall conn :: conn in starts ==> starts[conn] == conn.State()
    requires forall conn :: conn in clients ==> conn in starts
    ensures Listed(c, clients, groups) ==> OpenAtStart(c, clients, groups, starts)
  {
    hide AtMostOnce;
  }

  lemma QueueLength(scheduler: Scheduler, infos: seq<Info>, n: nat, starts: map<RtpConnection, Sender>)
    requires QueueOk(scheduler, infos, n, starts)
    ensures n + |scheduler.tasks| == |infos|
  {
  }

  /** What the packets sent so far left behind the earlier tasks. */
  ghost predicate Later(c: RtpConnection, earlier: seq<Info>, infos: seq<Info>, taken: nat -> bool, chn: nat,
                        packets: seq<Packet>, i: nat, timestamp: nat, served: bool)
    requires i <= |packets|
  {
    && earlier <= infos && (forall k :: |earlier| <= k < |infos| ==> infos[k].chn == chn && infos[k].media.Fits())
    && (served && TakesAll(c, infos, taken) ==>
          OwnInfos(c, infos[|earlier|..]) == OwnFor(c, chn, packets[..i], timestamp))
  }

  lemma NothingLater(c: RtpConnection, earlier: seq<Info>, taken: nat -> bool, chn: nat, packets: seq<Packet>,
                     timestamp: nat, served: bool)
    ensures Later(c, earlier, earlier, taken, chn, packets, 0, timestamp, served)
  {
    assert earlier[|earlier|..] == [];
    NoTasks(c, chn, packets, timestamp);
  }

  lemma LaterNext(c: RtpConnection, earlier: seq<Info>, infos: seq<Info>, more: seq<Info>, taken: nat -> bool, chn: nat,
                  packets: seq<Packet>, i: nat, timestamp: nat, served: bool)
    requires i < |packets| && Later(c, earlier, infos, taken, chn, packets, i, timestamp, served)
    requires forall k :: 0 <= k < |more| ==> more[k].chn == chn && more[k].media.Fits()
    requires served && TakesAll(c, infos, taken) ==> OwnInfos(c, more) == [Info(c, chn, MediaFor(packets[i], timestamp))]
    ensures Later(c, earlier, infos + more, taken, chn, packets, i + 1, timestamp, served)
  {
    hide OwnInfos, OwnFor, TakesAll, Media.Fits;
    var later := infos[|earlier|..];
    assert (infos + more)[|earlier|..] == later + more;
    OwnInfosConcat(c, later, more);
    OwnForNext(c, chn, packets, i, timestamp);
    TakesBoth(c, infos, more, taken);
  }

  lemma LaterSays(c: RtpConnection, earlier: seq<Info>, infos: seq<Info>, taken: nat -> bool, chn: nat,
                  packets: seq<Packet>, timestamp: nat, served: bool)
    requires Later(c, earlier, infos, taken, chn, packets, |packets|, timestamp, served)
    ensures earlier <= infos && forall k :: |earlier| <= k < |infos| ==> infos[k].chn == chn && infos[k].media.Fits()
    ensures served && TakesAll(c, infos, taken) ==>
              OwnInfos(c, infos[|earlier|..]) == OwnFor(c, chn, packets, timestamp)
  {
    assert packets[..|packets|] == packets;
  }

  lemma StartsAlone(starts: map<RtpConnection, Sender>, infos: seq<Info>, taken: nat -> bool)
    requires forall conn :: conn in starts ==> starts[conn] == conn.State()
    ensures AsAlone(starts, infos, taken, 0)
  {
  }

  lemma TakesBoth(c: RtpConnection, a: seq<Info>, b: seq<Info>, taken: nat -> bool)
    ensures TakesAll(c, a + b, taken) ==> TakesAll(c, a, taken)
  {
    if TakesAll(c, a + b, taken) {
      forall k | 0 <= k < |a| && a[k].conn == c
        ensures taken(k)
      {
        assert (a + b)[k] == a[k];
      }
    }
  }

  /** `RunTasks` on a queue with a past. */
  method RunQueue(scheduler: Scheduler, count: nat, taken: nat -> bool, n: nat,
                  ghost infos: seq<Info>, ghost starts: map<RtpConnection, Sender>)
    requires QueueOk(scheduler, infos, n, starts) && n <= |infos| && AsAlone(starts, infos, taken, n)
    requires count <= |scheduler.tasks|
    modifies scheduler, starts.Keys
    modifies set t | t in scheduler.tasks :: t.pkt.data
    ensures scheduler.tasks == old(scheduler.tasks[count..]) && n + count <= |infos|
    ensures QueueOk(scheduler, infos, n + count, starts) && AsAlone(starts, infos, taken, n + count)
  {
    hide Waits, AsAlone;
    RunTasks(scheduler, count, taken, n, infos, starts);
  }

  lemma AllReady(conns: seq<RtpConnection>, starts: map<RtpConnection, Sender>, infos: seq<Info>,
                 taken: nat -> bool, n: nat, chn: nat)
    requires n <= |infos| && AsAlone(starts, infos, taken, n)
    requires forall conn :: conn in conns ==> conn in starts && Ready(starts[conn].conn, chn)
    ensures forall conn :: conn in conns ==> Ready(conn.Model(), chn)
  {
    hide OwnTasks, Ready;
    forall conn | conn in conns
      ensures Ready(conn.Model(), chn)
    {
      OwnKeepsReady(conn, starts[conn], infos, taken, n, chn);
      assert conn.State() == OwnTasks(conn, starts[conn], infos, taken, n);
    }
  }

  lemma StillListed(c: RtpConnection, clients: seq<RtpConnection>, groups: seq<RtpConnection>,
                    starts: map<RtpConnection, Sender>, infos: seq<Info>, taken: nat -> bool, n: nat)
    requires n <= |infos| && AsAlone(starts, infos, taken, n) && TakesAll(c, infos, taken)
    requires OpenAtStart(c, clients, groups, starts)
    ensures Listed(c, clients, groups)
  {
    hide OwnTasks, AtMostOnce, TakesAll;
    OwnStaysOpen(c, starts[c], infos, taken, n);
    assert c.State() == OwnTasks(c, starts[c], infos, taken, n);
  }

  /** One packet to all clients, behind what is queued already. */
  method QueueNext(packets: seq<Packet>, i: nat, timestamp: nat, chn: nat, clients: seq<RtpConnection>,
                   groups: seq<RtpConnection>, scheduler: Scheduler, ghost infos: seq<Info>, ghost n: nat,
                   ghost taken: nat -> bool, ghost starts: map<RtpConnection, Sender>, ghost c: RtpConnection)
    returns (ghost more: seq<Info>)
    requires Bounded(packets) && i < |packets| && timestamp < 0x1_0000_0000
    requires QueueOk(scheduler, infos, n, starts) && n <= |infos| && AsAlone(starts, infos, taken, n)
    requires forall conn :: conn in clients + groups ==> conn in starts && Ready(starts[conn].conn, chn)
    modifies scheduler
    ensures QueueOk(scheduler, infos + more, n, starts) && AsAlone(starts, infos + more, taken, n)
    ensures |scheduler.tasks| <= |old(scheduler.tasks)| + |clients| + |groups|
    ensures forall t :: t in scheduler.tasks ==> t in old(scheduler.tasks) || fresh(t.pkt.data)
    ensures forall k :: 0 <= k < |more| ==> more[k].chn == chn && more[k].media.Fits()
    ensures OpenAtStart(c, clients, groups, starts) && TakesAll(c, infos, taken)
            && |old(scheduler.tasks)| + |clients| + |groups| <= MAX_TRIGGER_EVENTS ==>
              OwnInfos(c, more) == [Info(c, chn, MediaFor(packets[i], timestamp))]
  {
    hide OwnInfos, OwnTasks, Ready, MediaOf, Listed, TakesAll, InfosFor, Bounded, Waits, AsAlone, AtMostOnce, OpenAtStart;
    ghost var before := scheduler.tasks;
    PacketFits(packets, i);
    AllReady(clients + groups, starts, infos, taken, n, chn);
    if OpenAtStart(c, clients, groups, starts) && TakesAll(c, infos, taken) {
      StillListed(c, clients, groups, starts, infos, taken, n);
    }
    ghost var tasks := QueueOne(packets[i], timestamp, chn, clients, groups, scheduler, c);
    more := InfosFor(tasks, MediaFor(packets[i], timestamp));
    MoreTasks(starts, infos, more, taken, n);
    QueueGrows(scheduler, before, tasks, infos, more, n, starts);
  }

  lemma QueueGrows(scheduler: Scheduler, before: seq<Queued>, tasks: seq<Queued>, infos: seq<Info>, more: seq<Info>,
                   n: nat, starts: map<RtpConnection, Sender>)
    requires scheduler.tasks == before + tasks && n + |before| == |infos| && |tasks| == |more|
    requires forall i :: 0 <= i < |before| ==> Waits(before[i], infos[n + i])
    requires forall i :: 0 <= i < |tasks| ==> Waits(tasks[i], more[i])
    requires forall t :: t in before + tasks ==> t.conn in starts
    ensures QueueOk(scheduler, infos + more, n, starts)
  {
    hide Waits;
    forall i | 0 <= i < |scheduler.tasks|
      ensures Waits(scheduler.tasks[i], (infos + more)[n + i])
    {
      if i < |before| {
        assert scheduler.tasks[i] == before[i] && (infos + more)[n + i] == infos[n + i];
      } else {
        assert scheduler.tasks[i] == tasks[i - |before|] && (infos + more)[n + i] == more[i - |before|];
      }
    }
  }

  lemma NoTasks(c: RtpConnection, chn: nat, packets: seq<Packet>, timestamp: nat)
    ensures OwnInfos(c, []) == OwnFor(c, chn, packets[..0], timestamp)
  {
  }

  lemma PacketFits(packets: seq<Packet>, i: nat)
    requires Bounded(packets) && i < |packets|
    ensures |packets[i].payload| <= MAX_RTP_PAYLOAD_SIZE
  {
  }

  lemma OwnForNext(c: RtpConnection, chn: nat, packets: seq<Packet>, i: nat, timestamp: nat)
    requires i < |packets|
    ensures OwnFor(c, chn, packets[..i + 1], timestamp)
            == OwnFor(c, chn, packets[..i], timestamp) + [Info(c, chn, MediaFor(packets[i], timestamp))]
  {
  }

  lemma Products(i: nat, n: nat, w: nat)
    requires i < n
    ensures i * w + w == (i + 1) * w <= n * w
  {
    assert (i + 1) * w + (n - i - 1) * w == n * w;
  }

  // ---------------------------------------------------------------------------
  // The whole way
  // ---------------------------------------------------------------------------

  /** A client that plays channel chn and has room on the scheduler for all its tasks
      behind those that wait there. */
  ghost predicate Served(client: RtpConnection, clients: seq<RtpConnection>, groups: seq<RtpConnection>,
                         chn: nat, packets: seq<Packet>, waiting: nat)
    reads client
  {
    && Listed(client, clients, groups) && Flowing(client.Model(), chn)
    && waiting + |packets| * (|clients| + |groups|) <= MAX_TRIGGER_EVENTS
    && packets != []
  }

  /** A key frame was seen, or the first packet is one. */
  predicate KeyFirst(c: Conn, packets: seq<Packet>) {
    c.has_key_frame || (packets != [] && packets[0].kind in {FrameType.None, VideoFrameIdr})
  }

  /** The message carries the time stamp of the access unit, and the marker unless it is a
      fragment with more to come. */
  ghost predicate HasStamp(c: Codec, message: seq<Byte>, timestamp: nat) {
    match ReadWire(message)
    case None => false
    case Some(rtp) =>
      var parsed := Parse(c, rtp.payload);
      rtp.timestamp == timestamp && (!rtp.marker <==> parsed.Piece? && !parsed.last)
  }

  ghost predicate Stamped(c: Codec, messages: seq<seq<Byte>>, timestamp: nat) {
    forall k :: 0 <= k < |messages| ==> HasStamp(c, messages[k], timestamp)
  }

  lemma OwnHasStamp(c: Codec, message: seq<Byte>, conn: Conn, client: RtpConnection, chn: nat, p: Packet, timestamp: nat)
    requires chn < |conn.channels| && OwnMessage(message, conn, Info(client, chn, MediaFor(p, timestamp))) && Announced(c, p)
    ensures HasStamp(c, message, timestamp)
  {
    hide Parse, ReadRtp, ReadInterleaved, KindOf;
  }

  lemma ArrivedStamped(c: Codec, conn: Conn, before: seq<seq<Byte>>, after: seq<seq<Byte>>, client: RtpConnection,
                       chn: nat, packets: seq<Packet>, timestamp: nat)
    requires Arrived(conn, before, after, OwnFor(client, chn, packets, timestamp)) && AllAnnounced(c, packets)
    ensures |before| <= |after| && Stamped(c, after[|before|..], timestamp)
  {
    hide OwnMessage, HasStamp, Announced;
    var own, messages := OwnFor(client, chn, packets, timestamp), after[|before|..];
    forall k | 0 <= k < |messages|
      ensures HasStamp(c, messages[k], timestamp)
    {
      assert own[k] == Info(client, chn, MediaFor(packets[k], timestamp)) && messages[k] == after[|before| + k];
      OwnHasStamp(c, messages[k], conn, client, chn, packets[k], timestamp);
    }
  }

  /** What such a client hands to its transport lets its peer rebuild the units. */
  lemma ServedRebuilds(c: Codec, units: seq<Nal>, client: RtpConnection, s: Sender, infos: seq<Info>,
                       taken: nat -> bool, chn: nat, timestamp: nat)
    requires forall nal :: nal in units ==> c.Carries(nal)
    requires ConnInv(s.conn) && Flowing(s.conn, chn) && timestamp < 0x1_0000_0000
    requires forall i :: 0 <= i < |infos| ==> infos[i].chn == chn && infos[i].media.Fits()
    requires OwnInfos(client, infos) == OwnFor(client, chn, Packetize(c, units, 0), timestamp)
    requires Packetize(c, units, 0) != [] && KeyFirst(s.conn, Packetize(c, units, 0)) && TakesAll(client, infos, taken)
    ensures var r := OwnTasks(client, s, infos, taken, |infos|);
            && |s.wire| <= |r.wire|
            && Depacketize(c, Received(r.wire[|s.wire|..]), Option.None) == Some(units)
            && (s.conn.transport.OverTcp? ==> AreFrames(r.wire[|s.wire|..]))
            && Stamped(c, r.wire[|s.wire|..], timestamp)
  {
    hide Depacketize, Packetize, Codec.Carries, OwnInfos, OwnTasks, ConnInv, Flowing, Media.Fits, Arrived, Stamped,
      AllAnnounced, AreFrames;
    assert OwnInfos(client, infos)[0].media.kind == Packetize(c, units, 0)[0].kind;
    ClientRebuilds(c, units, client, s, infos, taken);
    PacketsAreAnnounced(c, units, 0);
    ArrivedStamped(c, s.conn, s.wire, OwnTasks(client, s, infos, taken, |infos|).wire, client, chn,
                   Packetize(c, units, 0), timestamp);
    if s.conn.transport.OverTcp? {
      FlowIsChannel(s.conn, chn);
      ClientSendsFrames(client, s, infos, taken);
    }
  }

  /** `HandleFrame` of either codec, with a callback that takes every packet. */
  method PacketsOf(c: Codec, data: seq<Byte>, addr: nat) returns (log: seq<Packet>)
    ensures log == Packetize(c, AnnexB.Split(data), 0)
  {
    hide Packetize, AnnexB.Split;
    var always := k => true;
    var sink := new FrameSink(always);
    var ok;
    if c.H264? {
      ok := H264Source.HandleFrame(data, addr, sink);
    } else {
      ok := H265Source.HandleFrame(data, addr, sink);
    }
    var units := AnnexB.Split(data);
    if units == [] {
      NothingToSend(c, units);
    } else {
      AllDelivered(always, sink.log, Packetize(c, units, 0), ok);
    }
    return sink.log;
  }

  lemma AllDelivered(accept: nat -> bool, log: seq<Packet>, packets: seq<Packet>, ok: bool)
    requires Delivered(accept, [], log, packets, ok) && forall k :: accept(k)
    ensures log == packets
  {
    assert packets[..|packets|] == packets;
  }

  /** One access unit to all clients: it is split and packetized, and every packet goes
      through the send callback, behind the tasks that wait on the scheduler already and
      while it runs any number of them. Each client that plays hands its transport,
      behind what its earlier tasks hand over, messages from which its peer rebuilds
      exactly the units of the access unit; they carry its time stamp and the marker where
      they should, and over TCP they are interleaved frames. */
  method Deliver(c: Codec, data: seq<Byte>, addr: nat, timestamp: nat, chn: nat, clients: seq<RtpConnection>,
                 groups: seq<RtpConnection>, scheduler: Scheduler, runs: nat -> nat, taken: nat -> bool,
                 ghost earlier: seq<Info>, ghost starts: map<RtpConnection, Sender>, ghost client: RtpConnection)
    returns (ghost infos: seq<Info>)
    requires timestamp < 0x1_0000_0000 && QueueOk(scheduler, earlier, 0, starts)
    requires forall conn :: conn in starts ==> starts[conn] == conn.State()
    requires forall conn :: conn in clients + groups ==> conn in starts && Ready(conn.Model(), chn)
    requires forall nal :: nal in AnnexB.Split(data) ==> c.Carries(nal)
    modifies scheduler, starts.Keys
    modifies set t | t in scheduler.tasks :: t.pkt.data
    ensures scheduler.tasks == [] && earlier <= infos && AsAlone(starts, infos, taken, |infos|)
    ensures var units := AnnexB.Split(data);
            var packets := Packetize(c, units, 0);
            var mid := OwnTasks(client, old(client.State()), earlier, taken, |earlier|);
            old(Served(client, clients, groups, chn, packets, |scheduler.tasks|)) && TakesAll(client, infos, taken)
            && KeyFirst(mid.conn, packets) ==>
              && |mid.wire| <= |client.wire|
              && Depacketize(c, Received(client.wire[|mid.wire|..]), Option.None) == Some(units)
              && (old(client.transport).OverTcp? ==> AreFrames(client.wire[|mid.wire|..]))
              && Stamped(c, client.wire[|mid.wire|..], timestamp)
  {
    hide AnnexB.Split, Packetize, Depacketize, Codec.Carries, OwnInfos, OwnTasks, Listed, Flowing, ConnInv, Waits,
      AsAlone, AreFrames, KeyFirst, TakesAll, Stamped;
    ghost var units := AnnexB.Split(data);
    ghost var packets := Packetize(c, units, 0);
    ghost var s, served := client.State(), Served(client, clients, groups, chn, packets, |scheduler.tasks|);
    if served {
      ServedSays(client, clients, groups, chn, packets, |scheduler.tasks|);
    }
    var log := PacketsOf(c, data, addr);
    PacketsAreBounded(c, units, 0);
    infos := Broadcast(log, timestamp, chn, clients, groups, scheduler, runs, taken, earlier, starts, client);
    ghost var mid := OwnTasks(client, s, earlier, taken, |earlier|);
    if served && TakesAll(client, infos, taken) && KeyFirst(mid.conn, packets) {
      FinalState(client, starts, infos, taken);
      LaterTasks(c, units, client, s, earlier, infos, taken, chn, timestamp);
    }
  }

  lemma ServedSays(client: RtpConnection, clients: seq<RtpConnection>, groups: seq<RtpConnection>, chn: nat,
                   packets: seq<Packet>, waiting: nat)
    requires Served(client, clients, groups, chn, packets, waiting)
    ensures client in clients && Flowing(client.Model(), chn)
  {
  }

  lemma FinalState(c: RtpConnection, starts: map<RtpConnection, Sender>, infos: seq<Info>, taken: nat -> bool)
    requires AsAlone(starts, infos, taken, |infos|) && c in starts
    ensures c.State() == OwnTasks(c, starts[c], infos, taken, |infos|)
  {
  }

  /** What a served client hands over behind its earlier tasks. */
  lemma LaterTasks(c: Codec, units: seq<Nal>, client: RtpConnection, s: Sender, earlier: seq<Info>, infos: seq<Info>,
                   taken: nat -> bool, chn: nat, timestamp: nat)
    requires earlier <= infos && TakesAll(client, infos, taken)
    requires forall k :: |earlier| <= k < |infos| ==> infos[k].chn == chn && infos[k].media.Fits()
    requires (forall nal :: nal in units ==> c.Carries(nal)) && Packetize(c, units, 0) != []
    requires ConnInv(s.conn) && Flowing(s.conn, chn) && timestamp < 0x1_0000_0000
    requires OwnInfos(client, infos[|earlier|..]) == OwnFor(client, chn, Packetize(c, units, 0), timestamp)
    requires KeyFirst(OwnTasks(client, s, earlier, taken, |earlier|).conn, Packetize(c, units, 0))
    ensures var mid, r := OwnTasks(client, s, earlier, taken, |earlier|), OwnTasks(client, s, infos, taken, |infos|);
            && |mid.wire| <= |r.wire|
            && Depacketize(c, Received(r.wire[|mid.wire|..]), Option.None) == Some(units)
            && (s.conn.transport.OverTcp? ==> AreFrames(r.wire[|mid.wire|..]))
            && Stamped(c, r.wire[|mid.wire|..], timestamp)
  {
    hide Depacketize, Packetize, Codec.Carries, OwnInfos, OwnTasks, OwnFor, ConnInv, Media.Fits, AreFrames, KeyFirst,
      Stamped, TakesAll, Flowing, From;
    var later := infos[|earlier|..];
    assert earlier + later == infos;
    OwnTasksConcat(client, s, earlier, later, taken, |later|);
    TakesParts(client, earlier, later, taken);
    GoesOnPlaying(client, s, earlier, taken, chn);
    var mid := OwnTasks(client, s, earlier, taken, |earlier|);
    ServedRebuilds(c, units, client, mid, later, From(taken, |earlier|), chn, timestamp);
  }

  lemma TakesParts(c: RtpConnection, a: seq<Info>, b: seq<Info>, taken: nat -> bool)
    requires TakesAll(c, a + b, taken)
    ensures TakesAll(c, a, taken) && TakesAll(c, b, From(taken, |a|))
  {
    TakesBoth(c, a, b, taken);
    forall k | 0 <= k < |b| && b[k].conn == c
      ensures From(taken, |a|)(k)
    {
      assert (a + b)[|a| + k] == b[k];
    }
  }

  lemma GoesOnPlaying(client: RtpConnection, s: Sender, infos: seq<Info>, taken: nat -> bool, chn: nat)
    requires ConnInv(s.conn) && Flowing(s.conn, chn) && TakesAll(client, infos, taken)
    ensures var r := OwnTasks(client, s, infos, taken, |infos|);
            ConnInv(r.conn) && Flowing(r.conn, chn) && r.conn.transport == s.conn.transport
  {
    hide OwnTasks, ConnInv, TakesAll;
    OwnStaysOpen(client, s, infos, taken, |infos|);
    OwnKeepsReady(client, s, infos, taken, |infos|, chn);
  }

  /** A client's messages through its TCP connection, whatever it carried before, whatever
      else the RTSP connection sends in between and whatever the socket takes: as long as
      the connection stays open and its queue can hold them, the peer cuts what the
      stream grew by into messages, and from the frames among them it rebuilds the
      units. */
  method DeliverOverTcp(c: Codec, ops: seq<Op>, units: seq<Nal>, tcp: TcpConnection, locked: nat -> bool)
    requires AreMessages(MessagesOf(ops))
    requires Depacketize(c, Received(Among(true, MessagesOf(ops))), Option.None) == Some(units)
    requires tcp.Valid()
    modifies tcp, tcp.write_buffer`buffer, tcp.sock
    ensures tcp.Valid() && |old(ByteStream(tcp))| <= |ByteStream(tcp)|
    ensures !tcp.is_closed && |old(tcp.write_buffer.buffer)| + |ops| <= tcp.write_buffer.max_queue_length ==>
              var more := Cut(ByteStream(tcp)[|old(ByteStream(tcp))|..]);
              && more == Some(MessagesOf(ops))
              && Depacketize(c, Received(Among(true, more.value)), Option.None) == Some(units)
              && (old(Cut(ByteStream(tcp))).Some? ==>
                    Cut(ByteStream(tcp)) == Some(old(Cut(ByteStream(tcp))).value + more.value))
  {
    hide Cut, Depacketize, Received, Select, AreMessages, MessagesOf, Among, Concat;
    var taken := RunConnection(tcp, ops, locked);
    if !tcp.is_closed && |old(tcp.write_buffer.buffer)| + |ops| <= tcp.write_buffer.max_queue_length {
      SelectAll(MessagesOf(ops), taken);
    }
  }
}
