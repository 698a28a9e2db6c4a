/** One packet to many clients: the send callback of rtsp-server/xop/MediaSession.cpp
    and the tasks it leaves on the scheduler. All clients share one packet buffer. */
module FanOut {
  import opened Bytes
  import opened Wrappers
  import opened Payload
  import opened RtpState
  import opened RtpPacket
  import opened RtpConnection

  const MAX_TRIGGER_EVENTS := 50000

  datatype Queued = Queued(conn: RtpConnection, chn: nat, pkt: RtpPacket)

  /** The queue of the one scheduler that all clients use. */
  class Scheduler {
    var tasks: seq<Queued>

    constructor ()
      ensures tasks == []
    {
      tasks := [];
    }

    method AddTriggerEvent(task: Queued) returns (ok: bool)
      modifies this
      ensures ok <==> |old(tasks)| < MAX_TRIGGER_EVENTS
      ensures tasks == old(tasks) + if ok then [task] else []
    {
      if |tasks| < MAX_TRIGGER_EVENTS {
        tasks := tasks + [task];
        return true;
      }
      return false;
    }
  }

  // ---------------------------------------------------------------------------
  // Queueing
  // ---------------------------------------------------------------------------

  /** The tasks one packet leaves behind: one for each open connection, in order,
      as far as the scheduler has room. Without `groups` the multicast connections
      are left out. */
  ghost function Admitted(conns: seq<RtpConnection>, groups: bool, chn: nat, pkt: RtpPacket, n: nat): seq<Queued>
    reads set c | c in conns
  {
    if conns == [] then []
    else
      var front, c := Admitted(conns[..|conns| - 1], groups, chn, pkt, n), conns[|conns| - 1];
      if (groups || !c.transport.OverMulticast?) && !c.is_closed && n + |front| < MAX_TRIGGER_EVENTS
      then front + [Queued(c, chn, pkt)] else front
  }

  /** `SendRtpPacket`. */
  method SendRtpPacket(conn: RtpConnection, chn: nat, pkt: RtpPacket, scheduler: Scheduler) returns (ret: int)
    modifies scheduler
    ensures ret == 0 <==> !conn.is_closed && |old(scheduler.tasks)| < 50000
    ensures scheduler.tasks == old(scheduler.tasks) + if ret == 0 then [Queued(conn, chn, pkt)] else []
  {
    if conn.is_closed {
      return -1;
    }
    var ok := scheduler.AddTriggerEvent(Queued(conn, chn, pkt));
    return if ok then 0 else -1;
  }

  /** The send callback: one private copy of the packet, shared by the tasks of
      all clients. `groups` are the session's two multicast connections, and none
      when the session is not a multicast one. */
  method OnPacket(pkt: RtpPacket, chn: nat, clients: seq<RtpConnection>, groups: seq<RtpConnection>, scheduler: Scheduler)
    returns (tmp: RtpPacket)
    requires pkt.Valid() && HEAD <= pkt.size
    modifies scheduler
    ensures fresh(tmp) && fresh(tmp.data) && tmp.Valid() && HEAD <= tmp.size
    ensures MediaOf(tmp) == MediaOf(pkt)
    ensures var before := old(scheduler.tasks);
            var own := Admitted(clients, false, chn, tmp, |before|);
            scheduler.tasks == before + own + Admitted(groups, true, chn, tmp, |before + own|)
  {
    hide Admitted, MediaOf;
    tmp := Copy(pkt);
    QueueAll(clients, false, chn, tmp, scheduler);
    QueueAll(groups, true, chn, tmp, scheduler);
  }

  method Copy(pkt: RtpPacket) returns (tmp: RtpPacket)
    requires pkt.Valid() && HEAD <= pkt.size
    ensures fresh(tmp) && fresh(tmp.data) && tmp.Valid() && HEAD <= tmp.size
    ensures MediaOf(tmp) == MediaOf(pkt)
  {
    tmp := new RtpPacket();
    forall k | 0 <= k < pkt.size {
      tmp.data[k] := pkt.data[k];
    }
    tmp.size := pkt.size;
    tmp.last := pkt.last;
    tmp.timestamp := pkt.timestamp;
    tmp.kind := pkt.kind;
    assert tmp.data[HEAD..tmp.size] == pkt.data[HEAD..pkt.size];
  }

  /** Hands one packet to every connection of a list. */
  method QueueAll(conns: seq<RtpConnection>, groups: bool, chn: nat, tmp: RtpPacket, scheduler: Scheduler)
    modifies scheduler
    ensures scheduler.tasks == old(scheduler.tasks) + Admitted(conns, groups, chn, tmp, |old(scheduler.tasks)|)
  {
    var i := 0;
    assert conns[..0] == [];
    while i < |conns|
      invariant i <= |conns|
      invariant scheduler.tasks == old(scheduler.tasks) + Admitted(conns[..i], groups, chn, tmp, |old(scheduler.tasks)|)
    {
      var conn := conns[i];
      assert conns[..i + 1][..i] == conns[..i];
      if groups || !conn.transport.OverMulticast? {
        var _ := SendRtpPacket(conn, chn, tmp, scheduler);
      }
      i := i + 1;
    }
    assert conns[..i] == conns;
  }

  // ---------------------------------------------------------------------------
  // Running the tasks
  // ---------------------------------------------------------------------------

  /** A queued task with the packet as it was queued. */
  datatype Info = Info(conn: RtpConnection, chn: nat, media: Media)

  function TaskStep(s: Sender, t: Info, taken: bool): Sender {
    if t.chn < |s.conn.channels| then AfterMedia(s, t.chn, t.media, taken) else s
  }

  /** What client `c` becomes when the first n tasks run: only its own tasks
      count, and each sees the packet as it was queued. */
  ghost function OwnTasks(c: RtpConnection, s: Sender, infos: seq<Info>, taken: nat -> bool, n: nat): Sender
    requires n <= |infos|
  {
    if n == 0 then s
    else
      var p, t := OwnTasks(c, s, infos, taken, n - 1), infos[n - 1];
      if t.conn == c then TaskStep(p, t, taken(n - 1)) else p
  }

  /** The client can take this task. */
  ghost predicate Ready(c: Conn, chn: nat) {
    chn < |c.channels| && ConnInv(c)
  }

  ghost predicate Runnable(t: Queued)
    reads t.conn, t.pkt, t.pkt.data
  {
    Ready(t.conn.Model(), t.chn) && t.pkt.Valid() && HEAD <= t.pkt.size
  }

  /** The queued packets still read as they did when they were queued. */
  ghost predicate Intact(t: Queued, info: Info)
    requires Runnable(t)
    reads t.conn, t.pkt, t.pkt.data
  {
    info == Info(t.conn, t.chn, MediaOf(t.pkt))
  }

  lemma TaskKeepsReady(c: Conn, chn: nat, m: Media, taken: bool, other: nat)
    requires Ready(c, chn) && Ready(c, other)
    ensures Ready(AfterTask(c, chn, m, taken), other)
  {
    hide AfterTask;
    TaskKeepsConn(c, chn, m, taken);
  }

  /** The task can run, on the packet as it was queued. */
  ghost predicate Waits(t: Queued, info: Info)
    reads t.conn, t.pkt, t.pkt.data
  {
    Runnable(t) && Intact(t, info)
  }

  /** The oldest task leaves the queue and runs: it changes its own client only, and no
      queued packet. */
  method RunOne(scheduler: Scheduler, taken: bool, ghost infos: seq<Info>)
    requires scheduler.tasks != [] && |infos| == |scheduler.tasks|
    requires forall i :: 0 <= i < |infos| ==> Waits(scheduler.tasks[i], infos[i])
    modifies scheduler, scheduler.tasks[0].conn, scheduler.tasks[0].pkt.data
    ensures scheduler.tasks == old(scheduler.tasks[1..])
    ensures forall i :: 0 <= i < |scheduler.tasks| ==> Waits(scheduler.tasks[i], infos[i + 1])
    ensures var c := old(scheduler.tasks[0].conn);
            c.State() == TaskStep(old(scheduler.tasks[0].conn.State()), infos[0], taken)
  {
    hide AfterTask, HandedByTask;
    var t := scheduler.tasks[0];
    ghost var c, rest := t.conn.Model(), scheduler.tasks[1..];
    assert |c.channels[t.chn].ssrc| == 4;
    assert forall i :: 0 <= i < |rest| ==> Waits(rest[i], infos[i + 1]);
    scheduler.tasks := scheduler.tasks[1..];
    t.conn.RunTask(t.chn, t.pkt, taken);
    forall i | 0 <= i < |rest|
      ensures Waits(rest[i], infos[i + 1])
    {
      var u := rest[i];
      if u.conn == t.conn {
        TaskKeepsReady(c, t.chn, infos[0].media, taken, u.chn);
      }
      if u.pkt.data == t.pkt.data {
        assert u.pkt.data[HEAD..u.pkt.size] == u.pkt.data[HEAD..][..u.pkt.size - HEAD];
        assert old(u.pkt.data[HEAD..u.pkt.size]) == old(u.pkt.data[HEAD..])[..u.pkt.size - HEAD];
      }
    }
  }

  /** Each client is as if only its own tasks among the first n had run. */
  ghost predicate AsAlone(starts: map<RtpConnection, Sender>, infos: seq<Info>, taken: nat -> bool, n: nat)
    requires n <= |infos|
    reads starts.Keys
  {
    forall c :: c in starts ==> c.State() == OwnTasks(c, starts[c], infos, taken, n)
  }

  /** Isolation: whatever clients the tasks belong to, in whatever order they run
      and whatever buffers they share, each client ends up as if its own tasks had
      run alone, on packets of its own. The queue holds the tasks from the n-th on, and
      some of them run. */
  method RunTasks(scheduler: Scheduler, count: nat, taken: nat -> bool, n: nat,
                  ghost infos: seq<Info>, ghost starts: map<RtpConnection, Sender>)
    requires n + |scheduler.tasks| == |infos| && count <= |scheduler.tasks|
    requires forall i :: 0 <= i < |scheduler.tasks| ==> Waits(scheduler.tasks[i], infos[n + i])
    requires (forall t :: t in scheduler.tasks ==> t.conn in starts) && AsAlone(starts, infos, taken, n)
    modifies scheduler, starts.Keys
    modifies set t | t in scheduler.tasks :: t.pkt.data
    ensures scheduler.tasks == old(scheduler.tasks[count..])
    ensures forall i :: 0 <= i < |scheduler.tasks| ==> Waits(scheduler.tasks[i], infos[n + count + i])
    ensures AsAlone(starts, infos, taken, n + count)
  {
    hide Waits, TaskStep, RtpConnection.State;
    var k := 0;
    while k < count
      invariant k <= count && scheduler.tasks == old(scheduler.tasks[k..])
      invariant forall i :: 0 <= i < |scheduler.tasks| ==> Waits(scheduler.tasks[i], infos[n + k..][i])
      invariant AsAlone(starts, infos, taken, n + k)
    {
      ghost var t, tail := scheduler.tasks[0], infos[n + k..];
      assert t == old(scheduler.tasks[k]);
      SameConn(t, tail[0]);
      RunOne(scheduler, taken(n + k), tail);
      assert tail[1..] == infos[n + (k + 1)..];
      assert scheduler.tasks == old(scheduler.tasks[k + 1..]);
      k := k + 1;
    }
  }

  lemma SameConn(t: Queued, info: Info)
    requires Waits(t, info)
    ensures info.conn == t.conn
  {
  }

  // ---------------------------------------------------------------------------
  // What the client's peer reads
  // ---------------------------------------------------------------------------

  /** The message reads back as this client's header, in this client's framing,
      and the payload as it was queued. */
  predicate OwnMessage(bytes: seq<Byte>, c: Conn, t: Info)
    requires t.chn < |c.channels|
  {
    var ch := c.channels[t.chn];
    && (c.transport.OverTcp? ==> ReadInterleaved(bytes).Some? && ReadInterleaved(bytes).value.0 == ch.rtp_channel)
    && match ReadWire(bytes)
       case None => false
       case Some(rtp) =>
         rtp.ssrc == ch.ssrc && rtp.payload_type == ch.payload_type
         && rtp.payload == t.media.payload && rtp.timestamp == t.media.timestamp && rtp.marker == t.media.last
  }

  /** What no task changes. */
  predicate SameIdentity(a: Conn, b: Conn) {
    && |a.channels| == |b.channels| && a.transport == b.transport
    && forall i :: 0 <= i < |a.channels| ==>
         a.channels[i].ssrc == b.channels[i].ssrc && a.channels[i].payload_type == b.channels[i].payload_type
         && a.channels[i].rtp_channel == b.channels[i].rtp_channel
  }

  lemma TaskKeepsIdentity(c: Conn, s: Conn, chn: nat, m: Media, taken: bool)
    requires SameIdentity(c, s) && chn < |c.channels|
    ensures SameIdentity(c, AfterTask(s, chn, m, taken))
  {
  }

  lemma HandedIsOwn(c: Conn, s: Conn, t: Info)
    requires ConnInv(s) && SameIdentity(c, s) && t.chn < |c.channels| && t.media.Fits()
    requires HandedByTask(s, t.chn, t.media).Some?
    ensures OwnMessage(HandedByTask(s, t.chn, t.media).value, c, t)
  {
    hide ReadRtp, ReadInterleaved, FromNat, ConnInv;
    FitsByInv(s, t.chn);
    ReadBack(s.channels[t.chn], t.media);
    ReadBackInterleaved(s.channels[t.chn], t.media);
  }

  lemma StepSendsOwn(c: Conn, s: Sender, t: Info, taken: bool)
    requires ConnInv(s.conn) && SameIdentity(c, s.conn) && t.chn < |c.channels| && t.media.Fits()
    ensures var r := TaskStep(s, t, taken);
            && ConnInv(r.conn) && SameIdentity(c, r.conn)
            && (r.wire == s.wire ||
                (|r.wire| == |s.wire| + 1 && r.wire[..|s.wire|] == s.wire && OwnMessage(r.wire[|s.wire|], c, t)))
  {
    hide OwnMessage, ConnInv, AfterTask, HandedByTask;
    TaskKeepsConn(s.conn, t.chn, t.media, taken);
    TaskKeepsIdentity(c, s.conn, t.chn, t.media, taken);
    if HandedByTask(s.conn, t.chn, t.media).Some? {
      HandedIsOwn(c, s.conn, t);
    }
  }

  lemma FitsByInv(c: Conn, chn: nat)
    requires ConnInv(c) && chn < |c.channels|
    ensures ChannelFits(c.channels[chn])
  {
  }

  ghost predicate FromOwnTask(c: RtpConnection, conn: Conn, infos: seq<Info>, bytes: seq<Byte>) {
    exists i :: 0 <= i < |infos| && infos[i].conn == c && infos[i].chn < |conn.channels| && OwnMessage(bytes, conn, infos[i])
  }

  /** Every message a client sends is its own: one of its tasks' payloads behind
      its own header and framing. */
  lemma {:induction false} MessagesAreOwn(c: RtpConnection, s: Sender, infos: seq<Info>, taken: nat -> bool, n: nat)
    requires n <= |infos| && ConnInv(s.conn)
    requires forall i :: 0 <= i < |infos| && infos[i].conn == c ==> infos[i].chn < |s.conn.channels| && infos[i].media.Fits()
    ensures var r := OwnTasks(c, s, infos, taken, n);
            && ConnInv(r.conn) && SameIdentity(s.conn, r.conn)
            && |s.wire| <= |r.wire| && r.wire[..|s.wire|] == s.wire
            && forall k :: |s.wire| <= k < |r.wire| ==> FromOwnTask(c, s.conn, infos[..n], r.wire[k])
  {
    hide OwnMessage, ConnInv, TaskStep, SameIdentity;
    IdentityIsReflexive(s.conn);
    if n > 0 {
      MessagesAreOwn(c, s, infos, taken, n - 1);
      var p, t := OwnTasks(c, s, infos, taken, n - 1), infos[n - 1];
      if t.conn == c {
        IdentityKeepsChannels(s.conn, p.conn);
        StepSendsOwn(s.conn, p, t, taken(n - 1));
      }
      var r := OwnTasks(c, s, infos, taken, n);
      assert r.wire[..|p.wire|] == p.wire;
      assert r.wire[..|s.wire|] == p.wire[..|s.wire|];
      forall k | |s.wire| <= k < |r.wire|
        ensures FromOwnTask(c, s.conn, infos[..n], r.wire[k])
      {
        if k < |p.wire| {
          assert r.wire[k] == r.wire[..|p.wire|][k] == p.wire[k];
          var i :| 0 <= i < n - 1 && infos[..n - 1][i].conn == c && infos[..n - 1][i].chn < |s.conn.channels|
                   && OwnMessage(r.wire[k], s.conn, infos[..n - 1][i]);
          assert infos[..n][i] == infos[..n - 1][i];
        } else {
          assert infos[..n][n - 1] == infos[n - 1] && OwnMessage(r.wire[k], s.conn, infos[n - 1]);
        }
      }
    }
  }

  lemma IdentityIsReflexive(c: Conn)
    ensures SameIdentity(c, c)
  {
  }

  lemma IdentityKeepsChannels(a: Conn, b: Conn)
    requires SameIdentity(a, b)
    ensures |a.channels| == |b.channels|
  {
  }

  // ---------------------------------------------------------------------------
  // Nothing is left out
  // ---------------------------------------------------------------------------

  /** The tasks of one client, in order. */
  function OwnInfos(c: RtpConnection, infos: seq<Info>): seq<Info> {
    if infos == [] then []
    else
      var n := |infos| - 1;
      OwnInfos(c, infos[..n]) + if infos[n].conn == c then [infos[n]] else []
  }

  /** The client plays this channel and has a transport. */
  predicate Flowing(c: Conn, chn: nat) {
    && chn < |c.channels| && c.channels[chn].Active()
    && !c.transport.NoTransport? && (c.transport.OverTcp? ==> c.attached)
  }

  lemma FlowGoesOn(c: Conn, chn: nat, m: Media, other: nat)
    requires Flowing(c, chn) && Flowing(c, other)
    ensures Flowing(AfterTask(c, chn, m, true), other)
    ensures AfterTask(c, chn, m, true).has_key_frame == (c.has_key_frame || m.IsKey())
    ensures HandedByTask(c, chn, m).Some? <==> c.has_key_frame || m.IsKey()
  {
    hide Header, Interleaved;
  }

  /** A key frame has been seen, before these tasks or in one of them. */
  predicate KeySeen(own: seq<Info>, seen: bool) {
    seen || exists i :: 0 <= i < |own| && own[i].media.IsKey()
  }

  /** The tasks from the first key frame on. */
  function Shown(own: seq<Info>, seen: bool): seq<Info> {
    if own == [] then []
    else
      var n := |own| - 1;
      Shown(own[..n], seen) + if KeySeen(own, seen) then [own[n]] else []
  }

  lemma ShownNext(own: seq<Info>, t: Info, seen: bool)
    ensures KeySeen(own + [t], seen) == (KeySeen(own, seen) || t.media.IsKey())
    ensures Shown(own + [t], seen) == Shown(own, seen) + if KeySeen(own, seen) || t.media.IsKey() then [t] else []
  {
    var all := own + [t];
    assert all[..|own|] == own && all[|own|] == t;
    if seen {
    } else if i :| 0 <= i < |own| && own[i].media.IsKey() {
      assert all[i].media.IsKey();
    } else if t.media.IsKey() {
      assert all[|own|].media.IsKey();
    }
  }

  /** Nothing is held back once a key frame was seen or when the first task is one. */
  lemma {:induction false} ShownAll(own: seq<Info>, seen: bool)
    requires seen || (own != [] && own[0].media.IsKey())
    ensures Shown(own, seen) == own
  {
    if own != [] {
      var n := |own| - 1;
      if seen || n > 0 {
        ShownAll(own[..n], seen);
      }
      assert own == own[..n] + [own[n]];
    }
  }

  lemma OwnInfosNext(c: RtpConnection, infos: seq<Info>, n: nat)
    requires 0 < n <= |infos|
    ensures var own := OwnInfos(c, infos[..n - 1]);
            OwnInfos(c, infos[..n]) == if infos[n - 1].conn == c then own + [infos[n - 1]] else own
  {
    assert infos[..n][..n - 1] == infos[..n - 1];
  }

  ghost predicate AllFlow(c: RtpConnection, conn: Conn, infos: seq<Info>) {
    forall i :: 0 <= i < |infos| && infos[i].conn == c ==> Flowing(conn, infos[i].chn)
  }

  ghost predicate Arrived(conn: Conn, before: seq<seq<Byte>>, after: seq<seq<Byte>>, own: seq<Info>) {
    && |after| == |before| + |own| && after[..|before|] == before
    && forall k :: 0 <= k < |own| ==> own[k].chn < |conn.channels| && OwnMessage(after[|before| + k], conn, own[k])
  }

  lemma OneMore(conn: Conn, before: seq<seq<Byte>>, after: seq<seq<Byte>>, own: seq<Info>, bytes: seq<Byte>, t: Info)
    requires Arrived(conn, before, after, own) && t.chn < |conn.channels| && OwnMessage(bytes, conn, t)
    ensures Arrived(conn, before, after + [bytes], own + [t])
  {
    hide OwnMessage;
    assert (after + [bytes])[..|before|] == after[..|before|];
  }

  /** While a client plays and its transport takes its packets, each of its tasks from
      the first key frame on puts exactly one message on the wire, in the order of the
      tasks, with its own header around the task's payload, however the tasks of other
      clients come in between. */
  lemma {:induction false} EveryPacketArrives(c: RtpConnection, s: Sender, infos: seq<Info>, taken: nat -> bool, n: nat)
    requires n <= |infos| && ConnInv(s.conn) && AllFlow(c, s.conn, infos)
    requires forall i :: 0 <= i < n && infos[i].conn == c ==> infos[i].media.Fits() && taken(i)
    ensures var r, own := OwnTasks(c, s, infos, taken, n), OwnInfos(c, infos[..n]);
            && ConnInv(r.conn) && SameIdentity(s.conn, r.conn) && AllFlow(c, r.conn, infos)
            && r.conn.has_key_frame == KeySeen(own, s.conn.has_key_frame)
            && Arrived(s.conn, s.wire, r.wire, Shown(own, s.conn.has_key_frame))
  {
    hide OwnMessage, ConnInv, AfterTask, HandedByTask, SameIdentity, OwnInfos, Flowing, KeySeen, Shown, Arrived;
    if n == 0 {
      IdentityIsReflexive(s.conn);
      NoInfos(c, s, infos);
    } else {
      EveryPacketArrives(c, s, infos, taken, n - 1);
      OwnInfosNext(c, infos, n);
      if infos[n - 1].conn == c {
        OwnTaskArrives(c, s, OwnTasks(c, s, infos, taken, n - 1), infos, OwnInfos(c, infos[..n - 1]), n - 1);
      }
    }
  }

  lemma OwnTaskArrives(c: RtpConnection, s: Sender, p: Sender, infos: seq<Info>, own: seq<Info>, n: nat)
    requires n < |infos| && infos[n].conn == c && infos[n].media.Fits()
    requires ConnInv(p.conn) && SameIdentity(s.conn, p.conn) && AllFlow(c, p.conn, infos)
    requires p.conn.has_key_frame == KeySeen(own, s.conn.has_key_frame)
    requires Arrived(s.conn, s.wire, p.wire, Shown(own, s.conn.has_key_frame))
    ensures var r := TaskStep(p, infos[n], true);
            && ConnInv(r.conn) && SameIdentity(s.conn, r.conn) && AllFlow(c, r.conn, infos)
            && r.conn.has_key_frame == KeySeen(own + [infos[n]], s.conn.has_key_frame)
            && Arrived(s.conn, s.wire, r.wire, Shown(own + [infos[n]], s.conn.has_key_frame))
  {
    hide OwnMessage, ConnInv, AfterTask, HandedByTask, SameIdentity, Flowing, KeySeen, Shown, Arrived, Media.IsKey;
    var t, seen := infos[n], s.conn.has_key_frame;
    var chn, m := t.chn, t.media;
    IdentityKeepsChannels(s.conn, p.conn);
    FlowIsChannel(p.conn, chn);
    TaskKeepsConn(p.conn, chn, m, true);
    TaskKeepsIdentity(s.conn, p.conn, chn, m, true);
    forall i | 0 <= i < |infos| && infos[i].conn == c
      ensures Flowing(AfterTask(p.conn, chn, m, true), infos[i].chn)
    {
      FlowGoesOn(p.conn, chn, m, infos[i].chn);
    }
    FlowGoesOn(p.conn, chn, m, chn);
    ShownNext(own, t, seen);
    if HandedByTask(p.conn, chn, m).Some? {
      HandedIsOwn(s.conn, p.conn, t);
      OneMore(s.conn, s.wire, p.wire, Shown(own, seen), HandedByTask(p.conn, chn, m).value, t);
    } else {
      assert Shown(own, seen) + [] == Shown(own, seen);
    }
  }

  lemma FlowIsChannel(c: Conn, chn: nat)
    requires Flowing(c, chn)
    ensures chn < |c.channels|
  {
  }

  lemma NoInfos(c: RtpConnection, s: Sender, infos: seq<Info>)
    ensures OwnInfos(c, infos[..0]) == []
    ensures KeySeen([], s.conn.has_key_frame) == s.conn.has_key_frame
    ensures Arrived(s.conn, s.wire, s.wire, Shown([], s.conn.has_key_frame))
  {
  }
}
