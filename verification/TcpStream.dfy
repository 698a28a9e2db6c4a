/** Interleaved frames and RTSP messages through one TCP connection: SendRtpOverTcp of
    rtsp-server/xop/RtpConnection.cpp and SendRtspMessage of
    rtsp-server/xop/RtspConnection.cpp on top of rtsp-server/net/TcpConnection.cpp. */
module TcpStream {
  import opened Bytes
  import opened Wrappers
  import opened Payload
  import opened RtpState
  import opened RtpPacket
  import opened RtpConnection
  import opened FanOut
  import opened BufferWriter
  import opened TcpConnection
  import opened RtspMessage

  /** What a client with TCP transport hands over is a list of frames, each with
      its own header and payload in it. */
  lemma ClientSendsFrames(c: RtpConnection, s: Sender, infos: seq<Info>, taken: nat -> bool)
    requires ConnInv(s.conn) && s.conn.transport.OverTcp?
    requires forall i :: 0 <= i < |infos| && infos[i].conn == c ==> infos[i].chn < |s.conn.channels| && infos[i].media.Fits()
    ensures var r := OwnTasks(c, s, infos, taken, |infos|);
            && |s.wire| <= |r.wire|
            && AreFrames(r.wire[|s.wire|..])
            && forall m :: m in r.wire[|s.wire|..] ==> FromOwnTask(c, s.conn, infos, m)
  {
    hide OwnTasks, OwnMessage, ConnInv;
    MessagesAreOwn(c, s, infos, taken, |infos|);
    assert infos[..|infos|] == infos;
    var r := OwnTasks(c, s, infos, taken, |infos|);
    forall k | |s.wire| <= k < |r.wire|
      ensures IsFrame(r.wire[k])
    {
      assert FromOwnTask(c, s.conn, infos, r.wire[k]);
      var i :| 0 <= i < |infos| && infos[i].conn == c && infos[i].chn < |s.conn.channels|
               && OwnMessage(r.wire[k], s.conn, infos[i]);
      OwnIsFrame(r.wire[k], s.conn, infos[i]);
    }
  }

  lemma OwnIsFrame(bytes: seq<Byte>, c: Conn, t: Info)
    requires t.chn < |c.channels| && c.transport.OverTcp? && OwnMessage(bytes, c, t)
    ensures IsFrame(bytes)
  {
  }

  /** The messages that were taken. */
  function Select(messages: seq<seq<Byte>>, taken: seq<bool>): seq<seq<Byte>>
    requires |taken| == |messages|
  {
    if messages == [] then []
    else
      var n := |messages| - 1;
      Select(messages[..n], taken[..n]) + if taken[n] then [messages[n]] else []
  }

  lemma {:induction false} SelectedAreMessages(messages: seq<seq<Byte>>, taken: seq<bool>)
    requires |taken| == |messages| && AreMessages(messages)
    ensures AreMessages(Select(messages, taken))
  {
    hide IsFrame, IsRtsp;
    if messages != [] {
      SelectedAreMessages(messages[..|messages| - 1], taken[..|messages| - 1]);
    }
  }

  lemma SelectNext(messages: seq<seq<Byte>>, taken: seq<bool>, m: seq<Byte>, b: bool)
    requires |taken| == |messages|
    ensures Select(messages + [m], taken + [b]) == Select(messages, taken) + if b then [m] else []
  {
    assert (messages + [m])[..|messages|] == messages && (taken + [b])[..|messages|] == taken;
  }

  lemma SelectSnoc(messages: seq<seq<Byte>>, taken: seq<bool>, m: seq<Byte>, b: bool)
    requires |taken| == |messages|
    ensures Concat(Select(messages + [m], taken + [b])) == Concat(Select(messages, taken)) + if b then m else []
  {
    hide Concat, Select;
    var front := Select(messages, taken);
    SelectNext(messages, taken, m, b);
    if b {
      ConcatSnoc(front, m);
    } else {
      assert front + [] == front;
      assert Concat(front) + [] == Concat(front);
    }
  }

  // ---------------------------------------------------------------------------
  // A connection's life
  // ---------------------------------------------------------------------------

  /** What happens to a connection: a frame or an RTSP message is sent, the socket
      becomes writable, or the peer hangs up. */
  datatype Op = Frame(bytes: seq<Byte>) | Reply(bytes: seq<Byte>) | Writable | HungUp {
    predicate Sends() {
      Frame? || Reply?
    }
  }

  function MessagesOf(ops: seq<Op>): seq<seq<Byte>> {
    if ops == [] then []
    else
      var last := ops[|ops| - 1];
      MessagesOf(ops[..|ops| - 1]) + if last.Sends() then [last.bytes] else []
  }

  lemma MessagesNext(ops: seq<Op>, i: nat)
    requires i < |ops|
    ensures var m := MessagesOf(ops[..i]);
            MessagesOf(ops[..i + 1]) == if ops[i].Sends() then m + [ops[i].bytes] else m
  {
    assert ops[..i + 1][..i] == ops[..i];
  }

  /** The bytes a peer has or will get: those on the wire and the pending ones. */
  ghost function ByteStream(conn: TcpConnection): seq<Byte>
    requires conn.Valid()
    reads conn, conn.write_buffer, conn.sock, set p | p in conn.write_buffer.buffer :: p.data
  {
    conn.sock.wire + conn.write_buffer.Pending()
  }

  /** The reply is printed into a buffer of its own, which the queue then shares. */
  method SendRtspMessage(conn: TcpConnection, text: seq<Byte>, locked: bool)
    requires conn.Valid()
    modifies conn, conn.write_buffer`buffer, conn.sock
    ensures conn.Valid() && (old(conn.is_closed) ==> conn.is_closed)
    ensures conn.accepted == old(conn.accepted) + if text != [] && old(HasRoom(conn)) then text else []
    ensures |conn.write_buffer.buffer| <= |old(conn.write_buffer.buffer)| + 1
    ensures fresh(conn.write_buffer.Arrays() - old(conn.write_buffer.Arrays()))
    ensures !old(conn.is_closed) && locked && conn.sock.Takes(|old(conn.write_buffer.Pending())| + |text|) ==> Flushed(conn)
  {
    var res := new Byte[|text| + 1];
    forall k | 0 <= k < |text| {
      res[k] := text[k];
    }
    assert res[..|text|] == text;
    conn.SendShared(res, |text|, locked);
  }

  /** Everything accepted is on the wire. */
  ghost predicate Flushed(conn: TcpConnection)
    reads conn, conn.write_buffer, conn.sock
  {
    !conn.is_closed && conn.write_buffer.buffer == [] && conn.sock.wire == conn.accepted
  }

  predicate HasRoom(tcp: TcpConnection)
    reads tcp, tcp.write_buffer
  {
    !tcp.is_closed && |tcp.write_buffer.buffer| < tcp.write_buffer.max_queue_length
  }

  /** Frames, RTSP messages, write events and a hang-up in any order, on a connection
      with any past. Whatever the socket takes, whenever the lock is busy, the queue is
      full or the connection closes, messages go whole or not at all: the stream grows
      by the messages taken, and a receiver that could cut the stream before cuts it
      into the same messages followed by exactly the taken ones, in order. While the
      connection is open and the queue could hold them all, all are taken. */
  method RunConnection(conn: TcpConnection, ops: seq<Op>, locked: nat -> bool) returns (ghost taken: seq<bool>)
    requires conn.Valid() && AreMessages(MessagesOf(ops))
    modifies conn, conn.write_buffer`buffer, conn.sock
    ensures conn.Valid() && |taken| == |MessagesOf(ops)|
    ensures ByteStream(conn) == old(ByteStream(conn)) + Concat(Select(MessagesOf(ops), taken))
    ensures Cut(ByteStream(conn)[|old(ByteStream(conn))|..]) == Some(Select(MessagesOf(ops), taken))
    ensures old(Cut(ByteStream(conn))).Some? ==>
              Cut(ByteStream(conn)) == Some(old(Cut(ByteStream(conn))).value + Select(MessagesOf(ops), taken))
    ensures !conn.is_closed && |old(conn.write_buffer.buffer)| + |ops| <= conn.write_buffer.max_queue_length ==>
              forall k :: 0 <= k < |taken| ==> taken[k]
    ensures old(Flushed(conn)) && Undisturbed(conn, ops, locked) ==>
              Flushed(conn) && conn.sock.wire == old(conn.sock.wire) + Concat(MessagesOf(ops))
  {
    hide Cut, Concat, Select, IsFrame, IsRtsp, AreMessages, MessagesOf, Socket.Takes;
    ghost var free := Flushed(conn) && Undisturbed(conn, ops, locked);
    taken := [];
    var i := 0;
    ghost var before, n := ByteStream(conn), |conn.write_buffer.buffer|;
    NothingSelected(ops);
    assert before + [] == before;
    while i < |ops|
      invariant 0 <= i <= |ops| && |taken| == |MessagesOf(ops[..i])|
      invariant conn.Valid() && conn.accepted == before + Concat(Select(MessagesOf(ops[..i]), taken))
      invariant |conn.write_buffer.buffer| <= n + i
      invariant free ==> Flushed(conn) && forall k :: 0 <= k < |taken| ==> taken[k]
      invariant !conn.is_closed && n + |ops| <= conn.write_buffer.max_queue_length ==>
                  forall k :: 0 <= k < |taken| ==> taken[k]
    {
      MessagesNext(ops, i);
      ghost var m := MessagesOf(ops[..i]);
      if ops[i].Sends() {
        ghost var takes := HasRoom(conn);
        MessageAt(ops, i);
        NothingPending(conn);
        SendOne(conn, ops[i], locked(i));
        SelectSnoc(m, taken, ops[i].bytes, takes);
        Regroup(before, Concat(Select(m, taken)), if takes then ops[i].bytes else []);
        taken := taken + [takes];
      } else if ops[i].Writable? {
        conn.HandleWrite(locked(i));
      } else {
        conn.HandleClose();
      }
      i := i + 1;
    }
    assert ops[..i] == ops;
    if free {
      SelectAll(MessagesOf(ops), taken);
    }
    SelectedAreMessages(MessagesOf(ops), taken);
    Grown(before, ByteStream(conn), Select(MessagesOf(ops), taken));
  }

  /** Over a socket that takes whatever it is offered, with the lock always free, room for
      a message and no hang-up. */
  ghost predicate Undisturbed(conn: TcpConnection, ops: seq<Op>, locked: nat -> bool) {
    && conn.write_buffer.max_queue_length > 0
    && (forall i :: 0 <= i < |ops| ==> !ops[i].HungUp? && locked(i))
    && (forall i :: 0 <= i < |ops| && ops[i].Sends() ==> conn.sock.Takes(|ops[i].bytes|))
    && conn.sock.Takes(0)
  }

  lemma NothingPending(conn: TcpConnection)
    requires conn.Valid()
    ensures Flushed(conn) ==> conn.write_buffer.Pending() == []
  {
  }

  method SendOne(conn: TcpConnection, op: Op, locked: bool)
    requires conn.Valid() && op.Sends() && op.bytes != []
    modifies conn, conn.write_buffer`buffer, conn.sock
    ensures conn.Valid() && (old(conn.is_closed) ==> conn.is_closed)
    ensures conn.accepted == old(conn.accepted) + if old(HasRoom(conn)) then op.bytes else []
    ensures |conn.write_buffer.buffer| <= |old(conn.write_buffer.buffer)| + 1
    ensures !old(conn.is_closed) && locked && conn.sock.Takes(|old(conn.write_buffer.Pending())| + |op.bytes|) ==>
              Flushed(conn)
  {
    if op.Frame? {
      conn.SendCopy(op.bytes, locked);
    } else {
      SendRtspMessage(conn, op.bytes, locked);
    }
  }

  /** A stream that grew by whole messages. */
  lemma Grown(before: seq<Byte>, after: seq<Byte>, messages: seq<seq<Byte>>)
    requires AreMessages(messages) && after == before + Concat(messages)
    ensures |before| <= |after| && Cut(after[|before|..]) == Some(messages)
    ensures Cut(before).Some? ==> Cut(after) == Some(Cut(before).value + messages)
  {
    hide AreMessages, Cut, Concat;
    CutMessages(messages);
    assert after[|before|..] == Concat(messages);
    if Cut(before).Some? {
      CutGoesOn(before, messages);
    }
  }

  lemma {:induction false} MessageAt(ops: seq<Op>, i: nat)
    requires AreMessages(MessagesOf(ops)) && i < |ops| && ops[i].Sends()
    ensures ops[i].bytes != []
    decreases |ops|
  {
    hide ReadHead, BodyLength, ReadBe16;
    var front := ops[..|ops| - 1];
    var m := MessagesOf(front);
    assert forall k :: 0 <= k < |m| ==> MessagesOf(ops)[k] == m[k];
    if i < |front| {
      MessageAt(front, i);
    } else {
      assert MessagesOf(ops)[|m|] == ops[i].bytes;
    }
  }

  lemma NothingSelected(ops: seq<Op>)
    ensures MessagesOf(ops[..0]) == [] && Concat(Select([], [])) == []
  {
  }

  lemma {:induction false} SelectAll(messages: seq<seq<Byte>>, taken: seq<bool>)
    requires |taken| == |messages| && forall k :: 0 <= k < |taken| ==> taken[k]
    ensures Select(messages, taken) == messages
  {
    if messages != [] {
      var n := |messages| - 1;
      SelectAll(messages[..n], taken[..n]);
      assert messages == messages[..n] + [messages[n]];
    }
  }

  // ---------------------------------------------------------------------------
  // Sequence numbers on the stream
  // ---------------------------------------------------------------------------

  function BytesOf(handed: seq<Handed>): (s: seq<seq<Byte>>)
    ensures |s| == |handed|
  {
    seq(|handed|, k requires 0 <= k < |handed| => handed[k].bytes)
  }

  lemma {:induction false} AcceptedIn(handed: seq<Handed>, j: nat)
    requires j < |Accepted(handed)|
    ensures Accepted(handed)[j] in handed
  {
    if j < |Accepted(handed[..|handed| - 1])| {
      AcceptedIn(handed[..|handed| - 1], j);
    }
  }

  // ---------------------------------------------------------------------------
  // One task over TCP
  // ---------------------------------------------------------------------------

  /** A client's task on top of its TCP connection. A number is used up and nothing
      accepted if and only if the channel sends and the connection is closed or its
      queue full. */
  method TaskOverTcp(rtp: RtpConnection, chn: nat, pkt: RtpPacket, tcp: TcpConnection, locked: bool)
    requires rtp.transport.OverTcp? && ConnInv(rtp.Model()) && chn < |rtp.channels|
    requires pkt.Valid() && HEAD <= pkt.size
    requires tcp.Valid() && pkt.data !in tcp.write_buffer.Arrays()
    modifies rtp, pkt.data, tcp, tcp.write_buffer`buffer, tcp.sock
    ensures tcp.Valid()
    ensures rtp.State() == AfterMedia(old(rtp.State()), chn, old(MediaOf(pkt)), old(HasRoom(tcp)))
    ensures var out := AcceptedByTask(old(rtp.Model()), chn, old(MediaOf(pkt)), old(HasRoom(tcp)));
            tcp.accepted == old(tcp.accepted) + if out.Some? then out.value else []
    ensures |rtp.channels| == |old(rtp.channels)|
    ensures fresh(tcp.write_buffer.Arrays() - old(tcp.write_buffer.Arrays()))
    ensures |tcp.write_buffer.buffer| <= |old(tcp.write_buffer.buffer)| + 1 && (old(tcp.is_closed) ==> tcp.is_closed)
    ensures rtp.channels[chn].packet_seq != old(rtp.channels[chn].packet_seq) && tcp.accepted == old(tcp.accepted)
            <==> Sends(old(rtp.Model()), chn, old(MediaOf(pkt))) && !old(HasRoom(tcp))
  {
    hide AfterTask, HandedByTask, MediaOf, ConnInv;
    ghost var c, m, room := rtp.Model(), MediaOf(pkt), HasRoom(tcp);
    ChannelOk(c, chn);
    UsedForNothing(c, chn, m, room);
    AnswerIgnored(c, chn, m, room);
    var before := |rtp.wire|;
    rtp.RunTask(chn, pkt, true);
    if |rtp.wire| > before {
      NotEmpty(c, chn, m);
      tcp.SendCopy(rtp.wire[before], locked);
    } else {
      assert tcp.accepted + [] == tcp.accepted;
    }
  }

  lemma ChannelOk(c: Conn, chn: nat)
    requires ConnInv(c) && chn < |c.channels|
    ensures |c.channels[chn].ssrc| == 4
  {
  }

  lemma AnswerIgnored(c: Conn, chn: nat, m: Media, taken: bool)
    requires c.transport.OverTcp? && chn < |c.channels|
    ensures AfterTask(c, chn, m, taken) == AfterTask(c, chn, m, true)
  {
  }

  lemma NotEmpty(c: Conn, chn: nat, m: Media)
    requires chn < |c.channels| && HandedByTask(c, chn, m).Some?
    ensures HandedByTask(c, chn, m).value != []
  {
  }

  // ---------------------------------------------------------------------------
  // A client's life on its TCP connection
  // ---------------------------------------------------------------------------

  /** What happens to a client: one of its tasks runs, its RTSP connection sends a
      message, its socket becomes writable, or its peer hangs up. */
  datatype Step = TaskRuns(chn: nat, pkt: RtpPacket) | Replies(text: seq<Byte>) | Drains | Leaves

  ghost predicate CanRun(step: Step, channels: nat)
    reads if step.TaskRuns? then {step.pkt} else {}
  {
    && (step.TaskRuns? ==>
          && step.chn < channels && step.pkt.Valid() && HEAD <= step.pkt.size && step.pkt.timestamp < 0x1_0000_0000)
    && (step.Replies? ==> IsRtsp(step.text))
  }

  /** Every message reads back with its number, and is a frame. */
  predicate AllReadBack(handed: seq<Handed>) {
    forall k :: 0 <= k < |handed| ==>
      && IsFrame(handed[k].bytes) && ReadWire(handed[k].bytes).Some?
      && ReadWire(handed[k].bytes).value.number == handed[k].number
  }

  lemma HandedReadsBack(c: Conn, chn: nat, m: Media, at: nat, taken: bool)
    requires ConnInv(c) && c.transport.OverTcp? && chn < |c.channels| && m.Fits() && HandedByTask(c, chn, m).Some?
    ensures AllReadBack([Handed(chn, c.channels[chn].packet_seq, at, HandedByTask(c, chn, m).value, taken)])
  {
    hide ReadRtp, FromNat, ToNat, Header;
    ReadBackInterleaved(c.channels[chn], m);
  }

  lemma AcceptedReadBack(handed: seq<Handed>)
    requires AllReadBack(handed)
    ensures AllReadBack(Accepted(handed)) && AreFrames(BytesOf(Accepted(handed)))
  {
    hide IsFrame, ReadWire;
    forall j | 0 <= j < |Accepted(handed)|
      ensures var h := Accepted(handed)[j];
              IsFrame(h.bytes) && ReadWire(h.bytes).Some? && ReadWire(h.bytes).value.number == h.number
    {
      AcceptedIn(handed, j);
    }
  }

  lemma TransportStays(c: Conn, chn: nat, m: Media, taken: bool)
    requires chn < |c.channels|
    ensures AfterTask(c, chn, m, taken).transport == c.transport
  {
  }

  lemma ReadBackConcat(a: seq<Handed>, b: seq<Handed>)
    requires AllReadBack(a) && AllReadBack(b)
    ensures AllReadBack(a + b)
  {
    hide IsFrame, ReadWire;
  }

  /** At most one message of a task, and what the transport accepts of it. */
  lemma OneAccepted(h: seq<Handed>, room: bool)
    requires |h| <= 1 && AllReadBack(h) && forall k :: 0 <= k < |h| ==> h[k].taken == room
    ensures var out := BytesOf(Accepted(h));
            && out == (if room then BytesOf(h) else [])
            && Concat(out) == (if room && h != [] then h[0].bytes else [])
            && AreFrames(out)
  {
    hide IsFrame, ReadWire;
    AcceptedReadBack(h);
    if h != [] {
      assert h[..0] == [];
      assert Concat([h[0].bytes]) == h[0].bytes;
    }
  }

  method RunOneTask(rtp: RtpConnection, chn: nat, pkt: RtpPacket, tcp: TcpConnection, locked: bool,
                    ghost handed: seq<Handed>, ghost starts: seq<nat>, ghost at: nat)
    returns (ghost h: seq<Handed>)
    requires rtp.transport.OverTcp? && ConnInv(rtp.Model()) && CanRun(TaskRuns(chn, pkt), |rtp.channels|)
    requires tcp.Valid() && pkt.data !in tcp.write_buffer.Arrays()
    requires InSequence(rtp.Model(), handed, starts)
    modifies rtp, pkt.data, tcp, tcp.write_buffer`buffer, tcp.sock
    ensures rtp.transport.OverTcp? && ConnInv(rtp.Model()) && |rtp.channels| == |old(rtp.channels)|
    ensures tcp.Valid() && fresh(tcp.write_buffer.Arrays() - old(tcp.write_buffer.Arrays()))
    ensures InSequence(rtp.Model(), handed + h, starts) && AllReadBack(h) && |h| <= 1
    ensures tcp.accepted == old(tcp.accepted) + if old(HasRoom(tcp)) && h != [] then h[0].bytes else []
    ensures rtp.wire == old(rtp.wire) + BytesOf(h)
    ensures forall k :: 0 <= k < |h| ==> h[k].taken == old(HasRoom(tcp)) && h[k].chn == chn && h[k].at == at
    ensures |tcp.write_buffer.buffer| <= |old(tcp.write_buffer.buffer)| + 1 && (old(tcp.is_closed) ==> tcp.is_closed)
  {
    hide AfterTask, HandedByTask, ConnInv, InSequence, AllReadBack, BytesOf, MediaOf, HasRoom;
    ghost var c, m, taken := rtp.Model(), MediaOf(pkt), HasRoom(tcp);
    ghost var out := HandedByTask(c, chn, m);
    h := if out.Some? then [Handed(chn, c.channels[chn].packet_seq, at, out.value, taken)] else [];
    PacketFits(pkt);
    TaskKeepsConn(c, chn, m, taken);
    TransportStays(c, chn, m, taken);
    TaskKeepsSequence(c, handed, starts, chn, m, taken, at);
    if out.Some? {
      HandedReadsBack(c, chn, m, at, taken);
    } else {
      NothingReadsBack();
      assert handed + h == handed;
    }
    TaskOverTcp(rtp, chn, pkt, tcp, locked);
    assert old(tcp.accepted) + [] == old(tcp.accepted);
    OneBytes(h);
    assert rtp.wire == old(rtp.wire) + BytesOf(h);
  }

  lemma NothingReadsBack()
    ensures AllReadBack([])
  {
  }

  lemma OneBytes(h: seq<Handed>)
    requires |h| <= 1
    ensures BytesOf(h) == if h == [] then [] else [h[0].bytes]
  {
  }

  lemma BytesConcat(a: seq<Handed>, b: seq<Handed>)
    ensures BytesOf(a + b) == BytesOf(a) + BytesOf(b)
  {
  }

  lemma PacketFits(pkt: RtpPacket)
    requires pkt.Valid() && HEAD <= pkt.size && pkt.timestamp < 0x1_0000_0000
    ensures MediaOf(pkt).Fits()
  {
  }

  /** The messages and packets of a run. */
  datatype Log = Log(handed: seq<Handed>, messages: seq<seq<Byte>>)

  /** The messages accepted are frames and RTSP messages, and the frames are the packets
      taken. */
  ghost predicate LogOk(log: Log) {
    && AllReadBack(log.handed) && AreMessages(log.messages)
    && Among(true, log.messages) == BytesOf(Accepted(log.handed))
  }

  function Append(log: Log, h: seq<Handed>, more: seq<seq<Byte>>): Log {
    Log(log.handed + h, log.messages + more)
  }

  lemma AppendOk(log: Log, h: seq<Handed>, more: seq<seq<Byte>>)
    requires LogOk(log) && AllReadBack(h) && AreMessages(more) && Among(true, more) == BytesOf(Accepted(h))
    ensures LogOk(Append(log, h, more))
  {
    hide AllReadBack, Accepted, BytesOf, IsFrame, IsRtsp, Among;
    ReadBackConcat(log.handed, h);
    AmongConcat(true, log.messages, more);
    AcceptedConcat(log.handed, h);
    BytesConcat(Accepted(log.handed), Accepted(h));
  }

  lemma {:induction false} AcceptedConcat(a: seq<Handed>, b: seq<Handed>)
    ensures Accepted(a + b) == Accepted(a) + Accepted(b)
  {
    if b == [] {
      assert a + b == a;
    } else {
      var n := |b| - 1;
      assert (a + b)[..|a| + n] == a + b[..n];
      AcceptedConcat(a, b[..n]);
      Regroup(Accepted(a), Accepted(b[..n]), if b[n].taken then [b[n]] else []);
    }
  }

  /** What every step of a client over TCP keeps: the stream grew by the messages
      accepted so far. */
  ghost predicate Linked(rtp: RtpConnection, tcp: TcpConnection, before: seq<Byte>, log: Log, starts: seq<nat>)
    reads rtp, tcp, tcp.write_buffer, tcp.sock, set p | p in tcp.write_buffer.buffer :: p.data
  {
    && rtp.transport.OverTcp? && ConnInv(rtp.Model()) && |rtp.channels| == |starts|
    && tcp.Valid() && tcp.accepted == before + Concat(log.messages)
    && InSequence(rtp.Model(), log.handed, starts) && LogOk(log)
  }

  /** What a step's own messages are. */
  ghost predicate OfStep(step: Step, h: seq<Handed>, more: seq<seq<Byte>>, room: bool) {
    && (forall k :: 0 <= k < |h| ==> h[k].taken == room)
    && Among(false, more) == (if step.Replies? && room then [step.text] else [])
  }

  method RunStep(rtp: RtpConnection, tcp: TcpConnection, step: Step, locked: bool,
                 ghost before: seq<Byte>, ghost log: Log, ghost starts: seq<nat>, ghost at: nat)
    returns (ghost h: seq<Handed>, ghost more: seq<seq<Byte>>)
    requires Linked(rtp, tcp, before, log, starts) && CanRun(step, |starts|)
    requires step.TaskRuns? ==> step.pkt.data !in tcp.write_buffer.Arrays()
    modifies rtp, tcp, tcp.write_buffer`buffer, tcp.sock, if step.TaskRuns? then {step.pkt.data} else {}
    ensures Linked(rtp, tcp, before, Append(log, h, more), starts) && OfStep(step, h, more, old(HasRoom(tcp)))
    ensures fresh(tcp.write_buffer.Arrays() - old(tcp.write_buffer.Arrays()))
    ensures rtp.wire == old(rtp.wire) + BytesOf(h)
    ensures |tcp.write_buffer.buffer| <= |old(tcp.write_buffer.buffer)| + 1 && (old(tcp.is_closed) ==> tcp.is_closed)
  {
    hide Concat, Accepted, BytesOf, AllReadBack, ConnInv, InSequence, HasRoom, LogOk, Among, IsFrame, IsRtsp, AreMessages;
    ghost var room := HasRoom(tcp);
    h, more := [], [];
    match step {
      case TaskRuns(chn, pkt) =>
        h := RunOneTask(rtp, chn, pkt, tcp, locked, log.handed, starts, at);
        more := BytesOf(Accepted(h));
        TaskMessages(h, room);
      case Replies(text) =>
        if room {
          more := [text];
        }
        ReplyMessages(text, room);
        SendRtspMessage(tcp, text, locked);
      case Drains => tcp.HandleWrite(locked);
      case Leaves => tcp.HandleClose();
    }
    NothingHanded();
    if !step.TaskRuns? {
      assert log.handed + h == log.handed && rtp.wire + [] == rtp.wire;
    }
    AppendOk(log, h, more);
    ConcatConcat(log.messages, more);
    Regroup(before, Concat(log.messages), Concat(more));
  }

  lemma TaskMessages(h: seq<Handed>, room: bool)
    requires |h| <= 1 && AllReadBack(h) && forall k :: 0 <= k < |h| ==> h[k].taken == room
    ensures var more := BytesOf(Accepted(h));
            && AreMessages(more) && Among(true, more) == more && Among(false, more) == []
            && Concat(more) == if room && h != [] then h[0].bytes else []
  {
    hide AllReadBack, Accepted, BytesOf, IsFrame, IsRtsp, Among, Concat;
    OneAccepted(h, room);
    AmongFrames(BytesOf(Accepted(h)));
  }

  lemma ReplyMessages(text: seq<Byte>, room: bool)
    requires IsRtsp(text)
    ensures var more := if room then [text] else [];
            && text != [] && AreMessages(more) && Among(true, more) == [] && Among(false, more) == more
            && Concat(more) == if room then text else []
  {
    hide IsFrame, IsRtsp, Among;
    RtspIsNoFrame(text);
    NothingHanded();
    assert text != [] by { NotEmptyRtsp(text); }
    assert [text][1..] == [] && text + [] == text;
  }

  lemma NotEmptyRtsp(text: seq<Byte>)
    requires IsRtsp(text)
    ensures text != []
  {
  }

  lemma NothingHanded()
    ensures AllReadBack([]) && BytesOf(Accepted([])) == [] && BytesOf([]) == []
    ensures AreMessages([]) && Among(true, []) == Among(false, []) == [] && Concat([]) == []
  {
  }

  function RepliesOf(steps: seq<Step>): seq<seq<Byte>> {
    if steps == [] then []
    else
      var last := steps[|steps| - 1];
      RepliesOf(steps[..|steps| - 1]) + if last.Replies? then [last.text] else []
  }

  /** The RTSP messages taken are those of the steps whose answer was yes. */
  ghost predicate Answers(log: Log, steps: seq<Step>, answered: seq<bool>) {
    |answered| == |RepliesOf(steps)| && Among(false, log.messages) == Select(RepliesOf(steps), answered)
  }

  lemma AnswersNext(log: Log, steps: seq<Step>, i: nat, answered: seq<bool>,
                    h: seq<Handed>, more: seq<seq<Byte>>, room: bool)
    requires i < |steps| && Answers(log, steps[..i], answered) && OfStep(steps[i], h, more, room)
    ensures Answers(Append(log, h, more), steps[..i + 1], if steps[i].Replies? then answered + [room] else answered)
  {
    hide Among, Select;
    assert steps[..i + 1][..i] == steps[..i];
    AmongConcat(false, log.messages, more);
    var before := Among(false, log.messages);
    if steps[i].Replies? {
      SelectNext(RepliesOf(steps[..i]), answered, steps[i].text, room);
    } else {
      assert before + [] == before && RepliesOf(steps[..i]) + [] == RepliesOf(steps[..i]);
    }
  }

  /** A client over TCP, whatever its connection carried before, whatever its packets and
      replies, the socket, the lock and the peer do from there on. On each channel the
      packets handed over carry start, start + 1, ... modulo 65536. The stream grows by
      whole messages: a peer that cuts it gets, behind what it had, frames that are
      exactly the accepted packets, which read back their numbers, and between them the
      accepted replies. With `RtpState.AcceptedAt` it sees a gap exactly at each refused
      packet. Nothing is refused while the connection is open and its queue could hold
      everything. */
  method RunClient(rtp: RtpConnection, tcp: TcpConnection, steps: seq<Step>, locked: nat -> bool)
    returns (ghost log: Log, ghost answered: seq<bool>)
    requires rtp.transport.OverTcp? && ConnInv(rtp.Model()) && tcp.Valid()
    requires forall i :: 0 <= i < |steps| ==> CanRun(steps[i], |rtp.channels|)
    requires forall i :: 0 <= i < |steps| && steps[i].TaskRuns? ==> steps[i].pkt.data !in tcp.write_buffer.Arrays()
    modifies rtp, tcp, tcp.write_buffer`buffer, tcp.sock
    modifies set step | step in steps && step.TaskRuns? :: step.pkt.data
    ensures tcp.Valid() && |rtp.channels| == |old(rtp.channels)|
    ensures forall i :: 0 <= i < |rtp.channels| ==>
              Continues(OnChannel(log.handed, i), old(rtp.channels)[i].packet_seq)
    ensures AllReadBack(log.handed) && rtp.wire == old(rtp.wire) + BytesOf(log.handed)
    ensures ByteStream(tcp) == old(ByteStream(tcp)) + Concat(log.messages)
    ensures Cut(ByteStream(tcp)[|old(ByteStream(tcp))|..]) == Some(log.messages)
    ensures old(Cut(ByteStream(tcp))).Some? ==> Cut(ByteStream(tcp)) == Some(old(Cut(ByteStream(tcp))).value + log.messages)
    ensures Among(true, log.messages) == BytesOf(Accepted(log.handed)) && Answers(log, steps, answered)
    ensures !tcp.is_closed && |old(tcp.write_buffer.buffer)| + |steps| <= tcp.write_buffer.max_queue_length ==>
              && (forall k :: 0 <= k < |log.handed| ==> log.handed[k].taken)
              && (forall k :: 0 <= k < |answered| ==> answered[k])
  {
    hide Cut, Concat, Accepted, BytesOf, Linked, CanRun, Answers, Among;
    log, answered := Log([], []), [];
    ghost var starts, before, n := FirstNumbers(rtp.Model()), ByteStream(tcp), |tcp.write_buffer.buffer|;
    StartsLinked(rtp, tcp, steps);
    OneBytes([]);
    var i := 0;
    while i < |steps|
      invariant 0 <= i <= |steps| && Linked(rtp, tcp, before, log, starts)
      invariant forall k :: 0 <= k < |steps| ==> CanRun(steps[k], |starts|)
      invariant fresh(tcp.write_buffer.Arrays() - old(tcp.write_buffer.Arrays())) && |tcp.write_buffer.buffer| <= n + i
      invariant rtp.wire == old(rtp.wire) + BytesOf(log.handed)
      invariant Answers(log, steps[..i], answered)
      invariant !tcp.is_closed && n + |steps| <= tcp.write_buffer.max_queue_length ==>
                  && (forall k :: 0 <= k < |log.handed| ==> log.handed[k].taken)
                  && (forall k :: 0 <= k < |answered| ==> answered[k])
    {
      ghost var room := HasRoom(tcp);
      ghost var h, more := RunStep(rtp, tcp, steps[i], locked(i), before, log, starts, i);
      BytesConcat(log.handed, h);
      Regroup(old(rtp.wire), BytesOf(log.handed), BytesOf(h));
      AnswersNext(log, steps, i, answered, h, more, room);
      answered := if steps[i].Replies? then answered + [room] else answered;
      log := Append(log, h, more);
      i := i + 1;
    }
    assert steps[..i] == steps;
    LinkedSays(rtp, tcp, before, log, starts);
  }

  lemma StartsLinked(rtp: RtpConnection, tcp: TcpConnection, steps: seq<Step>)
    requires rtp.transport.OverTcp? && ConnInv(rtp.Model()) && tcp.Valid()
    ensures Linked(rtp, tcp, ByteStream(tcp), Log([], []), FirstNumbers(rtp.Model())) && Answers(Log([], []), steps[..0], [])
  {
    hide ConnInv, InSequence;
    NothingRun(rtp.Model());
    assert ByteStream(tcp) + [] == ByteStream(tcp);
  }

  lemma NothingRun(c: Conn)
    requires ConnInv(c)
    ensures InSequence(c, [], FirstNumbers(c)) && Concat([]) == []
  {
  }

  lemma LinkedSays(rtp: RtpConnection, tcp: TcpConnection, before: seq<Byte>, log: Log, starts: seq<nat>)
    requires Linked(rtp, tcp, before, log, starts)
    ensures tcp.Valid() && |rtp.channels| == |starts| && AllReadBack(log.handed)
    ensures forall i :: 0 <= i < |starts| ==> Continues(OnChannel(log.handed, i), starts[i])
    ensures var after := ByteStream(tcp);
            && after == before + Concat(log.messages) && Cut(after[|before|..]) == Some(log.messages)
            && (Cut(before).Some? ==> Cut(after) == Some(Cut(before).value + log.messages))
    ensures Among(true, log.messages) == BytesOf(Accepted(log.handed))
  {
    hide AllReadBack, Cut, Accepted, Concat, ConnInv, OnChannel, Continues, Among, AreMessages;
    Grown(before, ByteStream(tcp), log.messages);
  }
}
