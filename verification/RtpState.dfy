/** The per-client sender of rtsp-server/xop/RtpConnection.cpp as a state machine:
    set-up, play, record, teardown, queued packets and their tasks. */
module RtpState {
  import opened Bytes
  import opened Wrappers
  import opened Payload

  const SEQ_MOD := 0x1_0000

  datatype Transport = NoTransport | OverTcp | OverUdp | OverMulticast

  datatype Channel = Channel(
    rtp_channel: Byte,
    payload_type: nat,
    ssrc: seq<Byte>,
    packet_seq: nat,
    is_setup: bool,
    is_play: bool,
    is_record: bool)
  {
    predicate Active() {
      is_play || is_record
    }
  }

  /** `attached` tells an RTSP client's connection from the one a session makes
      for its multicast group, which has no RTSP connection behind it. */
  datatype Conn = Conn(
    attached: bool,
    channels: seq<Channel>,
    transport: Transport,
    is_closed: bool,
    has_key_frame: bool)

  /** One packet as the task of a client sees it. */
  datatype Media = Media(payload: seq<Byte>, last: bool, timestamp: nat, kind: FrameType) {
    predicate IsKey() {
      kind == FrameType.None || kind == VideoFrameIdr
    }

    /** Fits the integer fields of a packet. */
    predicate Fits() {
      timestamp < 0x1_0000_0000 && |payload| + 16 < 0x1_0000
    }
  }

  // ---------------------------------------------------------------------------
  // What goes on the wire
  // ---------------------------------------------------------------------------

  /** The twelve header bytes: version 2, no padding, extension or sources. */
  function Header(ch: Channel, m: Media): (s: seq<Byte>)
    ensures |s| == 8 + |ch.ssrc|
  {
    [0x80, FromNat(ch.payload_type + (if m.last then 128 else 0))]
    + Be16(ch.packet_seq) + Be32(m.timestamp) + ch.ssrc
  }

  /** The RTP packet behind the framing of section 10.12 of RFC 2326. */
  function Interleaved(ch: Channel, m: Media): seq<Byte> {
    [0x24, ch.rtp_channel] + Be16(|Header(ch, m)| + |m.payload|) + Header(ch, m) + m.payload
  }

  /** What a receiver reads from an RTP packet: section 5.1 of RFC 3550. */
  datatype Rtp = Rtp(marker: bool, payload_type: nat, number: nat, timestamp: nat, ssrc: seq<Byte>, payload: seq<Byte>)

  function ReadRtp(p: seq<Byte>): Option<Rtp> {
    if |p| < 12 || p[0] != 0x80 then Option.None
    else
      Some(Rtp(ToNat(p[1]) >= 128, ToNat(p[1]) % 128, ReadBe16(p[2], p[3]),
               ReadBe32(p[4], p[5], p[6], p[7]), p[8..12], p[12..]))
  }

  /** What a receiver reads from an interleaved frame, with its channel number. */
  function ReadInterleaved(p: seq<Byte>): Option<(Byte, Rtp)> {
    if |p| < 4 || p[0] != 0x24 || |p| != 4 + ReadBe16(p[2], p[3]) then Option.None
    else
      match ReadRtp(p[4..])
      case None => Option.None
      case Some(rtp) => Some((p[1], rtp))
  }

  /** The RTP packet in a message handed to the transport, framed or not. */
  function ReadWire(p: seq<Byte>): Option<Rtp> {
    if p != [] && p[0] == 0x24 then
      match ReadInterleaved(p)
      case None => Option.None
      case Some((_, rtp)) => Some(rtp)
    else ReadRtp(p)
  }

  predicate ChannelFits(ch: Channel) {
    ch.packet_seq < SEQ_MOD && |ch.ssrc| == 4 && ch.payload_type < 128
  }

  function Fields(ch: Channel, m: Media): Rtp {
    Rtp(m.last, ch.payload_type, ch.packet_seq, m.timestamp, ch.ssrc, m.payload)
  }

  lemma ReadBack(ch: Channel, m: Media)
    requires ChannelFits(ch) && m.Fits()
    ensures ReadRtp(Header(ch, m) + m.payload) == Some(Fields(ch, m))
  {
    hide FromNat, ToNat, ReadBe16, ReadBe32, Be32;
    var p := Header(ch, m) + m.payload;
    assert p[4..8] == Be32(m.timestamp);
    FromNatToNat(ch.payload_type + if m.last then 128 else 0);
    Be16RoundTrip(ch.packet_seq);
    Be32RoundTrip(m.timestamp);
    assert p[8..12] == ch.ssrc && p[12..] == m.payload;
  }

  lemma ReadBackInterleaved(ch: Channel, m: Media)
    requires ChannelFits(ch) && m.Fits()
    ensures ReadInterleaved(Interleaved(ch, m)) == Some((ch.rtp_channel, Fields(ch, m)))
  {
    hide FromNat, ToNat, ReadRtp;
    var p := Interleaved(ch, m);
    Be16RoundTrip(|Header(ch, m)| + |m.payload|);
    assert p[4..] == Header(ch, m) + m.payload;
    ReadBack(ch, m);
  }

  // ---------------------------------------------------------------------------
  // Steps
  // ---------------------------------------------------------------------------

  function SetUp(c: Conn, chn: nat, transport: Transport): Conn
    requires chn < |c.channels|
  {
    c.(channels := c.channels[chn := c.channels[chn].(is_setup := true)], transport := transport)
  }

  /** Set-up over TCP and UDP needs the RTSP connection. */
  function SetUpTcp(c: Conn, chn: nat, rtp_channel: Byte): Conn
    requires chn < |c.channels|
  {
    if !c.attached then c
    else SetUp(c.(channels := c.channels[chn := c.channels[chn].(rtp_channel := rtp_channel)]), chn, OverTcp)
  }

  function SetUpUdp(c: Conn, chn: nat, bound: bool): Conn
    requires chn < |c.channels|
  {
    if c.attached && bound then SetUp(c, chn, OverUdp) else c
  }

  function SetUpMulticast(c: Conn, chn: nat, bound: bool): Conn
    requires chn < |c.channels|
  {
    if bound then SetUp(c, chn, OverMulticast) else c
  }

  function Played(c: Conn, record: bool): Conn {
    c.(channels := seq(|c.channels|, i requires 0 <= i < |c.channels| =>
      if c.channels[i].is_setup
      then c.channels[i].(is_play := true, is_record := c.channels[i].is_record || record)
      else c.channels[i]))
  }

  function TornDown(c: Conn): Conn {
    if c.is_closed || c.transport.OverMulticast? then c
    else c.(is_closed := true, channels := seq(|c.channels|, i requires 0 <= i < |c.channels| =>
      c.channels[i].(is_play := false, is_record := false)))
  }

  function SawFrame(c: Conn, m: Media): Conn {
    c.(has_key_frame := c.has_key_frame || m.IsKey())
  }

  function NumberUsed(c: Conn, chn: nat): Conn
    requires chn < |c.channels|
  {
    c.(channels := c.channels[chn := c.channels[chn].(packet_seq := (c.channels[chn].packet_seq + 1) % SEQ_MOD)])
  }

  predicate Sends(c: Conn, chn: nat, m: Media)
    requires chn < |c.channels|
  {
    c.channels[chn].Active() && SawFrame(c, m).has_key_frame
  }

  /** The connection after the task of one packet; `taken` is the transport's
      answer: whether `sendto` takes the datagram, or whether the TCP connection is
      open and its queue has room. Over TCP nobody looks at the answer. */
  function AfterTask(c: Conn, chn: nat, m: Media, taken: bool): Conn
    requires chn < |c.channels|
  {
    var seen := SawFrame(c, m);
    if !Sends(c, chn, m) then seen
    else if (c.transport.OverUdp? || c.transport.OverMulticast?) && !taken then TornDown(NumberUsed(seen, chn))
    else NumberUsed(seen, chn)
  }

  /** What the task hands to the transport, if anything. */
  function HandedByTask(c: Conn, chn: nat, m: Media): Option<seq<Byte>>
    requires chn < |c.channels|
  {
    if !Sends(c, chn, m) then Option.None
    else
      match c.transport
      case OverTcp => if c.attached then Some(Interleaved(c.channels[chn], m)) else Option.None
      case NoTransport => Option.None
      case _ => Some(Header(c.channels[chn], m) + m.payload)
  }

  /** What the transport accepts of it. */
  function AcceptedByTask(c: Conn, chn: nat, m: Media, taken: bool): Option<seq<Byte>>
    requires chn < |c.channels|
  {
    if taken then HandedByTask(c, chn, m) else Option.None
  }

  // ---------------------------------------------------------------------------
  // Runs
  // ---------------------------------------------------------------------------

  datatype Task = Task(chn: nat, media: Media)

  /** A packet handed to the transport: its channel, its sequence number, the
      position of its task among the processed ones and the transport's answer. */
  datatype Handed = Handed(chn: nat, number: nat, at: nat, bytes: seq<Byte>, taken: bool)

  datatype Machine = Machine(
    conn: Conn,
    queue: seq<Task>,
    processed: seq<Task>,
    handed: seq<Handed>)

  datatype Event =
    | SetupTcp(chn: nat, rtp_channel: Byte)
    | SetupUdp(chn: nat, bound: bool)
    | SetupMulticast(chn: nat, bound: bool)
    | Play
    | Record
    | Teardown
    | Submit(task: Task, room: bool) // SendRtpPacket; `room` is the scheduler's answer
    | RunTask(taken: bool)

  /** Multicast set-up is called on the session's own connections only. */
  predicate Enabled(s: Machine, e: Event) {
    match e
    case SetupTcp(chn, _) => chn < |s.conn.channels|
    case SetupUdp(chn, _) => chn < |s.conn.channels|
    case SetupMulticast(chn, _) => chn < |s.conn.channels| && !s.conn.attached
    case Submit(task, _) => task.chn < |s.conn.channels| && task.media.Fits()
    case RunTask(_) => s.queue != [] && s.queue[0].chn < |s.conn.channels|
    case _ => true
  }

  function Apply(s: Machine, e: Event): Machine
    requires Enabled(s, e)
  {
    var c := s.conn;
    match e
    case SetupTcp(chn, rtp_channel) => s.(conn := SetUpTcp(c, chn, rtp_channel))
    case SetupUdp(chn, bound) => s.(conn := SetUpUdp(c, chn, bound))
    case SetupMulticast(chn, bound) => s.(conn := SetUpMulticast(c, chn, bound))
    case Play => s.(conn := Played(c, false))
    case Record => s.(conn := Played(c, true))
    case Teardown => s.(conn := TornDown(c))
    case Submit(task, room) => if c.is_closed || !room then s else s.(queue := s.queue + [task])
    case RunTask(taken) => AfterRunTask(s, taken)
  }

  function AfterRunTask(s: Machine, taken: bool): Machine
    requires s.queue != [] && s.queue[0].chn < |s.conn.channels|
  {
    var Task(chn, m) := s.queue[0];
    var out := HandedByTask(s.conn, chn, m);
    Machine(
      AfterTask(s.conn, chn, m, taken),
      s.queue[1..],
      s.processed + [s.queue[0]],
      if out.None? then s.handed
      else s.handed + [Handed(chn, s.conn.channels[chn].packet_seq, |s.processed|, out.value, taken)])
  }

  predicate Init(s: Machine) {
    && s.queue == [] && s.processed == [] && s.handed == []
    && s.conn.transport.NoTransport?
    && !s.conn.is_closed && !s.conn.has_key_frame
    && (forall i :: 0 <= i < |s.conn.channels| ==>
          var ch := s.conn.channels[i];
          !ch.is_setup && !ch.is_play && !ch.is_record && ChannelFits(ch))
  }

  ghost predicate Run(states: seq<Machine>, events: seq<Event>) {
    && |states| == |events| + 1 && Init(states[0])
    && (forall i :: 0 <= i < |events| ==> Enabled(states[i], events[i]) && states[i + 1] == Apply(states[i], events[i]))
  }

  // ---------------------------------------------------------------------------
  // Invariant
  // ---------------------------------------------------------------------------

  /** The packets handed over on one channel, in order. */
  function OnChannel(handed: seq<Handed>, chn: nat): seq<Handed> {
    if handed == [] then []
    else
      var last := handed[|handed| - 1];
      OnChannel(handed[..|handed| - 1], chn) + if last.chn == chn then [last] else []
  }

  /** start, start + 1, ... modulo 65536. */
  predicate Continues(handed: seq<Handed>, start: nat) {
    forall k :: 0 <= k < |handed| ==> handed[k].number == (start + k) % SEQ_MOD
  }

  ghost predicate ConnInv(c: Conn) {
    && (c.attached ==> !c.transport.OverMulticast?)
    && (!c.attached ==> c.transport.NoTransport? || c.transport.OverMulticast?)
    && (forall i :: 0 <= i < |c.channels| ==>
          var ch := c.channels[i];
          && (ch.Active() ==> ch.is_setup) && (ch.is_record ==> ch.is_play)
          && (ch.is_setup ==> !c.transport.NoTransport?)
          && ChannelFits(ch))
  }

  /** On each channel the packets handed over continue its first number, and the
      channel holds the number that comes next. */
  ghost predicate InSequence(c: Conn, handed: seq<Handed>, starts: seq<nat>) {
    && |starts| == |c.channels|
    && (forall i :: 0 <= i < |starts| ==>
          && Continues(OnChannel(handed, i), starts[i])
          && c.channels[i].packet_seq == (starts[i] + |OnChannel(handed, i)|) % SEQ_MOD)
  }

  ghost predicate NumbersInv(s: Machine, starts: seq<nat>) {
    InSequence(s.conn, s.handed, starts)
  }

  /** Some processed task up to position `at` carried a key frame or no frame. */
  ghost predicate KeySeenBy(processed: seq<Task>, at: nat) {
    exists j :: 0 <= j <= at && j < |processed| && processed[j].media.IsKey()
  }

  /** The message carries the packet of the task: its payload, time stamp and
      marker, behind a header with the recorded number. */
  predicate Carries(h: Handed, t: Task) {
    && h.chn == t.chn
    && match ReadWire(h.bytes)
       case None => false
       case Some(rtp) =>
         rtp.number == h.number && rtp.payload == t.media.payload
         && rtp.timestamp == t.media.timestamp && rtp.marker == t.media.last
  }

  ghost predicate HandedInv(s: Machine) {
    && (s.conn.has_key_frame <==> exists j :: 0 <= j < |s.processed| && s.processed[j].media.IsKey())
    && (forall h :: h in s.handed ==>
          h.at < |s.processed| && KeySeenBy(s.processed, h.at) && Carries(h, s.processed[h.at]))
    && (forall i :: 0 <= i < |s.queue| ==> s.queue[i].media.Fits())
  }

  function FirstNumbers(c: Conn): (starts: seq<nat>)
    ensures |starts| == |c.channels|
  {
    seq(|c.channels|, i requires 0 <= i < |c.channels| => c.channels[i].packet_seq)
  }

  function Starts(s: Machine): seq<nat> {
    FirstNumbers(s.conn)
  }

  // ---------------------------------------------------------------------------
  // Every step keeps the invariants
  // ---------------------------------------------------------------------------

  lemma StepKeepsConn(s: Machine, e: Event)
    requires ConnInv(s.conn) && Enabled(s, e)
    ensures ConnInv(Apply(s, e).conn) && |Apply(s, e).conn.channels| == |s.conn.channels|
  {
    if e.RunTask? {
      hide HandedByTask;
      TaskKeepsConn(s.conn, s.queue[0].chn, s.queue[0].media, e.taken);
    }
  }

  lemma TaskKeepsConn(c: Conn, chn: nat, m: Media, taken: bool)
    requires ConnInv(c) && chn < |c.channels|
    ensures ConnInv(AfterTask(c, chn, m, taken)) && |AfterTask(c, chn, m, taken).channels| == |c.channels|
  {
  }

  lemma OnChannelSnoc(handed: seq<Handed>, h: Handed, chn: nat)
    ensures OnChannel(handed + [h], chn) == OnChannel(handed, chn) + if h.chn == chn then [h] else []
  {
    assert (handed + [h])[..|handed|] == handed;
  }

  lemma StepKeepsNumbers(s: Machine, e: Event, starts: seq<nat>)
    requires ConnInv(s.conn) && NumbersInv(s, starts) && Enabled(s, e)
    ensures NumbersInv(Apply(s, e), starts)
  {
    if e.RunTask? {
      TaskKeepsNumbers(s, e.taken, starts);
    }
  }

  /** The number of channel i after a task: it moves on exactly when the packet of
      this channel is handed over. */
  lemma NumberAfterTask(c: Conn, chn: nat, m: Media, taken: bool, i: nat)
    requires ConnInv(c) && chn < |c.channels| && i < |c.channels|
    ensures var t, out := AfterTask(c, chn, m, taken), HandedByTask(c, chn, m);
            && |t.channels| == |c.channels|
            && t.channels[i].packet_seq ==
               if i == chn && out.Some? then (c.channels[i].packet_seq + 1) % SEQ_MOD else c.channels[i].packet_seq
  {
    hide Header, Interleaved;
  }

  lemma ContinuesSnoc(handed: seq<Handed>, start: nat, next: Handed)
    requires Continues(handed, start) && next.number == (start + |handed|) % SEQ_MOD
    ensures Continues(handed + [next], start)
    ensures (next.number + 1) % SEQ_MOD == (start + |handed + [next]|) % SEQ_MOD
  {
  }

  lemma TaskKeepsSequence(c: Conn, handed: seq<Handed>, starts: seq<nat>, chn: nat, m: Media, taken: bool, at: nat)
    requires ConnInv(c) && InSequence(c, handed, starts) && chn < |c.channels|
    ensures var out := HandedByTask(c, chn, m);
            var h := if out.Some? then [Handed(chn, c.channels[chn].packet_seq, at, out.value, taken)] else [];
            InSequence(AfterTask(c, chn, m, taken), handed + h, starts)
  {
    hide AfterTask, HandedByTask, ConnInv, OnChannel, Continues;
    var t, out := AfterTask(c, chn, m, taken), HandedByTask(c, chn, m);
    var h := if out.Some? then [Handed(chn, c.channels[chn].packet_seq, at, out.value, taken)] else [];
    forall i | 0 <= i < |starts|
      ensures |t.channels| == |c.channels|
      ensures Continues(OnChannel(handed + h, i), starts[i])
      ensures t.channels[i].packet_seq == (starts[i] + |OnChannel(handed + h, i)|) % SEQ_MOD
    {
      NumberAfterTask(c, chn, m, taken, i);
      if out.Some? {
        OnChannelSnoc(handed, h[0], i);
        if i == chn {
          ContinuesSnoc(OnChannel(handed, i), starts[i], h[0]);
        } else {
          assert OnChannel(handed, i) + [] == OnChannel(handed, i);
        }
      } else {
        assert handed + h == handed;
      }
    }
    NumberAfterTask(c, chn, m, taken, chn);
  }

  lemma TaskKeepsNumbers(s: Machine, taken: bool, starts: seq<nat>)
    requires ConnInv(s.conn) && NumbersInv(s, starts)
    requires s.queue != [] && s.queue[0].chn < |s.conn.channels|
    ensures NumbersInv(AfterRunTask(s, taken), starts)
  {
    hide AfterTask, HandedByTask, ConnInv, InSequence;
    var Task(chn, m) := s.queue[0];
    TaskKeepsSequence(s.conn, s.handed, starts, chn, m, taken, |s.processed|);
    assert s.handed + [] == s.handed;
  }

  lemma StepKeepsHanded(s: Machine, e: Event)
    requires ConnInv(s.conn) && HandedInv(s) && Enabled(s, e)
    ensures HandedInv(Apply(s, e))
  {
    if e.RunTask? {
      TaskKeepsHanded(s, e.taken);
    }
  }

  lemma TaskCarries(c: Conn, chn: nat, m: Media, at: nat, taken: bool)
    requires ConnInv(c) && chn < |c.channels| && m.Fits() && HandedByTask(c, chn, m).Some?
    ensures Carries(Handed(chn, c.channels[chn].packet_seq, at, HandedByTask(c, chn, m).value, taken), Task(chn, m))
  {
    hide ReadRtp, ReadInterleaved, FromNat;
    ReadBack(c.channels[chn], m);
    ReadBackInterleaved(c.channels[chn], m);
  }

  lemma TaskKeepsHanded(s: Machine, taken: bool)
    requires ConnInv(s.conn) && HandedInv(s)
    requires s.queue != [] && s.queue[0].chn < |s.conn.channels|
    ensures HandedInv(AfterRunTask(s, taken))
  {
    hide Carries, ConnInv, Header, Interleaved;
    var t, n := AfterRunTask(s, taken), |s.processed|;
    var Task(chn, m) := s.queue[0];
    var out := HandedByTask(s.conn, chn, m);
    assert t.processed[..n] == s.processed && t.processed[n] == s.queue[0];
    if s.conn.has_key_frame {
      var j :| 0 <= j < n && s.processed[j].media.IsKey();
      assert t.processed[j].media.IsKey();
    }
    forall h | h in t.handed
      ensures h.at < |t.processed| && KeySeenBy(t.processed, h.at) && Carries(h, t.processed[h.at])
    {
      if h in s.handed {
        var j :| 0 <= j <= h.at && j < n && s.processed[j].media.IsKey();
        assert t.processed[j].media.IsKey();
      } else {
        TaskCarries(s.conn, chn, m, n, taken);
      }
    }
  }

  // ---------------------------------------------------------------------------
  // Over whole runs
  // ---------------------------------------------------------------------------

  /** Over every run, on every channel the packets handed to the transport carry
      start, start + 1, ... modulo 65536 (section 5.1 of RFC 3550); playing implies
      set-up; and every packet that goes out has an IDR or NONE-type packet
      processed before it or is one itself. */
  lemma {:induction false} RunIsContinuous(states: seq<Machine>, events: seq<Event>, n: nat)
    requires Run(states, events) && n <= |events|
    ensures ConnInv(states[n].conn) && HandedInv(states[n])
    ensures NumbersInv(states[n], Starts(states[0]))
  {
    if n == 0 {
      forall i | 0 <= i < |states[0].conn.channels|
        ensures OnChannel(states[0].handed, i) == []
      {
      }
    } else {
      hide Apply, ConnInv, HandedInv, NumbersInv, Enabled, Init;
      RunIsContinuous(states, events, n - 1);
      StepKeepsConn(states[n - 1], events[n - 1]);
      StepKeepsNumbers(states[n - 1], events[n - 1], Starts(states[0]));
      StepKeepsHanded(states[n - 1], events[n - 1]);
    }
  }

  /** A task that sends uses up one number of its channel and no other. The number
      is used for nothing if and only if the channel sends and the transport refuses
      the packet. */
  lemma UsedForNothing(c: Conn, chn: nat, m: Media, taken: bool)
    requires ConnInv(c) && chn < |c.channels|
    ensures var t := AfterTask(c, chn, m, taken);
            && |t.channels| == |c.channels|
            && (forall i :: 0 <= i < |c.channels| && i != chn ==> t.channels[i].packet_seq == c.channels[i].packet_seq)
            && (t.channels[chn].packet_seq != c.channels[chn].packet_seq <==> Sends(c, chn, m))
            && (t.channels[chn].packet_seq != c.channels[chn].packet_seq && AcceptedByTask(c, chn, m, taken).None?
                <==> Sends(c, chn, m) && !taken)
  {
    hide Header, Interleaved;
  }

  // ---------------------------------------------------------------------------
  // Gaps
  // ---------------------------------------------------------------------------

  /** The packets the transport took, in order. */
  function Accepted(handed: seq<Handed>): seq<Handed> {
    if handed == [] then []
    else
      var last := handed[|handed| - 1];
      Accepted(handed[..|handed| - 1]) + if last.taken then [last] else []
  }

  function Refused(handed: seq<Handed>): nat {
    if handed == [] then 0
    else Refused(handed[..|handed| - 1]) + if handed[|handed| - 1].taken then 0 else 1
  }

  lemma {:induction false} AcceptedCount(handed: seq<Handed>)
    ensures |handed| == |Accepted(handed)| + Refused(handed)
  {
    if handed != [] {
      AcceptedCount(handed[..|handed| - 1]);
    }
  }

  /** Packet k, when it is taken, follows exactly the taken ones before it. */
  lemma {:induction false} AcceptedAt(handed: seq<Handed>, k: nat)
    requires k < |handed| && handed[k].taken
    ensures var j := k - Refused(handed[..k]);
            0 <= j < |Accepted(handed)| && Accepted(handed)[j] == handed[k]
  {
    var front := handed[..|handed| - 1];
    AcceptedCount(front);
    if k < |front| {
      AcceptedAt(front, k);
      assert handed[..k] == front[..k];
    }
  }

  /** What the transport took of one channel is the channel's share of what it took. */
  lemma {:induction false} AcceptedOnChannel(handed: seq<Handed>, chn: nat)
    ensures OnChannel(Accepted(handed), chn) == Accepted(OnChannel(handed, chn))
  {
    hide OnChannel, Accepted;
    if handed == [] {
      NothingHanded(chn);
    } else {
      var front, last := handed[..|handed| - 1], handed[|handed| - 1];
      assert handed == front + [last];
      AcceptedOnChannel(front, chn);
      OnChannelSnoc(front, last, chn);
      AcceptedSnoc(front, last);
      OnChannelSnoc(Accepted(front), last, chn);
      AcceptedSnoc(OnChannel(front, chn), last);
      assert Accepted(front) + [] == Accepted(front) && OnChannel(front, chn) + [] == OnChannel(front, chn);
    }
  }

  lemma NothingHanded(chn: nat)
    ensures OnChannel([], chn) == [] && Accepted([]) == []
  {
  }

  lemma AcceptedSnoc(handed: seq<Handed>, h: Handed)
    ensures Accepted(handed + [h]) == Accepted(handed) + if h.taken then [h] else []
  {
    assert (handed + [h])[..|handed|] == handed;
  }

  /** Over every run, on every channel: a packet that the transport took carries
      start + j + r modulo 65536, where j packets were taken before it and r refused.
      So the packets a receiver can get carry start, start + 1, ... with a gap
      exactly at each refused packet. */
  lemma GapsAreTheRefused(states: seq<Machine>, events: seq<Event>, n: nat, chn: nat, k: nat)
    requires Run(states, events) && n <= |events| && chn < |states[0].conn.channels|
    requires k < |OnChannel(states[n].handed, chn)| && OnChannel(states[n].handed, chn)[k].taken
    ensures var sent := OnChannel(states[n].handed, chn);
            var r := Refused(sent[..k]);
            var j := k - r;
            && |Accepted(sent)| == |sent| - Refused(sent)
            && 0 <= j < |Accepted(sent)| && Accepted(sent)[j] == sent[k]
            && Accepted(sent)[j].number == (states[0].conn.channels[chn].packet_seq + j + r) % SEQ_MOD
  {
    hide Apply, Enabled, Init, HandedInv, ConnInv, OnChannel, Accepted, Refused;
    RunIsContinuous(states, events, n);
    var sent := OnChannel(states[n].handed, chn);
    AcceptedAt(sent, k);
    AcceptedCount(sent);
  }

  lemma NoEvents(s: Machine) returns (states: seq<Machine>, events: seq<Event>)
    requires Init(s)
    ensures Run(states, events) && events == [] && states == [s]
  {
    states, events := [s], [];
  }

  lemma Then(states: seq<Machine>, events: seq<Event>, e: Event) returns (longer: seq<Machine>, more: seq<Event>)
    requires Run(states, events) && Enabled(states[|events|], e)
    ensures Run(longer, more) && |more| == |events| + 1 && longer[|more|] == Apply(states[|events|], e)
    ensures |longer| == |more| + 1 && longer[0] == states[0]
  {
    hide Enabled, Apply;
    longer, more := states + [Apply(states[|events|], e)], events + [e];
  }

  lemma FirstTask(c: Conn, m: Media, taken: bool)
    requires |c.channels| == 1 && c.attached && c.transport.OverTcp? && c.channels[0].is_play && m.IsKey()
    requires c.channels[0].packet_seq < 0x100
    ensures var t := AfterTask(c, 0, m, taken);
            && |t.channels| == 1 && t.attached && t.transport.OverTcp? && t.channels[0].is_play
            && t.channels[0].packet_seq == c.channels[0].packet_seq + 1
            && HandedByTask(c, 0, m).Some?
  {
    hide Header, Interleaved;
  }

  /** A run in which the TCP connection refuses the first of two packets: the
      receiver sees number 1 first, although the channel started at 0. */
  lemma RefusedPacketLeavesGap(m: Media) returns (states: seq<Machine>, events: seq<Event>)
    requires m.Fits() && m.kind == VideoFrameIdr
    ensures Run(states, events) && |states| == |events| + 1
    ensures states[0].conn.channels != [] && states[0].conn.channels[0].packet_seq == 0
    ensures var handed := states[|events|].handed;
            && |handed| == 2 && !handed[0].taken && handed[0].number == 0
            && handed[1].taken && handed[1].number == 1 && states[|events|].conn.transport.OverTcp?
  {
    hide Run, Media.Fits, AfterTask, HandedByTask;
    var ch := Channel(0, 96, [0, 0, 0, 0], 0, false, false, false);
    var s := Machine(Conn(true, [ch], NoTransport, false, false), [], [], []);
    states, events := NoEvents(s);
    states, events := Then(states, events, SetupTcp(0, 0));
    states, events := Then(states, events, Play);
    states, events := Then(states, events, Submit(Task(0, m), true));
    states, events := Then(states, events, Submit(Task(0, m), true));
    var ready := states[|events|];
    states, events := Then(states, events, RunTask(false));
    FirstTask(ready.conn, m, false);
    states, events := Then(states, events, RunTask(true));
    FirstTask(AfterTask(ready.conn, 0, m, false), m, true);
  }

  lemma ClosedStep(s: Machine, e: Event)
    requires Enabled(s, e) && s.conn.is_closed
    ensures var t := Apply(s, e);
            t.conn.is_closed && (t.queue == s.queue || (s.queue != [] && t.queue == s.queue[1..]))
  {
    hide HandedByTask;
  }

  /** A closed connection stays closed, and its queue only drains. */
  lemma {:induction false} ClosedQueuesNothing(states: seq<Machine>, events: seq<Event>, n: nat, m: nat)
    requires Run(states, events) && n <= m <= |events| && states[n].conn.is_closed
    ensures states[m].conn.is_closed && IsSuffix(states[m].queue, states[n].queue)
    decreases m - n
  {
    hide Apply, Enabled;
    if n < m {
      ClosedQueuesNothing(states, events, n, m - 1);
      var s, t := states[m - 1], states[m];
      ClosedStep(s, events[m - 1]);
      if t.queue != s.queue {
        assert t.queue == s.queue[1..];
      }
    }
  }

  predicate IsSuffix<T(==)>(a: seq<T>, b: seq<T>) {
    |a| <= |b| && a == b[|b| - |a|..]
  }

  /** No channel plays or records. */
  predicate Silent(c: Conn) {
    forall i :: 0 <= i < |c.channels| ==> !c.channels[i].Active()
  }

  /** Teardown closes every connection but a multicast one, and stops all its
      channels. */
  lemma TeardownCloses(c: Conn)
    requires !c.transport.OverMulticast?
    ensures TornDown(c).is_closed && (!c.is_closed ==> Silent(TornDown(c)))
  {
  }

  lemma SilentStep(s: Machine, e: Event)
    requires Enabled(s, e) && Silent(s.conn) && !e.Play? && !e.Record?
    ensures Silent(Apply(s, e).conn) && Apply(s, e).handed == s.handed
  {
    hide Header, Interleaved;
  }

  /** Over every run, Teardown of a connection that is not a multicast one ends its
      queueing for good, and nothing is handed over any more, not even the packets that
      wait, unless the peer asks to play or record again. */
  lemma {:induction false} TeardownEnds(states: seq<Machine>, events: seq<Event>, n: nat, m: nat)
    requires Run(states, events) && n < m <= |events|
    requires events[n].Teardown? && !states[n].conn.transport.OverMulticast?
    ensures states[m].conn.is_closed && IsSuffix(states[m].queue, states[n].queue)
    ensures !states[n].conn.is_closed && (forall k :: n < k < m ==> !events[k].Play? && !events[k].Record?) ==>
              Silent(states[m].conn) && states[m].handed == states[n].handed
    decreases m - n
  {
    hide Apply, Enabled, Silent, TornDown, Init;
    TeardownCloses(states[n].conn);
    TornDownStep(states[n], events[n]);
    ClosedQueuesNothing(states, events, n + 1, m);
    if n + 1 < m && !states[n].conn.is_closed && forall k :: n < k < m ==> !events[k].Play? && !events[k].Record? {
      TeardownEnds(states, events, n, m - 1);
      SilentStep(states[m - 1], events[m - 1]);
    }
  }

  lemma TornDownStep(s: Machine, e: Event)
    requires e.Teardown? && Enabled(s, e)
    ensures Apply(s, e) == s.(conn := TornDown(s.conn))
  {
  }

  // ---------------------------------------------------------------------------
  // From set-up and play to the transport
  // ---------------------------------------------------------------------------

  /** The event sets channel i up. */
  predicate SetsUp(s: Machine, e: Event, i: nat) {
    match e
    case SetupTcp(chn, _) => chn == i && s.conn.attached
    case SetupUdp(chn, bound) => chn == i && s.conn.attached && bound
    case SetupMulticast(chn, bound) => chn == i && bound
    case _ => false
  }

  predicate IsUp(c: Conn, i: nat) {
    i < |c.channels| && c.channels[i].is_setup
  }

  predicate Plays(c: Conn, i: nat) {
    i < |c.channels| && c.channels[i].is_play
  }

  lemma FlagsStep(s: Machine, e: Event, i: nat)
    requires Enabled(s, e)
    ensures SetsUp(s, e, i) || IsUp(s.conn, i) ==> IsUp(Apply(s, e).conn, i)
    ensures !Apply(s, e).conn.is_closed && (Plays(s.conn, i) || (IsUp(s.conn, i) && (e.Play? || e.Record?))) ==>
              Plays(Apply(s, e).conn, i)
    ensures s.conn.is_closed ==> Apply(s, e).conn.is_closed
  {
    hide HandedByTask;
  }

  lemma {:induction false} StaysUp(states: seq<Machine>, events: seq<Event>, a: nat, n: nat, i: nat)
    requires Run(states, events) && a < n <= |events| && SetsUp(states[a], events[a], i)
    ensures IsUp(states[n].conn, i)
    decreases n - a
  {
    hide Apply, Enabled, SetsUp, IsUp, Plays, Init;
    if a + 1 < n {
      StaysUp(states, events, a, n - 1, i);
    }
    FlagsStep(states[n - 1], events[n - 1], i);
  }

  lemma {:induction false} StaysPlaying(states: seq<Machine>, events: seq<Event>, a: nat, b: nat, n: nat, i: nat)
    requires Run(states, events) && a < b < n <= |events| && SetsUp(states[a], events[a], i)
    requires (events[b].Play? || events[b].Record?) && !states[n].conn.is_closed
    ensures Plays(states[n].conn, i)
    decreases n - b
  {
    hide Apply, Enabled, SetsUp, IsUp, Plays, Init;
    FlagsStep(states[n - 1], events[n - 1], i);
    if b + 1 < n {
      StaysPlaying(states, events, a, b, n - 1, i);
    } else {
      StaysUp(states, events, a, b, i);
    }
  }

  /** The task that an open connection queues with event d keeps its place. */
  lemma {:induction false} KeepsItsPlace(states: seq<Machine>, events: seq<Event>, d: nat, n: nat)
    requires Run(states, events) && d < n <= |events|
    requires events[d].Submit? && events[d].room && !states[d].conn.is_closed
    requires |states[n].processed| <= |states[d].processed| + |states[d].queue|
    ensures var p := |states[d].processed| + |states[d].queue| - |states[n].processed|;
            p < |states[n].queue| && states[n].queue[p] == events[d].task
    decreases n - d
  {
    hide AfterTask, HandedByTask, SetUpTcp, SetUpUdp, SetUpMulticast, Played, TornDown, Init;
    assert states[n] == Apply(states[n - 1], events[n - 1]);
    if d + 1 < n {
      KeepsItsPlace(states, events, d, n - 1);
    }
  }

  /** Over every run: behind the set-up of a channel and Play or Record, a packet of this
      channel that an open connection queues is handed over when its turn comes, if the
      connection is still open, and a key frame was seen or this is one. */
  lemma PlayedIsHanded(states: seq<Machine>, events: seq<Event>, a: nat, b: nat, d: nat, n: nat)
    requires Run(states, events) && a < b < n < |events| && d < n
    requires events[d].Submit? && events[d].room && !states[d].conn.is_closed
    requires SetsUp(states[a], events[a], events[d].task.chn) && (events[b].Play? || events[b].Record?)
    requires events[n].RunTask? && |states[n].processed| == |states[d].processed| + |states[d].queue|
    requires !states[n].conn.is_closed && (states[n].conn.has_key_frame || events[d].task.media.IsKey())
    ensures var t := states[n + 1];
            && |t.handed| == |states[n].handed| + 1
            && Carries(t.handed[|states[n].handed|], events[d].task)
            && t.handed[|states[n].handed|].taken == events[n].taken
  {
    hide Apply, Enabled, SetsUp, IsUp, Plays, Init, Carries, ConnInv, HandedInv, NumbersInv;
    var Task(chn, m) := events[d].task;
    KeepsItsPlace(states, events, d, n);
    StaysPlaying(states, events, a, b, n, chn);
    RunIsContinuous(states, events, n);
    QueueFits(states[n]);
    PlayingHands(states[n].conn, chn, m);
    HandsOver(states[n], events[n]);
    TaskCarries(states[n].conn, chn, m, |states[n].processed|, events[n].taken);
  }

  lemma QueueFits(s: Machine)
    requires HandedInv(s) && s.queue != []
    ensures s.queue[0].media.Fits()
  {
  }

  lemma PlayingHands(c: Conn, chn: nat, m: Media)
    requires ConnInv(c) && Plays(c, chn) && (c.has_key_frame || m.IsKey())
    ensures chn < |c.channels| && HandedByTask(c, chn, m).Some?
  {
    hide Header, Interleaved;
  }

  lemma HandsOver(s: Machine, e: Event)
    requires e.RunTask? && Enabled(s, e) && HandedByTask(s.conn, s.queue[0].chn, s.queue[0].media).Some?
    ensures var chn := s.queue[0].chn;
            Apply(s, e).handed == s.handed + [Handed(chn, s.conn.channels[chn].packet_seq, |s.processed|,
                                                     HandedByTask(s.conn, chn, s.queue[0].media).value, e.taken)]
  {
  }
}
