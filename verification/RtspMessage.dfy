/** RTSP messages as rtsp-server/xop/RtspMessage.cpp prints them, and the receiver of a
    connection that carries them between interleaved frames: sections 4 and 10.12 of
    RFC 2326. */
module RtspMessage {
  import opened Bytes
  import opened Wrappers

  const CR: Byte := 0x0d
  const LF: Byte := 0x0a
  const DOLLAR: Byte := 0x24
  const DASH: Byte := 0x2d

  // ---------------------------------------------------------------------------
  // What a receiver does
  // ---------------------------------------------------------------------------

  /** Position of the first line end, and the end when there is none. */
  function LineEnd(s: seq<Byte>): (k: nat)
    ensures k <= |s|
    ensures k < |s| ==> k + 2 <= |s|
  {
    if |s| < 2 then |s|
    else if s[0] == CR && s[1] == LF then 0
    else 1 + LineEnd(s[1..])
  }

  /** The lines up to the first empty one, and how many bytes they take with it. */
  function ReadHead(s: seq<Byte>): (r: Option<(seq<seq<Byte>>, nat)>)
    ensures r.Some? ==> 2 <= r.value.1 <= |s|
    decreases |s|
  {
    var k := LineEnd(s);
    if k == |s| then Option.None
    else if k == 0 then Some(([], 2))
    else
      match ReadHead(s[k + 2..])
      case None => Option.None
      case Some((lines, n)) => Some(([s[..k]] + lines, k + 2 + n))
  }

  function Value(b: Byte): nat {
    var n := ToNat(b);
    if 48 <= n <= 57 then n - 48 else 0
  }

  function ParseDecimal(s: seq<Byte>): nat {
    if s == [] then 0 else 10 * ParseDecimal(s[..|s| - 1]) + Value(s[|s| - 1])
  }

  /** The length of the body: the first Content-Length header, or 0. */
  function BodyLength(lines: seq<seq<Byte>>): nat {
    if lines == [] then 0
    else if LENGTH <= lines[0] then ParseDecimal(lines[0][|LENGTH|..])
    else BodyLength(lines[1..])
  }

  predicate IsFrame(m: seq<Byte>) {
    |m| >= 4 && m[0] == DOLLAR && |m| == 4 + ReadBe16(m[2], m[3])
  }

  /** One whole RTSP message. */
  predicate IsRtsp(m: seq<Byte>) {
    m != [] && m[0] != DOLLAR && ReadHead(m).Some? && |m| == ReadHead(m).value.1 + BodyLength(ReadHead(m).value.0)
  }

  predicate AreFrames(messages: seq<seq<Byte>>) {
    forall i :: 0 <= i < |messages| ==> IsFrame(messages[i])
  }

  predicate AreMessages(messages: seq<seq<Byte>>) {
    forall i :: 0 <= i < |messages| ==> IsFrame(messages[i]) || IsRtsp(messages[i])
  }

  /** Length of the message a stream begins with. */
  function FirstLength(s: seq<Byte>): (r: Option<nat>)
    requires s != []
    ensures r.Some? ==> 0 < r.value
  {
    if s[0] == DOLLAR then
      if |s| < 4 then Option.None else Some(4 + ReadBe16(s[2], s[3]))
    else
      match ReadHead(s)
      case None => Option.None
      case Some((lines, n)) => Some(n + BodyLength(lines))
  }

  /** The receiver cuts a byte stream at the lengths in the frame headers and at the
      ends of the RTSP messages. */
  function Cut(s: seq<Byte>): Option<seq<seq<Byte>>>
    decreases |s|
  {
    if s == [] then Some([])
    else
      match FirstLength(s)
      case None => Option.None
      case Some(n) =>
        if |s| < n then Option.None
        else
          match Cut(s[n..])
          case None => Option.None
          case Some(messages) => Some([s[..n]] + messages)
  }

  /** The frames among the messages, or the RTSP messages among them. */
  function Among(frames: bool, messages: seq<seq<Byte>>): seq<seq<Byte>> {
    if messages == [] then []
    else
      var n := |messages| - 1;
      Among(frames, messages[..n]) + if IsFrame(messages[n]) == frames then [messages[n]] else []
  }

  // ---------------------------------------------------------------------------
  // Boundaries survive the byte stream
  // ---------------------------------------------------------------------------

  lemma {:induction false} LineEndStays(s: seq<Byte>, rest: seq<Byte>)
    requires LineEnd(s) < |s|
    ensures LineEnd(s + rest) == LineEnd(s)
  {
    if s[0] != CR || s[1] != LF {
      LineEndStays(s[1..], rest);
      assert (s + rest)[1..] == s[1..] + rest;
    }
  }

  lemma {:induction false} ReadHeadStays(s: seq<Byte>, rest: seq<Byte>)
    requires ReadHead(s).Some?
    ensures ReadHead(s + rest) == ReadHead(s)
    decreases |s|
  {
    hide LineEnd;
    var k := LineEnd(s);
    LineEndStays(s, rest);
    if k > 0 {
      ReadHeadStays(s[k + 2..], rest);
      assert (s + rest)[k + 2..] == s[k + 2..] + rest;
      assert (s + rest)[..k] == s[..k];
    }
  }

  lemma FirstLengthIs(m: seq<Byte>, rest: seq<Byte>)
    requires IsFrame(m) || IsRtsp(m)
    ensures m + rest != [] && FirstLength(m + rest) == Some(|m|)
  {
    hide BodyLength, ReadHead, ReadBe16;
    if IsRtsp(m) {
      ReadHeadStays(m, rest);
    }
  }

  /** Whatever follows a whole run of messages, cutting goes on behind it. */
  lemma {:induction false} CutThrough(messages: seq<seq<Byte>>, rest: seq<Byte>)
    requires AreMessages(messages)
    ensures Cut(Concat(messages) + rest) ==
            match Cut(rest)
            case None => Option.None
            case Some(more) => Some(messages + more)
  {
    hide IsFrame, IsRtsp, FirstLength;
    if messages == [] {
      assert Concat(messages) + rest == rest;
      assert Cut(rest).Some? ==> messages + Cut(rest).value == Cut(rest).value;
    } else {
      var m, tail := messages[0], Concat(messages[1..]) + rest;
      Regroup(m, Concat(messages[1..]), rest);
      FirstLengthIs(m, tail);
      CutThrough(messages[1..], rest);
      assert (m + tail)[..|m|] == m && (m + tail)[|m|..] == tail;
      assert Cut(rest).Some? ==> messages + Cut(rest).value == [m] + (messages[1..] + Cut(rest).value);
    }
  }

  /** Message boundaries survive the byte stream, for any mix of frames and RTSP
      messages. */
  lemma CutMessages(messages: seq<seq<Byte>>)
    requires AreMessages(messages)
    ensures Cut(Concat(messages)) == Some(messages)
  {
    CutThrough(messages, []);
    assert Concat(messages) + [] == Concat(messages) && messages + [] == messages;
  }

  /** A stream that was cut goes on being cut behind what it held. */
  lemma {:induction false} CutGoesOn(s: seq<Byte>, messages: seq<seq<Byte>>)
    requires Cut(s).Some? && AreMessages(messages)
    ensures Cut(s + Concat(messages)) == Some(Cut(s).value + messages)
    decreases |s|
  {
    hide IsFrame, IsRtsp, FirstLength, AreMessages;
    if s == [] {
      CutMessages(messages);
      assert s + Concat(messages) == Concat(messages) && Cut(s).value + messages == messages;
    } else {
      var n := FirstLength(s).value;
      var t := s + Concat(messages);
      FirstLengthStays(s, Concat(messages));
      CutGoesOn(s[n..], messages);
      assert t[..n] == s[..n] && t[n..] == s[n..] + Concat(messages);
      Regroup([s[..n]], Cut(s[n..]).value, messages);
    }
  }

  lemma FirstLengthStays(s: seq<Byte>, rest: seq<Byte>)
    requires s != [] && FirstLength(s).Some?
    ensures FirstLength(s + rest) == FirstLength(s)
  {
    hide BodyLength, ReadHead, ReadBe16;
    if s[0] != DOLLAR {
      ReadHeadStays(s, rest);
    }
  }

  lemma {:induction false} AmongConcat(frames: bool, a: seq<seq<Byte>>, b: seq<seq<Byte>>)
    ensures Among(frames, a + b) == Among(frames, a) + Among(frames, b)
  {
    hide IsFrame;
    if b == [] {
      assert a + b == a;
    } else {
      var n := |b| - 1;
      assert (a + b)[..|a| + n] == a + b[..n];
      AmongConcat(frames, a, b[..n]);
      Regroup(Among(frames, a), Among(frames, b[..n]), if IsFrame(b[n]) == frames then [b[n]] else []);
    }
  }

  /** All frames, and none of the other kind. */
  lemma {:induction false} AmongFrames(messages: seq<seq<Byte>>)
    requires AreFrames(messages)
    ensures Among(true, messages) == messages && Among(false, messages) == []
  {
    hide IsFrame;
    if messages != [] {
      var n := |messages| - 1;
      AmongFrames(messages[..n]);
      assert messages == messages[..n] + [messages[n]];
    }
  }

  lemma RtspIsNoFrame(m: seq<Byte>)
    requires IsRtsp(m)
    ensures !IsFrame(m) && Among(true, [m]) == [] && Among(false, [m]) == [m]
  {
    hide ReadHead, BodyLength;
    assert [m][..0] == [];
  }

  // ---------------------------------------------------------------------------
  // What the program prints
  // ---------------------------------------------------------------------------

  predicate IsAscii(text: string) {
    forall i :: 0 <= i < |text| ==> text[i] as int < 128 && text[i] != '\r'
  }

  function Ascii(text: string): (s: seq<Byte>)
    ensures |s| == |text|
  {
    seq(|text|, i requires 0 <= i < |text| => FromNat(text[i] as int))
  }

  const LENGTH: seq<Byte> := Ascii("Content-Length: ")

  lemma AsciiAt(text: string, i: nat)
    requires i < |text| && text[i] as int < 128
    ensures ToNat(Ascii(text)[i]) == text[i] as int
  {
    hide FromNat, ToNat;
    FromNatToNat(text[i] as int);
  }

  lemma CodeOf(b: Byte)
    ensures b == CR <==> ToNat(b) == 13
    ensures b == DOLLAR <==> ToNat(b) == 36
    ensures b == DASH <==> ToNat(b) == 45
  {
  }

  lemma AsciiHasNoCr(text: string)
    requires IsAscii(text)
    ensures CR !in Ascii(text)
  {
    hide FromNat, ToNat;
    forall i | 0 <= i < |text|
      ensures Ascii(text)[i] != CR
    {
      AsciiAt(text, i);
      CodeOf(Ascii(text)[i]);
    }
  }

  function Decimal(n: nat): seq<Byte> {
    (if n < 10 then [] else Decimal(n / 10)) + [FromNat(48 + n % 10)]
  }

  lemma LastDigit(n: nat)
    ensures Value(FromNat(48 + n % 10)) == n % 10 && FromNat(48 + n % 10) != CR && FromNat(48 + n % 10) != DASH
  {
    hide FromNat, ToNat;
    FromNatToNat(48 + n % 10);
    CodeOf(FromNat(48 + n % 10));
  }

  lemma DecimalIs(n: nat)
    ensures Decimal(n) == (if n < 10 then [] else Decimal(n / 10)) + [FromNat(48 + n % 10)]
  {
    hide FromNat;
  }

  lemma ParseSnoc(s: seq<Byte>, b: Byte)
    ensures ParseDecimal(s + [b]) == 10 * ParseDecimal(s) + Value(b) && ParseDecimal([]) == 0
  {
    hide Value;
    assert (s + [b])[..|s|] == s;
  }

  lemma Tenfold(n: nat)
    ensures n == 10 * (n / 10) + n % 10 && n % 10 < 10 && (n < 10 ==> n / 10 == 0) && (n >= 10 ==> n / 10 < n)
  {
  }

  lemma {:induction false} DecimalReadsBack(n: nat)
    ensures ParseDecimal(Decimal(n)) == n && CR !in Decimal(n) && DASH !in Decimal(n) && Decimal(n) != []
  {
    hide FromNat, Value, Decimal, ParseDecimal;
    LastDigit(n);
    Tenfold(n);
    DecimalIs(n);
    var front := if n < 10 then [] else Decimal(n / 10);
    ParseSnoc(front, FromNat(48 + n % 10));
    if n >= 10 {
      DecimalReadsBack(n / 10);
    }
  }

  /** A line of a head: not empty and without a line end of its own. */
  predicate IsLine(line: seq<Byte>) {
    line != [] && CR !in line
  }

  function Head(lines: seq<seq<Byte>>): seq<Byte> {
    if lines == [] then [CR, LF] else lines[0] + ([CR, LF] + Head(lines[1..]))
  }

  lemma {:induction false} LineEndIs(line: seq<Byte>, rest: seq<Byte>)
    requires CR !in line
    ensures LineEnd(line + ([CR, LF] + rest)) == |line|
  {
    var s := line + ([CR, LF] + rest);
    if line == [] {
      assert s[0] == CR && s[1] == LF;
    } else {
      assert line[0] in line && s[0] == line[0];
      LineEndIs(line[1..], rest);
      assert s[1..] == line[1..] + ([CR, LF] + rest);
    }
  }

  lemma Parts(line: seq<Byte>, more: seq<Byte>)
    ensures var s := line + ([CR, LF] + more);
            s[..|line|] == line && s[|line| + 2..] == more
  {
  }

  lemma {:induction false} HeadReadsBack(lines: seq<seq<Byte>>, rest: seq<Byte>)
    requires forall i :: 0 <= i < |lines| ==> IsLine(lines[i])
    ensures ReadHead(Head(lines) + rest) == Some((lines, |Head(lines)|))
    decreases |lines|
  {
    hide LineEnd;
    if lines == [] {
      LineEndIs([], rest);
      assert Head(lines) + rest == [] + ([CR, LF] + rest);
    } else {
      var line, more := lines[0], Head(lines[1..]) + rest;
      Regroup(line, [CR, LF] + Head(lines[1..]), rest);
      Regroup([CR, LF], Head(lines[1..]), rest);
      LineEndIs(line, more);
      Parts(line, more);
      HeadReadsBack(lines[1..], rest);
      assert lines == [line] + lines[1..];
    }
  }

  /** Lines that announce their body and start a message. */
  predicate Announces(lines: seq<seq<Byte>>, body: seq<Byte>) {
    && lines != [] && (forall i :: 0 <= i < |lines| ==> IsLine(lines[i]))
    && lines[0][0] != DOLLAR && BodyLength(lines) == |body|
  }

  lemma PrintedIsRtsp(lines: seq<seq<Byte>>, body: seq<Byte>)
    requires Announces(lines, body)
    ensures IsRtsp(Head(lines) + body)
  {
    hide BodyLength, ReadHead;
    HeadReadsBack(lines, body);
    assert lines[0] != [] && (Head(lines) + body)[0] == lines[0][0];
  }

  lemma NotLength(text: string, rest: seq<Byte>)
    requires |text| >= 2 && text[1] as int < 128 && text[1] != 'o'
    ensures !(LENGTH <= Ascii(text) + rest)
  {
    hide FromNat, ToNat;
    AsciiAt(text, 1);
    AsciiAt("Content-Length: ", 1);
    assert LENGTH[1] == Ascii("Content-Length: ")[1] != Ascii(text)[1] == (Ascii(text) + rest)[1];
  }

  lemma {:induction false} NoLength(lines: seq<seq<Byte>>)
    requires forall i :: 0 <= i < |lines| ==> !(LENGTH <= lines[i])
    ensures BodyLength(lines) == 0
  {
    if lines != [] {
      NoLength(lines[1..]);
    }
  }

  /** A header other than Content-Length. */
  predicate IsOther(line: seq<Byte>) {
    IsLine(line) && !(LENGTH <= line)
  }

  /** A reply without a body: a status line and headers. */
  function PlainReply(status: string, headers: seq<seq<Byte>>): seq<Byte> {
    Head([Ascii(status)] + headers)
  }

  /** Every reply without a body is one whole message, whatever its headers say. */
  lemma PlainIsRtsp(status: string, headers: seq<seq<Byte>>)
    requires IsStatus(status) && forall i :: 0 <= i < |headers| ==> IsOther(headers[i])
    ensures IsRtsp(PlainReply(status, headers))
  {
    hide IsStatus, BodyLength, Head, Ascii, IsLine, LENGTH, IsRtsp;
    StatusLine(status);
    var lines := [Ascii(status)] + headers;
    NoLength(lines);
    PrintedIsRtsp(lines, []);
    assert Head(lines) + [] == Head(lines);
  }

  predicate IsStatus(status: string) {
    IsAscii(status) && "RT" <= status
  }

  lemma StatusLine(status: string)
    requires IsStatus(status)
    ensures var line := Ascii(status); IsOther(line) && line[0] != DOLLAR
  {
    hide FromNat, ToNat;
    AsciiHasNoCr(status);
    AsciiAt(status, 0);
    CodeOf(Ascii(status)[0]);
    NotLength(status, []);
    assert Ascii(status) + [] == Ascii(status);
  }

  lemma TextLine(text: string, rest: seq<Byte>)
    requires IsAscii(text) && |text| >= 2 && text[1] != 'o' && CR !in rest
    ensures IsOther(Ascii(text) + rest)
  {
    hide FromNat, ToNat;
    AsciiHasNoCr(text);
    NotLength(text, rest);
  }

  lemma BareLine(text: string)
    requires IsAscii(text) && text != []
    ensures IsLine(Ascii(text))
  {
    AsciiHasNoCr(text);
  }

  const INTERLEAVED := "Transport: RTP/AVP/TCP;unicast;interleaved="

  function TransportLine(rtp: nat, rtcp: nat): seq<Byte> {
    Ascii(INTERLEAVED) + (Decimal(rtp) + (Ascii("-") + Decimal(rtcp)))
  }

  function SessionLine(session: nat): seq<Byte> {
    Ascii("Session: ") + Decimal(session)
  }

  function CSeqLine(cseq: nat): seq<Byte> {
    Ascii("CSeq: ") + Decimal(cseq)
  }

  function SetupTcpReply(cseq: nat, rtp: nat, rtcp: nat, session: nat): seq<Byte> {
    PlainReply("RTSP/1.0 200 OK", [CSeqLine(cseq), TransportLine(rtp, rtcp), SessionLine(session)])
  }

  lemma CSeqIsLine(cseq: nat)
    ensures IsOther(CSeqLine(cseq))
  {
    hide Decimal, Ascii, IsLine, LENGTH;
    DecimalReadsBack(cseq);
    TextLine("CSeq: ", Decimal(cseq));
  }

  lemma InterleavedText()
    ensures IsAscii(INTERLEAVED) && |INTERLEAVED| >= 2 && INTERLEAVED[1] != 'o' && IsAscii("-")
  {
  }

  lemma TransportIsLine(rtp: nat, rtcp: nat)
    ensures IsOther(TransportLine(rtp, rtcp))
  {
    hide Decimal, Ascii, IsLine, LENGTH, INTERLEAVED, IsAscii;
    DecimalReadsBack(rtp);
    DecimalReadsBack(rtcp);
    InterleavedText();
    AsciiHasNoCr("-");
    TextLine(INTERLEAVED, Decimal(rtp) + (Ascii("-") + Decimal(rtcp)));
  }

  lemma SessionIsLine(session: nat)
    ensures IsOther(SessionLine(session))
  {
    hide Decimal, Ascii, IsLine, LENGTH;
    DecimalReadsBack(session);
    TextLine("Session: ", Decimal(session));
  }

  /** The reply that makes a client's transport TCP is one whole message. */
  lemma SetupTcpIsRtsp(cseq: nat, rtp: nat, rtcp: nat, session: nat)
    ensures IsRtsp(SetupTcpReply(cseq, rtp, rtcp, session))
  {
    hide PlainReply, CSeqLine, TransportLine, SessionLine, IsRtsp, IsOther;
    CSeqIsLine(cseq);
    TransportIsLine(rtp, rtcp);
    SessionIsLine(session);
    PlainIsRtsp("RTSP/1.0 200 OK", [CSeqLine(cseq), TransportLine(rtp, rtcp), SessionLine(session)]);
  }

  /** What a client reads from a header with a number. */
  function NumberIn(name: string, line: seq<Byte>): Option<nat> {
    if Ascii(name) <= line then Some(ParseDecimal(line[|name|..])) else Option.None
  }

  function DashIn(s: seq<Byte>): (k: nat)
    ensures k <= |s|
  {
    if s == [] || s[0] == DASH then 0 else 1 + DashIn(s[1..])
  }

  /** The two channel numbers in a transport header. */
  function ChannelsIn(line: seq<Byte>): Option<(nat, nat)> {
    if !(Ascii(INTERLEAVED) <= line) then Option.None
    else
      var rest := line[|INTERLEAVED|..];
      var k := DashIn(rest);
      if k == |rest| then Option.None else Some((ParseDecimal(rest[..k]), ParseDecimal(rest[k + 1..])))
  }

  lemma {:induction false} DashIs(digits: seq<Byte>, more: seq<Byte>)
    requires DASH !in digits
    ensures DashIn(digits + ([DASH] + more)) == |digits|
  {
    var s := digits + ([DASH] + more);
    if digits != [] {
      assert digits[0] in digits && s[0] == digits[0];
      DashIs(digits[1..], more);
      assert s[1..] == digits[1..] + ([DASH] + more);
    }
  }

  lemma NumberReadsBack(name: string, n: nat)
    ensures NumberIn(name, Ascii(name) + Decimal(n)) == Some(n)
  {
    hide Decimal, FromNat;
    DecimalReadsBack(n);
    assert (Ascii(name) + Decimal(n))[|name|..] == Decimal(n);
  }

  lemma AsciiDash()
    ensures Ascii("-") == [DASH]
  {
    hide FromNat, ToNat;
    AsciiAt("-", 0);
    CodeOf(Ascii("-")[0]);
  }

  lemma ChannelsReadBack(rtp: nat, rtcp: nat)
    ensures ChannelsIn(TransportLine(rtp, rtcp)) == Some((rtp, rtcp))
  {
    hide Decimal, Ascii, DashIn, ParseDecimal;
    DecimalReadsBack(rtp);
    DecimalReadsBack(rtcp);
    AsciiDash();
    DashIs(Decimal(rtp), Decimal(rtcp));
    var line, rest := TransportLine(rtp, rtcp), Decimal(rtp) + ([DASH] + Decimal(rtcp));
    assert line[|INTERLEAVED|..] == rest;
    assert rest[..|Decimal(rtp)|] == Decimal(rtp) && rest[|Decimal(rtp)| + 1..] == Decimal(rtcp);
  }

  /** A client reads its sequence number, the channel numbers and the session back. */
  lemma SetupTcpReadsBack(cseq: nat, rtp: nat, rtcp: nat, session: nat)
    ensures var head := ReadHead(SetupTcpReply(cseq, rtp, rtcp, session));
            && head.Some? && |head.value.0| == 4 && head.value.0[0] == Ascii("RTSP/1.0 200 OK")
            && NumberIn("CSeq: ", head.value.0[1]) == Some(cseq)
            && ChannelsIn(head.value.0[2]) == Some((rtp, rtcp))
            && NumberIn("Session: ", head.value.0[3]) == Some(session)
  {
    hide Decimal, Ascii, IsLine, Head, TransportLine, NumberIn, ChannelsIn;
    var lines := [Ascii("RTSP/1.0 200 OK"), CSeqLine(cseq), TransportLine(rtp, rtcp), SessionLine(session)];
    StatusLine("RTSP/1.0 200 OK");
    CSeqIsLine(cseq);
    TransportIsLine(rtp, rtcp);
    SessionIsLine(session);
    HeadReadsBack(lines, []);
    assert Head(lines) + [] == Head(lines);
    assert lines == [Ascii("RTSP/1.0 200 OK")] + [CSeqLine(cseq), TransportLine(rtp, rtcp), SessionLine(session)];
    NumberReadsBack("CSeq: ", cseq);
    ChannelsReadBack(rtp, rtcp);
    NumberReadsBack("Session: ", session);
  }

  /** The reply to DESCRIBE carries the session description as its body. */
  function DescribeLines(cseq: nat, length: nat): seq<seq<Byte>> {
    [Ascii("RTSP/1.0 200 OK"), CSeqLine(cseq), LENGTH + Decimal(length), Ascii("Content-Type: application/sdp")]
  }

  function DescribeReply(cseq: nat, sdp: seq<Byte>): seq<Byte> {
    Head(DescribeLines(cseq, |sdp|)) + sdp
  }

  lemma ThirdAnnounces(a: seq<Byte>, b: seq<Byte>, digits: seq<Byte>, d: seq<Byte>)
    requires !(LENGTH <= a) && !(LENGTH <= b)
    ensures BodyLength([a, b, LENGTH + digits, d]) == ParseDecimal(digits)
  {
    hide ParseDecimal, Ascii;
    var lines := [a, b, LENGTH + digits, d];
    assert lines[1..][1..][0] == lines[2] && lines[2][|LENGTH|..] == digits;
    assert BodyLength(lines) == BodyLength(lines[1..]) == BodyLength(lines[1..][1..]);
  }

  lemma LengthLine(digits: seq<Byte>)
    requires CR !in digits
    ensures IsLine(LENGTH + digits)
  {
    AsciiHasNoCr("Content-Length: ");
  }

  lemma DescribeIsRtsp(cseq: nat, sdp: seq<Byte>)
    ensures IsRtsp(DescribeReply(cseq, sdp))
  {
    hide DescribeLines, Announces, IsRtsp;
    DescribeAnnounces(cseq, sdp);
    PrintedIsRtsp(DescribeLines(cseq, |sdp|), sdp);
  }

  lemma DescribeAnnounces(cseq: nat, sdp: seq<Byte>)
    ensures Announces(DescribeLines(cseq, |sdp|), sdp)
  {
    hide Decimal, Ascii, ParseDecimal, BodyLength, CSeqLine, IsLine, LENGTH;
    var lines := DescribeLines(cseq, |sdp|);
    StatusLine("RTSP/1.0 200 OK");
    CSeqIsLine(cseq);
    DecimalReadsBack(|sdp|);
    LengthLine(Decimal(|sdp|));
    BareLine("Content-Type: application/sdp");
    ThirdAnnounces(lines[0], lines[1], Decimal(|sdp|), lines[3]);
  }

  /** A client reads its sequence number and, behind the head, the session description. */
  lemma DescribeReadsBack(cseq: nat, sdp: seq<Byte>)
    ensures var reply := DescribeReply(cseq, sdp);
            var head := ReadHead(reply);
            && head.Some? && |head.value.0| == 4 && head.value.0[0] == Ascii("RTSP/1.0 200 OK")
            && NumberIn("CSeq: ", head.value.0[1]) == Some(cseq)
            && NumberIn("Content-Length: ", head.value.0[2]) == Some(|sdp|)
            && head.value.0[3] == Ascii("Content-Type: application/sdp")
            && reply[head.value.1..] == sdp
  {
    hide Decimal, Ascii, BodyLength, IsLine, Head, NumberIn;
    DescribeAnnounces(cseq, sdp);
    var lines := DescribeLines(cseq, |sdp|);
    HeadReadsBack(lines, sdp);
    assert (Head(lines) + sdp)[|Head(lines)|..] == sdp;
    NumberReadsBack("CSeq: ", cseq);
    NumberReadsBack("Content-Length: ", |sdp|);
  }

  // ---------------------------------------------------------------------------
  // The buffer the program prints into
  // ---------------------------------------------------------------------------

  function TenTo(d: nat): nat {
    if d == 0 then 1 else 10 * TenTo(d - 1)
  }

  lemma {:induction false} DecimalIsShort(n: nat, d: nat)
    requires 0 < d && n < TenTo(d)
    ensures |Decimal(n)| <= d
  {
    hide FromNat;
    if n >= 10 {
      DecimalIsShort(n / 10, d - 1);
    }
  }

  /** A session description is printed into 2048 bytes, so the reply that carries it is
      never cut short by its own buffer of 4096 and announces its true length. */
  lemma DescribeFits(cseq: nat, sdp: seq<Byte>)
    requires cseq < 0x1_0000_0000 && |sdp| < 2048
    ensures |DescribeReply(cseq, sdp)| < 4096
  {
    hide Decimal, FromNat, Ascii;
    DecimalIsShort(cseq, 10);
    DecimalIsShort(|sdp|, 4);
    var lines := DescribeLines(cseq, |sdp|);
    assert |lines| == 4 && lines[1..][1..][1..][1..] == [];
    assert |Head(lines[1..])| == |lines[1]| + 2 + |Head(lines[1..][1..])|;
    assert |Head(lines[1..][1..])| == |lines[2]| + 2 + |Head(lines[1..][1..][1..])|;
    assert |Head(lines[1..][1..][1..])| == |lines[3]| + 4;
  }
}
