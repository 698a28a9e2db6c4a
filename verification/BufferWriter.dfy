/** The outgoing byte stream: rtsp-server/net/BufferWriter.cpp and the write side of
    rtsp-server/net/TcpConnection.cpp. */
module BufferWriter {
  import opened Bytes

  // ---------------------------------------------------------------------------
  // The socket
  // ---------------------------------------------------------------------------

  /** What the network makes of one `send`: some bytes taken, none for now, or a
      broken connection. */
  datatype Answer = Took(n: nat) | WouldBlock | Broken {
    /** How many of the offered bytes go out. */
    function Taken(offered: nat): nat {
      if !Took? then 0 else if n < offered then n else offered
    }
  }

  class Socket {
    var wire: seq<Byte>
    var calls: nat
    /** How many bytes the last call offered. */
    ghost var offered: nat
    const answers: nat -> Answer

    /** The last answer. */
    function Last(): Answer
      requires calls > 0
      reads this
    {
      answers(calls - 1)
    }

    /** The last call took less than it was offered. */
    ghost predicate TookLess()
      requires calls > 0
      reads this
    {
      Last().Taken(offered) < offered
    }

    /** The network takes at least so many bytes at a time. */
    ghost predicate Takes(bound: nat) {
      forall k {:trigger answers(k)} :: answers(k).Took? && answers(k).n >= bound
    }

    constructor (answers: nat -> Answer)
      ensures wire == [] && calls == 0 && this.answers == answers
    {
      wire, calls, offered := [], 0, 0;
      this.answers := answers;
    }

    method Send(bytes: seq<Byte>) returns (ret: int, retry: bool)
      modifies this
      ensures calls == old(calls) + 1 && offered == |bytes|
      ensures wire == old(wire) + bytes[..Last().Taken(|bytes|)]
      ensures ret == (if Last().Took? then Last().Taken(|bytes|) else -1)
      ensures retry == Last().WouldBlock?
    {
      var answer := answers(calls);
      calls, offered := calls + 1, |bytes|;
      match answer
      case Took(n) =>
        ret, retry := if n < |bytes| then n else |bytes|, false;
        wire := wire + bytes[..ret];
      case WouldBlock => ret, retry := -1, true;
      case Broken => ret, retry := -1, false;
    }
  }

  // ---------------------------------------------------------------------------
  // The queue
  // ---------------------------------------------------------------------------

  datatype Packet = Packet(data: array<Byte>, size: nat, writeIndex: nat) {
    predicate Valid() {
      writeIndex < size <= data.Length
    }

    /** The bytes not sent yet. */
    function Rest(): seq<Byte>
      requires Valid()
      reads data
    {
      data[writeIndex..size]
    }
  }

  predicate AllValid(packets: seq<Packet>) {
    forall i :: 0 <= i < |packets| ==> packets[i].Valid()
  }

  ghost function Rests(packets: seq<Packet>): seq<Byte>
    requires AllValid(packets)
    reads set p | p in packets :: p.data
  {
    if packets == [] then [] else packets[0].Rest() + Rests(packets[1..])
  }

  lemma {:induction false} RestsSnoc(packets: seq<Packet>, p: Packet)
    requires AllValid(packets) && p.Valid()
    ensures AllValid(packets + [p]) && Rests(packets + [p]) == Rests(packets) + p.Rest()
  {
    if packets == [] {
      assert (packets + [p])[1..] == [];
    } else {
      RestsSnoc(packets[1..], p);
      assert (packets + [p])[1..] == packets[1..] + [p];
    }
  }

  lemma RestsCons(packets: seq<Packet>)
    requires AllValid(packets) && packets != []
    ensures AllValid(packets[1..]) && Rests(packets) == packets[0].Rest() + Rests(packets[1..])
  {
  }

  class BufferWriter {
    var buffer: seq<Packet>
    const max_queue_length: nat

    constructor (capacity: nat)
      ensures Valid() && Pending() == [] && buffer == [] && max_queue_length == capacity
    {
      buffer := [];
      max_queue_length := capacity;
    }

    ghost predicate Valid()
      reads this
    {
      AllValid(buffer) && |buffer| <= max_queue_length
    }

    /** The arrays that queued packets refer to. */
    ghost function Arrays(): set<array<Byte>>
      reads `buffer
    {
      set p | p in buffer :: p.data
    }

    /** Accepted but not yet sent, oldest byte first. */
    ghost function Pending(): seq<Byte>
      requires Valid()
      reads this, set p | p in buffer :: p.data
    {
      Rests(buffer)
    }

    /** Queues the caller's own buffer. */
    method AppendShared(data: array<Byte>, size: nat, index: nat) returns (ok: bool)
      requires Valid() && size <= data.Length
      modifies this`buffer
      ensures Valid()
      ensures ok <==> index < size && |old(buffer)| < max_queue_length
      ensures buffer == old(buffer) + if ok then [Packet(data, size, index)] else []
      ensures Arrays() <= old(Arrays()) + {data}
      ensures Pending() == old(Pending()) + if ok then data[index..size] else []
    {
      if size <= index || |buffer| >= max_queue_length {
        return false;
      }
      RestsSnoc(buffer, Packet(data, size, index));
      buffer := buffer + [Packet(data, size, index)];
      return true;
    }

    /** Queues a private copy, so the caller may overwrite its buffer at once. */
    method AppendCopy(data: seq<Byte>, index: nat) returns (ok: bool)
      requires Valid()
      modifies this`buffer
      ensures Valid()
      ensures ok <==> index < |data| && |old(buffer)| < max_queue_length
      ensures ok ==> |buffer| == |old(buffer)| + 1 && buffer[..|old(buffer)|] == old(buffer)
                     && fresh(buffer[|old(buffer)|].data)
      ensures !ok ==> buffer == old(buffer)
      ensures Pending() == old(Pending()) + if ok then data[index..] else []
    {
      if |data| <= index || |buffer| >= max_queue_length {
        return false;
      }
      var copy := new Byte[|data| + 512];
      forall k | 0 <= k < |data| {
        copy[k] := data[k];
      }
      RestsSnoc(buffer, Packet(copy, |data|, index));
      assert copy[index..|data|] == data[index..];
      buffer := buffer + [Packet(copy, |data|, index)];
      return true;
    }

    /** Sends until the queue is empty or the socket takes less than it is offered.
        No byte is lost, repeated or reordered, whatever the socket answers. */
    method Send(sock: Socket) returns (ret: int)
      requires Valid()
      modifies this`buffer, sock
      ensures Valid()
      ensures sock.wire + Pending() == old(sock.wire + Pending()) && old(sock.wire) <= sock.wire
      ensures |buffer| <= |old(buffer)| && Arrays() <= old(Arrays())
      ensures sock.calls == old(sock.calls) + |old(buffer)| - |buffer| + if buffer == [] then 0 else 1
      ensures buffer != [] <==> sock.calls > old(sock.calls) && sock.TookLess()
      ensures ret < 0 <==> sock.calls > old(sock.calls) && sock.Last().Broken?
      ensures sock.Takes(|old(Pending())|) ==> buffer == []
    {
      hide Rests, AllValid;
      ghost var all := Pending();
      var count := 1;
      ret := 0;
      while count > 0
        invariant Valid() && 0 <= count <= 1
        invariant sock.wire + Pending() == old(sock.wire + Pending()) && old(sock.wire) <= sock.wire
        invariant |buffer| <= |old(buffer)| && Arrays() <= old(Arrays()) && |Pending()| <= |all|
        invariant sock.calls == old(sock.calls) + |old(buffer)| - |buffer| + 1 - count
        invariant count == 0 ==> buffer != [] && sock.TookLess() && (ret < 0 <==> sock.Last().Broken?)
        invariant count == 1 && sock.calls > old(sock.calls) ==> !sock.TookLess() && sock.Last().Took?
        invariant count == 0 ==> !sock.Takes(|all|)
        decreases |buffer|, count
      {
        if |buffer| == 0 {
          return 0;
        }
        count := count - 1;
        var popped;
        ret, popped := SendFront(sock);
        if popped {
          count := count + 1;
        }
      }
    }

    /** One `send` of the front packet and what the loop makes of its answer. */
    method SendFront(sock: Socket) returns (ret: int, popped: bool)
      requires Valid() && buffer != []
      modifies this`buffer, sock
      ensures Valid()
      ensures sock.wire + Pending() == old(sock.wire + Pending()) && old(sock.wire) <= sock.wire
      ensures Arrays() <= old(Arrays())
      ensures sock.calls == old(sock.calls) + 1 && 0 < sock.offered == |old(buffer[0].Rest())| <= |old(Pending())|
      ensures sock.wire == old(sock.wire) + old(buffer[0].Rest())[..sock.Last().Taken(sock.offered)]
      ensures popped <==> !sock.TookLess()
      ensures |buffer| == |old(buffer)| - if popped then 1 else 0
      ensures ret == match sock.Last()
                     case Took(_) => sock.Last().Taken(sock.offered)
                     case WouldBlock => 0
                     case Broken => -1
      ensures sock.Takes(|old(Pending())|) ==> popped
    {
      hide Rests;
      var pkt := buffer[0];
      var retry;
      ghost var wire, rest, more := sock.wire, pkt.Rest(), buffer[1..];
      RestsCons(buffer);
      ret, retry := sock.Send(pkt.data[pkt.writeIndex..pkt.size]);
      popped := false;
      if ret > 0 {
        pkt := pkt.(writeIndex := pkt.writeIndex + ret);
        if pkt.size == pkt.writeIndex {
          popped := true;
          buffer := buffer[1..];
          Regroup(wire, rest, Rests(more));
        } else {
          assert rest == rest[..ret] + pkt.Rest();
          buffer := [pkt] + buffer[1..];
          RestsCons(buffer);
          assert buffer[1..] == more;
          Regroup(rest[..ret], pkt.Rest(), Rests(more));
          Regroup(wire, rest[..ret], pkt.Rest() + Rests(more));
        }
      } else if ret < 0 && retry {
        ret := 0;
      }
    }
  }
}
