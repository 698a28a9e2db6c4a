/** The write side of rtsp-server/net/TcpConnection.cpp. */
module TcpConnection {
  import opened Bytes
  import opened BufferWriter

  const MAX_QUEUE := 500

  class TcpConnection {
    const write_buffer: BufferWriter
    const sock: Socket
    var is_closed: bool
    /** The channel's write interest. */
    var is_writing: bool
    /** How often the close callbacks ran. */
    var closings: nat
    /** The bytes of all accepted messages, in order. */
    ghost var accepted: seq<Byte>

    constructor (sock: Socket)
      requires sock.wire == []
      ensures Valid() && accepted == [] && !is_closed && !is_writing && this.sock == sock && fresh(write_buffer)
      ensures write_buffer.buffer == [] && write_buffer.max_queue_length == 500
    {
      write_buffer := new BufferWriter(MAX_QUEUE);
      this.sock := sock;
      is_closed, is_writing := false, false;
      closings := 0;
      accepted := [];
    }

    /** Bytes on the wire followed by pending bytes are the accepted ones, and the
        close callbacks ran once if the connection is closed and never if not. */
    ghost predicate Valid()
      reads this, write_buffer, sock, set p | p in write_buffer.buffer :: p.data
    {
      && write_buffer.Valid()
      && accepted == sock.wire + write_buffer.Pending()
      && closings == (if is_closed then 1 else 0)
    }

    /** Write interest is on exactly when data is pending. */
    ghost predicate InterestOk()
      reads this, write_buffer
    {
      is_writing <==> write_buffer.buffer != []
    }

    method Close()
      requires Valid()
      modifies this`is_closed, this`closings
      ensures Valid() && is_closed
    {
      if !is_closed {
        is_closed := true;
        closings := closings + 1;
      }
    }

    /** `locked` tells whether `try_lock` got the mutex. With the lock, an open connection
        is closed exactly when the last answer of the socket was a broken connection, and
        data is left exactly when the socket took less than it was offered. */
    method HandleWrite(locked: bool)
      requires Valid()
      modifies this`is_closed, this`is_writing, this`closings, write_buffer`buffer, sock
      ensures Valid() && (old(is_closed) ==> is_closed)
      ensures old(is_closed) || !locked ==> sock.wire == old(sock.wire) && write_buffer.buffer == old(write_buffer.buffer)
                                            && is_writing == old(is_writing) && is_closed == old(is_closed)
                                            && sock.calls == old(sock.calls)
      ensures !old(is_closed) && locked ==>
                && (is_closed <==> sock.calls > old(sock.calls) && sock.Last().Broken?)
                && (write_buffer.buffer != [] <==> sock.calls > old(sock.calls) && sock.TookLess())
                && (sock.Takes(|old(write_buffer.Pending())|) ==>
                      !is_closed && sock.wire == accepted && write_buffer.buffer == [])
      ensures locked && !is_closed ==> InterestOk()
      ensures old(sock.wire) <= sock.wire && |write_buffer.buffer| <= |old(write_buffer.buffer)|
      ensures write_buffer.Arrays() <= old(write_buffer.Arrays())
    {
      if is_closed || !locked {
        return;
      }
      var ret := write_buffer.Send(sock);
      if ret < 0 {
        Close();
        return;
      }
      if write_buffer.buffer == [] {
        if is_writing {
          is_writing := false;
        }
      } else if !is_writing {
        is_writing := true;
      }
    }

    /** Queues a copy of the message and tries to send. A message is accepted
        exactly when the connection is open, the message is not empty and the queue
        has room. The interest is right afterwards whenever the lock was free; when
        it was not, the new data waits with the interest as it was, so the interest
        is right if and only if it was on already. */
    method SendCopy(data: seq<Byte>, locked: bool)
      requires Valid()
      modifies this, write_buffer`buffer, sock
      ensures Valid() && (old(is_closed) ==> is_closed)
      ensures accepted == old(accepted) +
                          if !old(is_closed) && data != [] && |old(write_buffer.buffer)| < write_buffer.max_queue_length
                          then data else []
      ensures !old(is_closed) && locked ==> (is_closed <==> sock.calls > old(sock.calls) && sock.Last().Broken?)
      ensures !old(is_closed) && locked && sock.Takes(|old(write_buffer.Pending())| + |data|) ==>
                !is_closed && sock.wire == accepted && write_buffer.buffer == []
      ensures locked && !is_closed ==> InterestOk()
      ensures !locked ==> is_writing == old(is_writing) && is_closed == old(is_closed) && sock.wire == old(sock.wire)
      ensures !locked && accepted != old(accepted) ==> (InterestOk() <==> old(is_writing))
      ensures old(sock.wire) <= sock.wire && |write_buffer.buffer| <= |old(write_buffer.buffer)| + 1
      ensures fresh(write_buffer.Arrays() - old(write_buffer.Arrays()))
    {
      if !is_closed {
        ghost var wire, pending := sock.wire, write_buffer.Pending();
        var ok := write_buffer.AppendCopy(data, 0);
        if ok {
          accepted := accepted + data;
          assert data[0..] == data;
          Regroup(wire, pending, data);
        } else {
          assert pending + [] == pending;
        }
        HandleWrite(locked);
      }
    }

    /** The same for a buffer that the queue shares with the caller. */
    method SendShared(data: array<Byte>, size: nat, locked: bool)
      requires Valid() && size <= data.Length
      modifies this, write_buffer`buffer, sock
      ensures Valid() && (old(is_closed) ==> is_closed)
      ensures accepted == old(accepted) +
                          if !old(is_closed) && size > 0 && |old(write_buffer.buffer)| < write_buffer.max_queue_length
                          then data[..size] else []
      ensures !old(is_closed) && locked ==> (is_closed <==> sock.calls > old(sock.calls) && sock.Last().Broken?)
      ensures !old(is_closed) && locked && sock.Takes(|old(write_buffer.Pending())| + size) ==>
                !is_closed && sock.wire == accepted && write_buffer.buffer == []
      ensures locked && !is_closed ==> InterestOk()
      ensures !locked ==> is_writing == old(is_writing) && is_closed == old(is_closed) && sock.wire == old(sock.wire)
      ensures !locked && accepted != old(accepted) ==> (InterestOk() <==> old(is_writing))
      ensures old(sock.wire) <= sock.wire && |write_buffer.buffer| <= |old(write_buffer.buffer)| + 1
      ensures write_buffer.Arrays() <= old(write_buffer.Arrays()) + {data}
    {
      if !is_closed {
        ghost var wire, pending := sock.wire, write_buffer.Pending();
        var ok := write_buffer.AppendShared(data, size, 0);
        if ok {
          accepted := accepted + data[..size];
          assert data[0..size] == data[..size];
          Regroup(wire, pending, data[..size]);
        } else {
          assert pending + [] == pending;
        }
        HandleWrite(locked);
      }
    }

    method HandleClose()
      requires Valid()
      modifies this`is_closed, this`closings
      ensures Valid() && is_closed
    {
      Close();
    }
  }

  /** A message sent while the lock is busy waits without write interest. */
  method BusyLockLeavesNoInterest(sock: Socket) returns (conn: TcpConnection)
    requires sock.wire == []
    modifies sock
    ensures fresh(conn) && conn.Valid() && !conn.is_closed && conn.accepted == [1] && !conn.InterestOk()
  {
    conn := new TcpConnection(sock);
    conn.SendCopy([1], false);
  }
}
