/** The cached descriptor sets of rtsp-server/net/SelectTaskScheduler.cpp. */
module SelectScheduler {
  /** A channel of rtsp-server/net/Channel.h: its socket and the interest bits
      that the select scheduler looks at. */
  class Channel {
    const socket: nat
    var reading: bool
    var writing: bool
    var other: bool   // any other interest bit

    constructor (socket: nat)
      ensures this.socket == socket && !reading && !writing && !other
    {
      this.socket := socket;
      reading, writing, other := false, false, false;
    }

    predicate IsNoneEvent()
      reads this
    {
      !reading && !writing && !other
    }
  }

  /** The largest element, and 0 when there is none. */
  ghost predicate IsMax(s: set<nat>, m: nat) {
    && (forall x :: x in s ==> x <= m)
    && (if s == {} then m == 0 else m in s)
  }

  ghost function With(s: set<nat>, fd: nat, on: bool): set<nat> {
    if on then s + {fd} else s - {fd}
  }

  class SelectScheduler {
    var fd_read_backup: set<nat>
    var fd_write_backup: set<nat>
    var fd_exp_backup: set<nat>
    var maxfd: nat
    var is_fd_read_reset: bool
    var is_fd_write_reset: bool
    var is_fd_exp_reset: bool
    var channels: map<nat, Channel>

    /** Channels are registered under their own sockets. */
    ghost predicate Registered()
      reads `channels
    {
      forall fd :: fd in channels ==> channels[fd].socket == fd
    }

    /** What a full recomputation from the channels gives. */
    ghost function ReadSet(): set<nat>
      reads `channels, channels.Values`reading
    {
      set fd | fd in channels && channels[fd].reading
    }

    ghost function WriteSet(): set<nat>
      reads `channels, channels.Values`writing
    {
      set fd | fd in channels && channels[fd].writing
    }

    /** A cached set is right unless it is marked for recomputation. */
    ghost predicate CacheOk()
      reads this, channels.Values
    {
      && (is_fd_read_reset || fd_read_backup == ReadSet())
      && (is_fd_write_reset || fd_write_backup == WriteSet())
      && (is_fd_exp_reset || (fd_exp_backup == channels.Keys && IsMax(channels.Keys, maxfd)))
    }

    ghost predicate Valid()
      reads this, channels.Values
    {
      Registered() && CacheOk()
    }

    constructor ()
      ensures Valid() && channels == map[]
    {
      fd_read_backup, fd_write_backup, fd_exp_backup := {}, {}, {};
      maxfd := 0;
      is_fd_read_reset, is_fd_write_reset, is_fd_exp_reset := false, false, false;
      channels := map[];
    }

    /** A change of interest followed by `UpdateChannel`. The update of a channel
        that stays registered marks the write set only, so the caches stay right if
        and only if the channel joins or leaves, keeps its read bit, is not the one
        registered under its socket, or the read set is to be recomputed anyway. */
    method SetInterest(channel: Channel, reading: bool, writing: bool, other: bool)
      requires Valid()
      modifies this, channel
      ensures Registered() && channel.reading == reading && channel.writing == writing && channel.other == other
      ensures fd_read_backup == old(fd_read_backup)
      ensures channels == if channel.IsNoneEvent() then old(channels) - {channel.socket}
                          else if channel.socket in old(channels) then old(channels)
                          else old(channels)[channel.socket := channel]
      ensures Valid() <==>
              || channel.socket !in old(channels)
              || channel.IsNoneEvent()
              || old(channels)[channel.socket] != channel
              || reading == old(channel.reading)
              || old(is_fd_read_reset)
    {
      hide IsMax, SelectScheduler.ReadSet, SelectScheduler.WriteSet;
      ghost var fd, was := channel.socket, channel.reading;
      ghost var readers, writers, own := ReadSet(), WriteSet(), IsOwn(channel);
      ghost var known := fd in channels;
      ReadersHave(channel);
      SetEvents(channel, reading, writing, other);
      UpdateChannel(channel);
      if !known && channel.IsNoneEvent() {
        assert readers - {fd} == readers && writers - {fd} == writers;
      } else if own && !channel.IsNoneEvent() && reading == was {
        assert With(readers, fd, reading) == readers;
      } else if own && !channel.IsNoneEvent() {
        assert fd in ReadSet() <==> reading;
        assert fd in readers <==> was;
      }
    }

    /** The channel is the one registered under its socket. */
    predicate IsOwn(channel: Channel)
      reads `channels
    {
      channel.socket in channels && channels[channel.socket] == channel
    }

    lemma ReadersHave(channel: Channel)
      requires Registered()
      ensures IsOwn(channel) ==> (channel.socket in ReadSet() <==> channel.reading)
      ensures IsOwn(channel) ==> (channel.socket in WriteSet() <==> channel.writing)
      ensures channel.socket !in channels ==> channel.socket !in ReadSet() && channel.socket !in WriteSet()
    {
    }

    method SetEvents(channel: Channel, reading: bool, writing: bool, other: bool)
      requires Registered()
      modifies channel
      ensures channel.reading == reading && channel.writing == writing && channel.other == other
      ensures ReadSet() == if IsOwn(channel) then With(old(ReadSet()), channel.socket, reading) else old(ReadSet())
      ensures WriteSet() == if IsOwn(channel) then With(old(WriteSet()), channel.socket, writing) else old(WriteSet())
    {
      ReadersHave(channel);
      assert forall fd :: fd in channels && channels[fd] == channel ==> fd == channel.socket;
      channel.reading, channel.writing, channel.other := reading, writing, other;
    }

    /** Marks all three sets for recomputation. */
    method MarkAll()
      modifies this`is_fd_read_reset, this`is_fd_write_reset, this`is_fd_exp_reset
      ensures is_fd_read_reset && is_fd_write_reset && is_fd_exp_reset
    {
      is_fd_read_reset, is_fd_write_reset, is_fd_exp_reset := true, true, true;
    }

    method UpdateChannel(channel: Channel)
      requires Registered()
      modifies this
      ensures Registered()
      ensures channels == if channel.IsNoneEvent() then old(channels) - {channel.socket}
                          else if channel.socket in old(channels) then old(channels)
                          else old(channels)[channel.socket := channel]
      ensures fd_read_backup == old(fd_read_backup) && fd_write_backup == old(fd_write_backup)
      ensures fd_exp_backup == old(fd_exp_backup) && maxfd == old(maxfd)
      ensures var joinsOrLeaves := (channel.socket in old(channels)) == channel.IsNoneEvent();
              && is_fd_read_reset == (old(is_fd_read_reset) || joinsOrLeaves)
              && is_fd_write_reset == (old(is_fd_write_reset) || joinsOrLeaves || channel.socket in old(channels))
              && is_fd_exp_reset == (old(is_fd_exp_reset) || joinsOrLeaves)
      ensures !channel.IsNoneEvent() && channel.socket in old(channels) ==>
                ReadSet() == old(ReadSet()) && WriteSet() == old(WriteSet())
      ensures channel.IsNoneEvent() ==>
                ReadSet() == old(ReadSet()) - {channel.socket} && WriteSet() == old(WriteSet()) - {channel.socket}
    {
      var socket := channel.socket;
      if socket in channels {
        if channel.IsNoneEvent() {
          MarkAll();
          channels := channels - {socket};
        } else {
          is_fd_write_reset := true;
        }
      } else {
        if !channel.IsNoneEvent() {
          channels := channels[socket := channel];
          MarkAll();
        }
      }
    }

    method RemoveChannel(channel: Channel)
      requires Valid()
      modifies this
      ensures Valid() && channels == old(channels) - {channel.socket}
    {
      var fd := channel.socket;
      if fd in channels {
        MarkAll();
        channels := channels - {fd};
      }
    }

    /** The part of `HandleEvent` up to `select`: what `select` is called with is
        what a full recomputation from the channels would give, although only the
        marked sets are recomputed. Without channels it only sleeps. */
    method PrepareSelect() returns (sleeps: bool, fd_read: set<nat>, fd_write: set<nat>, fd_exp: set<nat>, nfds: nat)
      requires Valid()
      modifies this
      ensures Valid() && channels == old(channels) && sleeps == (channels == map[])
      ensures !sleeps ==>
                && fd_read == ReadSet() && fd_write == WriteSet() && fd_exp == channels.Keys
                && nfds > 0 && IsMax(channels.Keys, nfds - 1)
      ensures !sleeps ==> !is_fd_read_reset && !is_fd_write_reset && !is_fd_exp_reset
    {
      hide SelectScheduler.ReadSet, SelectScheduler.WriteSet, SelectScheduler.Registered, IsMax;
      fd_read, fd_write, fd_exp, nfds := {}, {}, {}, 0;
      if |channels| == 0 {
        return true, fd_read, fd_write, fd_exp, nfds;
      }
      var fd_read_reset, fd_write_reset, fd_exp_reset;
      fd_read, fd_write, fd_exp, fd_read_reset, fd_write_reset, fd_exp_reset := Recompute();
      fd_read_backup := if fd_read_reset then fd_read else fd_read_backup;
      fd_write_backup := if fd_write_reset then fd_write else fd_write_backup;
      fd_exp_backup := if fd_exp_reset then fd_exp else fd_exp_backup;
      return false, fd_read_backup, fd_write_backup, fd_exp_backup, maxfd + 1;
    }

    /** Recomputes the marked sets and takes the marks off. */
    method Recompute() returns (fd_read: set<nat>, fd_write: set<nat>, fd_exp: set<nat>,
                                fd_read_reset: bool, fd_write_reset: bool, fd_exp_reset: bool)
      requires Registered()
      modifies this`maxfd, this`is_fd_read_reset, this`is_fd_write_reset, this`is_fd_exp_reset
      ensures !is_fd_read_reset && !is_fd_write_reset && !is_fd_exp_reset
      ensures fd_read_reset == old(is_fd_read_reset) && (fd_read_reset ==> fd_read == ReadSet())
      ensures fd_write_reset == old(is_fd_write_reset) && (fd_write_reset ==> fd_write == WriteSet())
      ensures fd_exp_reset == old(is_fd_exp_reset)
      ensures if fd_exp_reset then fd_exp == channels.Keys && IsMax(channels.Keys, maxfd) else maxfd == old(maxfd)
    {
      hide SelectScheduler.ReadSet, SelectScheduler.WriteSet, SelectScheduler.Registered, IsMax;
      fd_read, fd_write, fd_exp := {}, {}, {};
      fd_read_reset, fd_write_reset, fd_exp_reset := false, false, false;
      if is_fd_read_reset || is_fd_write_reset || is_fd_exp_reset {
        fd_read, fd_write, fd_exp := Collect();
        fd_read_reset, fd_write_reset, fd_exp_reset := is_fd_read_reset, is_fd_write_reset, is_fd_exp_reset;
        is_fd_read_reset, is_fd_write_reset, is_fd_exp_reset := false, false, false;
      }
    }

    /** The loop over the channels: it fills only the sets that are marked. */
    method Collect() returns (fd_read: set<nat>, fd_write: set<nat>, fd_exp: set<nat>)
      requires Registered()
      modifies this`maxfd
      ensures is_fd_read_reset ==> fd_read == ReadSet()
      ensures is_fd_write_reset ==> fd_write == WriteSet()
      ensures is_fd_exp_reset ==> fd_exp == channels.Keys && IsMax(channels.Keys, maxfd)
      ensures !is_fd_exp_reset ==> maxfd == old(maxfd)
    {
      fd_read, fd_write, fd_exp := {}, {}, {};
      if is_fd_exp_reset {
        maxfd := 0;
      }
      var todo := channels.Keys;
      while todo != {}
        invariant todo <= channels.Keys
        invariant is_fd_read_reset ==> fd_read == ReadSet() - todo
        invariant is_fd_write_reset ==> fd_write == WriteSet() - todo
        invariant is_fd_exp_reset ==> fd_exp == channels.Keys - todo && IsMax(channels.Keys - todo, maxfd)
        invariant !is_fd_exp_reset ==> maxfd == old(maxfd)
        decreases todo
      {
        var fd :| fd in todo;
        var channel := channels[fd];
        if is_fd_read_reset && channel.reading {
          fd_read := fd_read + {channel.socket};
        }
        if is_fd_write_reset && channel.writing {
          fd_write := fd_write + {channel.socket};
        }
        if is_fd_exp_reset {
          fd_exp := fd_exp + {channel.socket};
          if channel.socket > maxfd {
            maxfd := channel.socket;
          }
        }
        todo := todo - {fd};
      }
    }
  }

  /** A registered channel that stops reading stays in the cached read set. */
  method ReadInterestGoesStale() returns (scheduler: SelectScheduler)
    ensures fresh(scheduler) && !scheduler.Valid()
    ensures 3 in scheduler.fd_read_backup && 3 !in scheduler.ReadSet()
  {
    scheduler := new SelectScheduler();
    var channel := new Channel(3);
    scheduler.SetInterest(channel, true, false, false);
    var sleeps, fd_read, fd_write, fd_exp, nfds := scheduler.PrepareSelect();
    assert 3 in scheduler.channels && 3 in scheduler.ReadSet();
    scheduler.SetInterest(channel, false, true, false);
  }
}
