/** The ring of rtsp-server/net/RingBuffer.h as one thread sees it. */
module RingBuffer {
  /** The slot `i` places behind `pos`. */
  function Behind(pos: nat, i: nat, capacity: nat): nat {
    if pos + i < capacity then pos + i else pos + i - capacity
  }

  class RingBuffer<T(0)> {
    const capacity: nat
    var put_pos: nat
    var get_pos: nat
    var num_datas: nat
    const buffer: array<T>

    constructor (capacity: nat)
      ensures Valid() && this.capacity == capacity && Contents() == [] && fresh(buffer)
    {
      this.capacity := capacity;
      put_pos, get_pos, num_datas := 0, 0, 0;
      buffer := new T[capacity];
    }

    ghost predicate Valid()
      reads this
    {
      && buffer.Length == capacity && num_datas <= capacity
      && (if capacity == 0 then get_pos == 0 else get_pos < capacity)
      && (if capacity == 0 then put_pos == 0 else put_pos == Behind(get_pos, num_datas, capacity))
    }

    /** What is queued, oldest first. */
    ghost function Contents(): (s: seq<T>)
      requires Valid()
      reads this, buffer
      ensures |s| == num_datas
    {
      seq(num_datas, i requires 0 <= i < num_datas && Valid() reads this, buffer =>
        buffer[Behind(get_pos, i, capacity)])
    }

    method Add(pos: nat) returns (next: nat)
      requires pos < capacity
      ensures next == Behind(pos, 1, capacity)
    {
      next := if pos + 1 == capacity then 0 else pos + 1;
    }

    /** Appends unless the ring is full. */
    method Push(data: T) returns (ok: bool)
      requires Valid()
      modifies this, buffer
      ensures Valid()
      ensures ok <==> |old(Contents())| < capacity
      ensures Contents() == old(Contents()) + if ok then [data] else []
    {
      if num_datas < capacity {
        buffer[put_pos] := data;
        put_pos := Add(put_pos);
        num_datas := num_datas + 1;
        return true;
      }
      return false;
    }

    /** Takes the oldest element unless the ring is empty. */
    method Pop(default: T) returns (ok: bool, data: T)
      requires Valid()
      modifies this
      ensures Valid()
      ensures ok <==> old(Contents()) != []
      ensures if ok then [data] + Contents() == old(Contents()) else Contents() == [] && data == default
    {
      if num_datas > 0 {
        data := buffer[get_pos];
        get_pos := Add(get_pos);
        num_datas := num_datas - 1;
        return true, data;
      }
      return false, default;
    }
  }
}
