/** Byte sources and sinks: an `io.Reader` that may split its data in any way,
    `io.ReadFull`, and an `io.Writer` that may break at any byte. */
module Streams {
  import opened Bytes

  /** One call of `Read`: at most `n` bytes are delivered, and when these are the
      last ones `early` says whether end of file is reported along with them. */
  datatype Slice = Slice(n: nat, early: bool)

  function Min(a: nat, b: nat): nat {
    if a < b then a else b
  }

  /** How many bytes the next `Read` into `room` bytes delivers. */
  function ReadSize(rest: seq<byte>, plan: seq<Slice>, room: nat): (n: nat)
    ensures n <= |rest| && n <= room
    ensures n == 0 && rest != [] && room > 0 ==> plan != []
  {
    var all := Min(|rest|, room);
    if plan == [] then all else Min(plan[0].n, all)
  }

  /** Whether the next `Read` reports end of file. */
  predicate ReadEof(rest: seq<byte>, plan: seq<Slice>, room: nat) {
    || rest == []
    || (plan != [] && plan[0].early && ReadSize(rest, plan, room) == |rest|)
  }

  function PlanTail(plan: seq<Slice>): (t: seq<Slice>) {
    if plan == [] then [] else plan[1..]
  }

  /** A reader: the bytes still to come and the way it will split them. Once the
      plan is used up it delivers as much as fits. */
  class Stream {
    var rest: seq<byte>
    var plan: seq<Slice>

    constructor (rest: seq<byte>, plan: seq<Slice>)
      ensures this.rest == rest && this.plan == plan
    {
      this.rest, this.plan := rest, plan;
    }

    /** Reads into `buf[at..]`. */
    method Read(buf: array<byte>, at: nat) returns (n: nat, eof: bool)
      requires at < buf.Length
      modifies this, buf
      ensures n == ReadSize(old(rest), old(plan), buf.Length - at)
      ensures eof == ReadEof(old(rest), old(plan), buf.Length - at)
      ensures rest == old(rest)[n..] && plan == PlanTail(old(plan))
      ensures n == 0 ==> if eof then old(rest) == [] else |plan| < |old(plan)|
      ensures forall i :: at <= i < at + n ==> buf[i] == old(rest)[i - at]
      ensures forall i :: 0 <= i < at || at + n <= i < buf.Length ==> buf[i] == old(buf[i])
    {
      n := ReadSize(rest, plan, buf.Length - at);
      eof := ReadEof(rest, plan, buf.Length - at);
      forall i | 0 <= i < n {
        buf[at + i] := rest[i];
      }
      rest, plan := rest[n..], PlanTail(plan);
    }
  }

  datatype ReadStatus = Complete | Eof | UnexpectedEof

  /** `io.ReadFull`: what it delivers depends on the bytes to come only, never on
      how the reader splits them. */
  method ReadFull(r: Stream, buf: array<byte>) returns (status: ReadStatus)
    modifies r, buf
    ensures status.Complete? <==> buf.Length <= |old(r.rest)|
    ensures status.Complete? ==> buf[..] == old(r.rest)[..buf.Length] && r.rest == old(r.rest)[buf.Length..]
    ensures !status.Complete? ==> r.rest == [] && (status.Eof? <==> old(r.rest) == [])
    ensures |r.plan| <= |old(r.plan)|
  {
    var n, eof := 0, false;
    while n < buf.Length && !eof
      invariant 0 <= n <= buf.Length && n <= |old(r.rest)|
      invariant forall i :: 0 <= i < n ==> buf[i] == old(r.rest)[i]
      invariant r.rest == old(r.rest)[n..]
      invariant eof ==> r.rest == []
      invariant |r.plan| <= |old(r.plan)|
      decreases !eof, |r.rest| + |r.plan|
    {
      var k;
      k, eof := r.Read(buf, n);
      n := n + k;
    }
    if n == buf.Length {
      status := Complete;
    } else if n > 0 {
      status := UnexpectedEof;
    } else {
      status := Eof;
    }
  }

  /** A writer that takes `room` more bytes and then breaks. */
  class Sink {
    var written: seq<byte>
    var room: nat

    constructor (room: nat)
      ensures this.room == room && written == []
    {
      this.room, written := room, [];
    }

    method Write(data: seq<byte>) returns (ok: bool)
      modifies this
      ensures ok == (|data| <= old(room))
      ensures written == old(written) + data[..Min(|data|, old(room))]
      ensures room == old(room) - Min(|data|, old(room))
    {
      var k := Min(|data|, room);
      ok := |data| <= room;
      written, room := written + data[..k], room - k;
    }
  }
}
