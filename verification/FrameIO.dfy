/** Go's `protocol.Frame`: the struct, its in-place encoder and its decoders. */
module FrameIO {
  import opened Bytes
  import opened Wrappers
  import opened Streams
  import opened Frames

  /** The payload is a slice: the first `size` bytes of a backing array that the
      caller may own and go on using. */
  class Frame {
    var streamId: uint16
    var typ: byte
    var payload: array<byte>
    var size: nat

    ghost predicate Valid() reads this {
      size <= payload.Length
    }

    ghost function Value(): (f: FrameValue)
      requires Valid()
      reads this, payload
    {
      FrameValue(streamId, typ, payload[..size])
    }

    constructor (streamId: uint16, typ: byte, payload: array<byte>, size: nat)
      requires size <= payload.Length
      ensures Valid() && Value() == FrameValue(streamId, typ, payload[..size])
      ensures this.payload == payload && this.size == size
    {
      this.streamId, this.typ, this.payload, this.size := streamId, typ, payload, size;
    }

    /** The bytes returned are a copy: they do not share the payload's backing array. */
    method MarshalBinary() returns (r: Result<array<byte>, FrameError>)
      requires Valid()
      ensures r.Success? <==> Fits(Value())
      ensures r.Failure? ==> r.error == TooLarge
      ensures r.Success? ==> fresh(r.value) && r.value[..] == Encode(Value())
      ensures r.Success? ==>
                && r.value.Length == 7 + size && r.value[2] == typ && r.value[7..] == payload[..size]
                && Bytes.Value(r.value[..2]) == streamId && Bytes.Value(r.value[3..7]) == size
    {
      if size > MAX_PAYLOAD {
        return Failure(TooLarge);
      }
      var buf := new byte[HEADER_SIZE + size];
      var id, len := PutU16(streamId), PutU32(size);
      buf[0], buf[1] := id[0], id[1];
      buf[2] := typ;
      buf[3], buf[4], buf[5], buf[6] := len[0], len[1], len[2], len[3];
      forall i | 0 <= i < size {
        buf[HEADER_SIZE + i] := payload[i];
      }
      assert buf[..] == id + [typ] + len + payload[..size];
      EncodeLayout(Value());
      assert buf[..2] == buf[..][..2] && buf[3..7] == buf[..][3..7] && buf[7..] == buf[..][7..];
      return Success(buf);
    }

    /** The identifier and the type are overwritten even when the payload is then refused. */
    method UnmarshalBinary(w: Word, data: array<byte>) returns (r: Result<(), FrameError>)
      requires Valid()
      modifies this
      ensures Valid()
      ensures r.Success? <==> Accepts(data[..])
      ensures r.Success? ==> Value() == FrameOf(data[..]) && fresh(payload)
      ensures r.Failure? ==> Unmarshal(w, data[..]) == Failure(r.error) && payload == old(payload) && size == old(size)
      ensures data.Length < HEADER_SIZE ==> streamId == old(streamId) && typ == old(typ)
      ensures data.Length >= HEADER_SIZE ==> streamId == GetU16(data[..2]) && typ == data[2]
    {
      DecodersAgree(w, data[..]);
      if data.Length < HEADER_SIZE {
        return Failure(TooShort);
      }
      streamId := GetU16(data[..2]);
      typ := data[2];
      var length := GetU32(data[3..7]);
      assert data[..][3..7] == data[3..7] && data[..][..2] == data[..2];
      if data.Length < Wrap(w, HEADER_SIZE + Wrap(w, length)) {
        return Failure(Truncated);
      }
      if length > MAX_PAYLOAD {
        return Failure(TooLarge);
      }
      CopyPayload(data, length);
      return Success(());
    }

    method CopyPayload(data: array<byte>, length: nat)
      requires HEADER_SIZE + length <= data.Length
      modifies this`payload, this`size
      ensures fresh(payload) && size == length == payload.Length
      ensures payload[..size] == data[..][HEADER_SIZE..HEADER_SIZE + length]
    {
      var copied := new byte[length];
      forall i | 0 <= i < length {
        copied[i] := data[HEADER_SIZE + i];
      }
      payload, size := copied, length;
    }

    method WriteTo(w: Sink) returns (r: Result<(), FrameError>, sent: bool)
      requires Valid()
      modifies w
      ensures r.Success? <==> Fits(Value())
      ensures r.Failure? ==> w.written == old(w.written) && w.room == old(w.room) && !sent
      ensures r.Success? ==>
                var data := Encode(Value());
                && sent == (|data| <= old(w.room))
                && w.written == old(w.written) + data[..Min(|data|, old(w.room))]
                && w.room == old(w.room) - Min(|data|, old(w.room))
    {
      var m := MarshalBinary();
      match m
      case Failure(e) => return Failure(e), false;
      case Success(data) =>
        sent := w.Write(data[..]);
        return Success(()), sent;
    }
  }

  /** `ReadFrom`: takes exactly one frame off the stream, however it is split. */
  method ReadFrame(r: Stream) returns (res: Result<Frame, FrameError>)
    modifies r
    ensures res.Success? <==> Accepts(old(r.rest))
    ensures r.rest == ReadFrom(old(r.rest)).1
    ensures res.Success? ==>
              && fresh(res.value) && res.value.Valid() && fresh(res.value.payload)
              && res.value.Value() == FrameOf(old(r.rest))
    ensures res.Failure? ==> ReadFrom(old(r.rest)).0 == Failure(res.error)
    ensures |r.plan| <= |old(r.plan)|
  {
    ghost var s := r.rest;
    var header := new byte[HEADER_SIZE];
    var status := ReadFull(r, header);
    if !status.Complete? {
      return Failure(HeaderCut);
    }
    var streamId := GetU16(header[..2]);
    var typ := header[2];
    var length := GetU32(header[3..7]);
    assert header[..2] == s[..2] && header[3..7] == s[3..7];
    if length > MAX_PAYLOAD {
      return Failure(TooLarge);
    }
    var payload := new byte[length];
    if length > 0 {
      status := ReadFull(r, payload);
      if !status.Complete? {
        return Failure(PayloadCut);
      }
    }
    assert payload[..] == s[HEADER_SIZE..HEADER_SIZE + length];
    assert r.rest == s[HEADER_SIZE + length..];
    var f := new Frame(streamId, typ, payload, length);
    assert payload[..length] == payload[..];
    return Success(f);
  }
}
