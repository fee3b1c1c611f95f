/** The relay handshake and its acknowledgement. */
module Handshake {
  import opened Bytes
  import opened Wrappers
  import opened Streams

  const MAGIC: seq<byte> := [0x43, 0x42, 0x4C, 0x44] // "CBLD"
  const VERSION: byte := 0x01
  const PEER_INITIATOR: byte := 0x01
  const PEER_RESPONDER: byte := 0x02
  const STATUS_OK: byte := 0x00
  const STATUS_ERROR: byte := 0x01
  const MAX_ID := 256
  const MAX_U16 := 65535

  type SessionId = seq<byte>

  datatype Hello = Hello(id: SessionId, peerType: byte)

  datatype HelloError =
    | ReadMagic | InvalidMagic | ReadVersion | UnsupportedVersion
    | ReadIdLength | InvalidIdLength | ReadId | ReadPeerType | InvalidPeerType | IdTooLong

  predicate ValidHello(h: Hello) {
    1 <= |h.id| <= MAX_ID && (h.peerType == PEER_INITIATOR || h.peerType == PEER_RESPONDER)
  }

  function EncodeHello(h: Hello): (r: seq<byte>)
    requires |h.id| <= MAX_U16
    ensures |r| == 8 + |h.id|
  {
    MAGIC + [VERSION] + PutU16(|h.id|) + h.id + [h.peerType]
  }

  /** What `ReadHandshake` makes of a byte stream. */
  function DecodeHello(s: seq<byte>): (r: Result<Hello, HelloError>) {
    if |s| < 4 then Failure(ReadMagic)
    else if s[..4] != MAGIC then Failure(InvalidMagic)
    else if |s| < 5 then Failure(ReadVersion)
    else if s[4] != VERSION then Failure(UnsupportedVersion)
    else if |s| < 7 then Failure(ReadIdLength)
    else
      var n := GetU16(s[5..7]);
      if n == 0 || n > MAX_ID then Failure(InvalidIdLength)
      else if |s| < 7 + n then Failure(ReadId)
      else if |s| < 8 + n then Failure(ReadPeerType)
      else if s[7 + n] != PEER_INITIATOR && s[7 + n] != PEER_RESPONDER then Failure(InvalidPeerType)
      else Success(Hello(s[7..7 + n], s[7 + n]))
  }

  /** The bytes of a handshake. */
  lemma HelloLayout(h: Hello)
    requires |h.id| <= 65535
    ensures var e := EncodeHello(h);
            && |e| == 8 + |h.id| && e[..4] == [0x43, 0x42, 0x4C, 0x44] && e[4] == 0x01
            && Value(e[5..7]) == |h.id| && e[7..7 + |h.id|] == h.id && e[7 + |h.id|] == h.peerType
  {
    U16IsBigEndian(|h.id|, [0, 0]);
    assert EncodeHello(h)[5..7] == PutU16(|h.id|);
  }

  /** The bytes begin as a handshake of this version does. */
  predicate Begun(s: seq<byte>) {
    |s| >= 5 && s[..4] == [0x43, 0x42, 0x4C, 0x44] && s[4] == 0x01
  }

  /** What is made of any bytes, and which error is found first. */
  lemma HelloOutcomes(s: seq<byte>)
    ensures DecodeHello(s) == Failure(ReadMagic) <==> |s| < 4
    ensures DecodeHello(s) == Failure(InvalidMagic) <==> |s| >= 4 && s[..4] != [0x43, 0x42, 0x4C, 0x44]
    ensures DecodeHello(s) == Failure(ReadVersion) <==> s == [0x43, 0x42, 0x4C, 0x44]
    ensures DecodeHello(s) == Failure(UnsupportedVersion) <==> |s| >= 5 && s[..4] == [0x43, 0x42, 0x4C, 0x44] && s[4] != 0x01
    ensures DecodeHello(s) == Failure(ReadIdLength) <==> Begun(s) && |s| < 7
    ensures Begun(s) && |s| >= 7 ==>
              var n := Value(s[5..7]);
              DecodeHello(s) ==
                if n == 0 || n > 256 then Failure(InvalidIdLength)
                else if |s| < 7 + n then Failure(ReadId)
                else if |s| == 7 + n then Failure(ReadPeerType)
                else if s[7 + n] != 0x01 && s[7 + n] != 0x02 then Failure(InvalidPeerType)
                else Success(Hello(s[7..7 + n], s[7 + n]))
  {
    if |s| >= 7 {
      U16IsBigEndian(0, s[5..7]);
    }
  }

  /** Reading back what was written gives it back exactly when it is valid; any
      other handshake that can be written is refused, the length test first. */
  lemma HelloRoundTripIff(h: Hello, rest: seq<byte>)
    requires |h.id| <= MAX_U16
    ensures DecodeHello(EncodeHello(h) + rest) ==
            if 1 <= |h.id| <= 256 then
              if h.peerType == 0x01 || h.peerType == 0x02 then Success(h) else Failure(InvalidPeerType)
            else Failure(InvalidIdLength)
  {
    var s := EncodeHello(h) + rest;
    U16RoundTrip(|h.id|);
    assert s[..4] == MAGIC && s[4] == VERSION && s[5..7] == PutU16(|h.id|);
    assert s[7..7 + |h.id|] == h.id && s[7 + |h.id|] == h.peerType;
  }

  /** The acceptance domain: an input is accepted exactly when it starts with the
      encoding of a valid handshake, and that is the handshake read. */
  lemma HelloAcceptance(s: seq<byte>)
    ensures forall h :: DecodeHello(s) == Success(h) <==> ValidHello(h) && EncodeHello(h) <= s
  {
    forall h | ValidHello(h) && EncodeHello(h) <= s ensures DecodeHello(s) == Success(h) {
      HelloRoundTripIff(h, s[|EncodeHello(h)|..]);
      assert s == EncodeHello(h) + s[|EncodeHello(h)|..];
    }
    forall h | DecodeHello(s) == Success(h) ensures ValidHello(h) && EncodeHello(h) <= s {
      HelloPrefix(s);
    }
  }

  lemma HelloPrefix(s: seq<byte>)
    requires DecodeHello(s).Success?
    ensures var h := DecodeHello(s).value;
            ValidHello(h) && |s| >= 8 + |h.id| && EncodeHello(h) == s[..8 + |h.id|]
  {
    U16Canonical(s[5..7]);
  }

  // ---------------------------------------------------------------- the acknowledgement

  datatype Ack = Accepted | Rejected(msg: seq<byte>)

  datatype AckError = AckReadMagic | AckInvalidMagic | AckReadStatus | AckReadLength | AckReadMessage

  function Cut(msg: seq<byte>): (r: seq<byte>)
    ensures |r| <= MAX_U16
  {
    if |msg| > MAX_U16 then msg[..MAX_U16] else msg
  }

  function EncodeAck(a: Ack): (r: seq<byte>) {
    match a
    case Accepted => MAGIC + [STATUS_OK]
    case Rejected(msg) => MAGIC + [STATUS_ERROR] + PutU16(|Cut(msg)|) + Cut(msg)
  }

  /** What `ReadHandshakeAck` makes of a byte stream, and how much of it. */
  function DecodeAck(s: seq<byte>): (r: Result<(Ack, nat), AckError>)
    ensures r.Success? ==> r.value.1 <= |s|
  {
    if |s| < 4 then Failure(AckReadMagic)
    else if s[..4] != MAGIC then Failure(AckInvalidMagic)
    else if |s| < 5 then Failure(AckReadStatus)
    else if s[4] == STATUS_OK then Success((Accepted, 5))
    else if |s| < 7 then Failure(AckReadLength)
    else
      var n := GetU16(s[5..7]);
      if |s| < 7 + n then Failure(AckReadMessage)
      else Success((Rejected(s[7..7 + n]), 7 + n))
  }

  /** The bytes of an acknowledgement; a long reason is cut. */
  lemma AckLayout(msg: seq<byte>)
    ensures EncodeAck(Accepted) == [0x43, 0x42, 0x4C, 0x44, 0x00]
    ensures var e, m := EncodeAck(Rejected(msg)), if |msg| > 65535 then msg[..65535] else msg;
            && |e| == 7 + |m| && e[..4] == [0x43, 0x42, 0x4C, 0x44] && e[4] == 0x01
            && Value(e[5..7]) == |m| && e[7..] == m
  {
    var m := Cut(msg);
    U16IsBigEndian(|m|, [0, 0]);
    assert EncodeAck(Rejected(msg))[5..7] == PutU16(|m|);
  }

  /** What is made of any bytes: a status of zero accepts, any other gives a reason. */
  lemma AckOutcomes(s: seq<byte>)
    ensures DecodeAck(s) == Failure(AckReadMagic) <==> |s| < 4
    ensures DecodeAck(s) == Failure(AckInvalidMagic) <==> |s| >= 4 && s[..4] != [0x43, 0x42, 0x4C, 0x44]
    ensures DecodeAck(s) == Failure(AckReadStatus) <==> s == [0x43, 0x42, 0x4C, 0x44]
    ensures |s| >= 5 && s[..4] == [0x43, 0x42, 0x4C, 0x44] ==>
              DecodeAck(s) ==
                if s[4] == 0x00 then Success((Accepted, 5))
                else if |s| < 7 then Failure(AckReadLength)
                else if |s| < 7 + Value(s[5..7]) then Failure(AckReadMessage)
                else Success((Rejected(s[7..7 + Value(s[5..7])]), 7 + Value(s[5..7])))
  {
    if |s| >= 7 {
      U16IsBigEndian(0, s[5..7]);
    }
  }

  /** An acknowledgement is read back from the bytes it was written to, whatever
      follows; an error message comes back cut to 65535 bytes. */
  lemma AckRoundTrip(a: Ack, rest: seq<byte>)
    ensures DecodeAck(EncodeAck(a) + rest) ==
            Success((if a.Accepted? then a else Rejected(if |a.msg| > 65535 then a.msg[..65535] else a.msg), |EncodeAck(a)|))
  {
    var s := EncodeAck(a) + rest;
    assert s[..4] == MAGIC;
    match a
    case Accepted =>
    case Rejected(msg) =>
      var n := |Cut(msg)|;
      U16RoundTrip(n);
      assert s[4] == STATUS_ERROR && s[5..7] == PutU16(n) && s[7..7 + n] == Cut(msg);
  }

  /** A peer is told "accepted" exactly by the five bytes of the positive acknowledgement. */
  lemma AckAcceptance(s: seq<byte>)
    ensures DecodeAck(s) == Success((Accepted, 5)) <==> EncodeAck(Accepted) <= s
  {
    if EncodeAck(Accepted) <= s {
      assert s[..4] == s[..5][..4] == MAGIC;
    }
  }

  // ---------------------------------------------------------------- writing and reading

  method WriteHandshake(conn: Sink, id: SessionId, peerType: byte) returns (r: Result<bool, HelloError>)
    modifies conn
    ensures r.Failure? <==> |id| > MAX_U16
    ensures r.Failure? ==> r.error == IdTooLong && conn.written == old(conn.written) && conn.room == old(conn.room)
    ensures r.Success? ==>
              var data := EncodeHello(Hello(id, peerType));
              && conn.written == old(conn.written) + data[..Min(|data|, old(conn.room))]
              && r.value == (|data| <= old(conn.room))
  {
    if |id| > MAX_U16 {
      return Failure(IdTooLong);
    }
    var buf := MAGIC;
    buf := buf + [VERSION];
    buf := buf + [|id| / 0x100, |id| % 0x100];
    buf := buf + id;
    buf := buf + [peerType];
    assert buf == EncodeHello(Hello(id, peerType));
    var sent := conn.Write(buf);
    return Success(sent);
  }

  method WriteHandshakeAck(conn: Sink, ok: bool, errMsg: seq<byte>) returns (sent: bool)
    modifies conn
    ensures var data := EncodeAck(if ok then Accepted else Rejected(errMsg));
            && conn.written == old(conn.written) + data[..Min(|data|, old(conn.room))]
            && sent == (|data| <= old(conn.room))
  {
    var buf := MAGIC;
    if ok {
      buf := buf + [STATUS_OK];
      sent := conn.Write(buf);
      return;
    }
    buf := buf + [STATUS_ERROR];
    var msg := errMsg;
    if |msg| > MAX_U16 {
      msg := msg[..MAX_U16];
    }
    buf := buf + [|msg| / 0x100, |msg| % 0x100];
    buf := buf + msg;
    assert buf == EncodeAck(Rejected(errMsg));
    sent := conn.Write(buf);
  }

  const BUFFER_SIZE := 4096

  /** How many bytes, of `avail` there are, the buffer takes from its source until it has
      `need` more or the source ends, and how the source will split what comes after. */
  function Pulled(avail: nat, plan: seq<Slice>, need: nat): (r: (nat, seq<Slice>))
    ensures r.0 <= avail && (need <= avail ==> need <= r.0)
    decreases avail + |plan|
  {
    if need == 0 || avail == 0 then (0, plan)
    else
      var k := PullSize(avail, plan);
      var more := Pulled(avail - k, PlanTail(plan), Rest(need, k));
      (k + more.0, more.1)
  }

  /** The size of one read into the whole buffer. */
  function PullSize(avail: nat, plan: seq<Slice>): (k: nat)
    ensures k <= avail && (k == 0 && avail > 0 ==> plan != [])
  {
    var all := Min(avail, BUFFER_SIZE);
    if plan == [] then all else Min(plan[0].n, all)
  }

  function Rest(need: nat, have: nat): nat {
    if need <= have then 0 else need - have
  }

  lemma PulledOnce(avail: nat, plan: seq<Slice>, need: nat)
    requires need > 0 && avail > 0
    ensures var k := PullSize(avail, plan);
            var more := Pulled(avail - k, PlanTail(plan), Rest(need, k));
            Pulled(avail, plan, need) == (k + more.0, more.1)
  {
  }

  lemma PulledNone(avail: nat, plan: seq<Slice>, need: nat)
    requires need == 0 || avail == 0
    ensures Pulled(avail, plan, need) == (0, plan)
  {
  }

  lemma {:induction false} PulledTwice(avail: nat, plan: seq<Slice>, a: nat, b: nat)
    ensures var (c, p) := Pulled(avail, plan, a);
            var more := Pulled(avail - c, p, Rest(a + b, c));
            Pulled(avail, plan, a + b) == (c + more.0, more.1)
    decreases avail + |plan|
  {
    hide Pulled, PullSize, PlanTail;
    if a == 0 || avail == 0 {
      PulledNone(avail, plan, a);
    } else {
      var k := PullSize(avail, plan);
      ShorterPlan(avail, plan);
      PulledOnce(avail, plan, a);
      PulledOnce(avail, plan, a + b);
      if a <= k {
        PulledNone(avail - k, PlanTail(plan), 0);
      } else {
        PulledTwice(avail - k, PlanTail(plan), a - k, b);
      }
    }
  }

  lemma ShorterPlan(avail: nat, plan: seq<Slice>)
    requires avail > 0
    ensures avail - PullSize(avail, plan) + |PlanTail(plan)| < avail + |plan|
  {
  }

  /** `bufio.Reader`: it may take more from its source than it is asked for. */
  class BufReader {
    const src: Stream
    var held: seq<byte>

    constructor (src: Stream)
      ensures this.src == src && held == []
    {
      this.src, held := src, [];
    }

    ghost function Pending(): seq<byte>
      reads this, src
    {
      held + src.rest
    }

    /** How many bytes will have been taken, with `used` already, once `need` more can be
        given, and the plan then. */
    ghost function Course(used: nat, need: nat): (nat, seq<Slice>)
      reads this, src
    {
      var more := Pulled(|src.rest|, src.plan, Rest(need, |held|));
      (used + more.0, more.1)
    }

    /** `Read`: from the buffer if it holds anything, else from the source, straight
        into a large request or through the buffer into a small one. */
    method Read(room: nat) returns (chunk: seq<byte>, eof: bool)
      requires room > 0
      modifies this, src
      ensures |chunk| <= room && chunk + Pending() == old(Pending())
      ensures eof ==> old(Pending()) == []
      ensures chunk == [] && !eof ==>
                || (|src.rest| + |src.plan| < old(|src.rest| + |src.plan|))
                || (|src.rest| + |src.plan| == old(|src.rest| + |src.plan|) && |held| < old(|held|))
      ensures |src.rest| <= old(|src.rest|)
      ensures room < BUFFER_SIZE && !eof ==>
                Course(old(|src.rest|) - |src.rest|, room - |chunk|) == old(Course(0, room))
    {
      if held == [] {
        var big := room >= BUFFER_SIZE;
        chunk, eof := Pull(if big then room else BUFFER_SIZE);
        if big || eof {
          return;
        }
        held := chunk;
      }
      var k := Min(|held|, room);
      assert held == held[..k] + held[k..];
      chunk, held, eof := held[..k], held[k..], false;
    }

    /** One `Read` of the source, its end of file held back until no bytes come. */
    method Pull(size: nat) returns (chunk: seq<byte>, eof: bool)
      requires size > 0
      modifies src
      ensures |chunk| <= size && chunk + src.rest == old(src.rest)
      ensures eof <==> old(src.rest) == []
      ensures chunk == [] && !eof ==> |src.plan| < old(|src.plan|)
      ensures |src.plan| <= old(|src.plan|)
      ensures src.plan == PlanTail(old(src.plan))
      ensures size == BUFFER_SIZE ==> |chunk| == PullSize(old(|src.rest|), old(src.plan))
    {
      var tmp := new byte[size];
      ghost var s := src.rest;
      var k, end := src.Read(tmp, 0);
      assert tmp[..k] == s[..k];
      return tmp[..k], end && k == 0;
    }

    /** One `Read` of a full read, at offset `at` of the stream `s`. */
    method TakeSome(room: nat, ghost s: seq<byte>, ghost at: nat) returns (chunk: seq<byte>, eof: bool)
      requires room > 0 && at <= |s| && Pending() == s[at..]
      modifies this, src
      ensures |chunk| <= room && at + |chunk| <= |s|
      ensures chunk == s[at..at + |chunk|] && Pending() == s[at + |chunk|..]
      ensures eof ==> chunk == [] && at == |s|
      ensures chunk == [] && !eof ==>
                || (|src.rest| + |src.plan| < old(|src.rest| + |src.plan|))
                || (|src.rest| + |src.plan| == old(|src.rest| + |src.plan|) && |held| < old(|held|))
      ensures |src.rest| <= old(|src.rest|)
      ensures room < BUFFER_SIZE && !eof ==>
                Course(old(|src.rest|) - |src.rest|, room - |chunk|) == old(Course(0, room))
    {
      hide Course;
      chunk, eof := Read(room);
      Advance(s, at, chunk, Pending());
    }

    lemma Later(used: nat, more: nat, need: nat)
      ensures Course(used + more, need) == (used + Course(more, need).0, Course(more, need).1)
    {
    }

    lemma Satisfied(used: nat)
      ensures Course(used, 0) == (used, src.plan)
    {
    }

    /** `io.ReadFull` through the buffer, at offset `at` of the stream `s`. */
    method Take(n: nat, ghost s: seq<byte>, ghost at: nat) returns (data: seq<byte>, ok: bool)
      requires at <= |s| && Pending() == s[at..]
      modifies this, src
      ensures ok <==> at + n <= |s|
      ensures ok ==> data == s[at..at + n] && Pending() == s[at + n..]
      ensures |src.rest| <= old(|src.rest|)
      ensures ok && n < BUFFER_SIZE ==> old(Course(0, n)) == (old(|src.rest|) - |src.rest|, src.plan)
    {
      data := [];
      var eof := false;
      hide Course;
      while |data| < n && !eof
        invariant |data| <= n && at + |data| <= |s|
        invariant data == s[at..at + |data|] && Pending() == s[at + |data|..]
        invariant eof ==> |data| < n && at + |data| == |s|
        invariant |src.rest| <= old(|src.rest|)
        invariant n < BUFFER_SIZE && !eof ==>
                    Course(old(|src.rest|) - |src.rest|, n - |data|) == old(Course(0, n))
        decreases !eof, n - |data|, |src.rest| + |src.plan|, |held|
      {
        ghost var m, used := |data|, old(|src.rest|) - |src.rest|;
        Later(used, 0, n - m);
        var chunk;
        chunk, eof := TakeSome(n - |data|, s, at + m);
        data := data + chunk;
        Appended(s, at, m, |chunk|);
        Later(used, old(|src.rest|) - used - |src.rest|, n - |data|);
      }
      Satisfied(old(|src.rest|) - |src.rest|);
      ok := |data| == n;
    }
  }

  lemma Appended(s: seq<byte>, at: nat, m: nat, n: nat)
    requires at + m + n <= |s|
    ensures s[at..at + m] + s[at + m..at + m + n] == s[at..at + m + n]
  {
  }

  lemma Advance(s: seq<byte>, at: nat, chunk: seq<byte>, rest: seq<byte>)
    requires at <= |s| && chunk + rest == s[at..]
    ensures at + |chunk| <= |s| && chunk == s[at..at + |chunk|] && rest == s[at + |chunk|..]
  {
    assert chunk == (chunk + rest)[..|chunk|];
    assert rest == (chunk + rest)[|chunk|..];
  }

  /** `lost` is what the throw-away buffer took beyond the handshake: bytes the
      connection no longer has. */
  method ReadHandshake(conn: Stream) returns (r: Result<Hello, HelloError>, lost: seq<byte>)
    modifies conn
    ensures r == DecodeHello(old(conn.rest))
    ensures r.Success? ==> EncodeHello(r.value) + lost + conn.rest == old(conn.rest)
  {
    ghost var s := conn.rest;
    var reader := new BufReader(conn);
    assert reader.Pending() == s[0..];
    hide EncodeHello, BufReader.Course, Pulled;
    var magic, ok := reader.Take(4, s, 0);
    if !ok {
      return Failure(ReadMagic), reader.held;
    }
    if magic != MAGIC {
      return Failure(InvalidMagic), reader.held;
    }
    var version;
    version, ok := reader.Take(1, s, 4);
    if !ok {
      return Failure(ReadVersion), reader.held;
    }
    if version != [VERSION] {
      return Failure(UnsupportedVersion), reader.held;
    }
    r := ReadHelloBody(reader, s);
    if r.Success? {
      HelloPrefix(s);
      var n := 8 + |r.value.id|;
      assert s == s[..n] + s[n..];
    }
    return r, reader.held;
  }

  /** The part after the version byte. */
  method ReadHelloBody(reader: BufReader, ghost s: seq<byte>) returns (r: Result<Hello, HelloError>)
    requires |s| >= 5 && s[..4] == MAGIC && s[4] == VERSION
    requires reader.Pending() == s[5..]
    modifies reader, reader.src
    ensures r == DecodeHello(s)
    ensures r.Success? ==> 8 + |r.value.id| <= |s| && reader.Pending() == s[8 + |r.value.id|..]
  {
    var lenBuf, ok := reader.Take(2, s, 5);
    if !ok {
      return Failure(ReadIdLength);
    }
    var n := GetU16(lenBuf);
    if n == 0 || n > MAX_ID {
      return Failure(InvalidIdLength);
    }
    var id, t;
    id, ok := reader.Take(n, s, 7);
    if !ok {
      return Failure(ReadId);
    }
    t, ok := reader.Take(1, s, 7 + n);
    if !ok {
      return Failure(ReadPeerType);
    }
    if t[0] != PEER_INITIATOR && t[0] != PEER_RESPONDER {
      return Failure(InvalidPeerType);
    }
    return Success(Hello(id, t[0]));
  }

  /** How many of `avail` bytes the throw-away buffer takes beyond a positive
      acknowledgement. */
  function Swallowed(avail: nat, plan: seq<Slice>): (n: nat)
    requires avail >= 5
    ensures 5 + n <= avail
  {
    Pulled(avail, plan, 5).0 - 5
  }

  lemma LongRead(avail: nat, n: nat)
    requires 5 <= n <= avail && n <= BUFFER_SIZE
    ensures Swallowed(avail, [Slice(n, false)]) == n - 5
  {
    var plan := [Slice(n, false)];
    assert PullSize(avail, plan) == n;
    assert Pulled(avail - n, PlanTail(plan), 0).0 == 0;
    assert Pulled(avail, plan, 5).0 == n;
  }

  /** A read that nothing cuts short fills the buffer. */
  lemma FullRead(avail: nat)
    requires avail >= 5
    ensures Swallowed(avail, []) == (if avail <= 4096 then avail else 4096) - 5
  {
    var k := PullSize(avail, []);
    assert Pulled(avail - k, PlanTail([]), 0).0 == 0;
    assert Pulled(avail, [], 5).0 == k;
  }

  /** The reads add up to `need` exactly at the end of one of them. */
  predicate StopsAt(plan: seq<Slice>, need: nat) {
    need == 0 || (plan != [] && plan[0].n <= need && StopsAt(plan[1..], need - plan[0].n))
  }

  lemma {:induction false} PulledExactlyIff(plan: seq<Slice>, need: nat)
    requires need < BUFFER_SIZE
    ensures StopsAt(plan, need) ==> forall avail :: avail >= need ==> Pulled(avail, plan, need).0 == need
    ensures !StopsAt(plan, need) ==> Pulled(need + 1, plan, need).0 == need + 1
    decreases |plan|
  {
    if need > 0 && plan != [] && plan[0].n <= need {
      PulledExactlyIff(plan[1..], need - plan[0].n);
      forall avail | StopsAt(plan, need) && avail >= need ensures Pulled(avail, plan, need).0 == need {
        assert PullSize(avail, plan) == plan[0].n;
      }
    }
  }

  /** A client loses nothing, however much has been forwarded when it reads its
      acknowledgement, if and only if its reads stop where the acknowledgement ends. */
  lemma SwallowsNothingIff(plan: seq<Slice>)
    ensures (forall avail :: avail >= 5 ==> Swallowed(avail, plan) == 0) <==> StopsAt(plan, 5)
    ensures !StopsAt(plan, 5) ==> Swallowed(6, plan) == 1
    ensures Swallowed(5, plan) == 0
  {
    PulledExactlyIff(plan, 5);
    if StopsAt(plan, 5) {
      forall avail | avail >= 5 ensures Swallowed(avail, plan) == 0 {
        assert Pulled(avail, plan, 5).0 == 5;
      }
    } else {
      assert Swallowed(6, plan) == 1;
    }
  }

  method ReadHandshakeAck(conn: Stream) returns (r: Result<Ack, AckError>, lost: seq<byte>)
    modifies conn
    ensures match DecodeAck(old(conn.rest))
            case Failure(e) => r == Failure(e)
            case Success((a, n)) =>
              && r == Success(a) && lost + conn.rest == old(conn.rest)[n..]
              && (a.Accepted? ==> |lost| == Swallowed(old(|conn.rest|), old(conn.plan)))
  {
    ghost var s := conn.rest;
    var reader := new BufReader(conn);
    assert reader.Pending() == s[0..];
    PulledTwice(|s|, conn.plan, 4, 1);
    hide Pulled;
    var magic, ok := reader.Take(4, s, 0);
    if !ok {
      return Failure(AckReadMagic), reader.held;
    }
    if magic != MAGIC {
      return Failure(AckInvalidMagic), reader.held;
    }
    var status;
    status, ok := reader.Take(1, s, 4);
    if !ok {
      return Failure(AckReadStatus), reader.held;
    }
    if status[0] == STATUS_OK {
      return Success(Accepted), reader.held;
    }
    hide BufReader.Course;
    r := ReadReason(reader, s);
    return r, reader.held;
  }

  /** The part after the status byte of a refusal. */
  method ReadReason(reader: BufReader, ghost s: seq<byte>) returns (r: Result<Ack, AckError>)
    requires |s| >= 5 && s[..4] == MAGIC && s[4] != STATUS_OK
    requires reader.Pending() == s[5..]
    modifies reader, reader.src
    ensures match DecodeAck(s)
            case Failure(e) => r == Failure(e)
            case Success((a, n)) => r == Success(a) && a.Rejected? && reader.Pending() == s[n..]
  {
    hide BufReader.Course;
    var lenBuf, ok := reader.Take(2, s, 5);
    if !ok {
      return Failure(AckReadLength);
    }
    var n := GetU16(lenBuf);
    var msg;
    msg, ok := reader.Take(n, s, 7);
    if !ok {
      return Failure(AckReadMessage);
    }
    return Success(Rejected(msg));
  }
}
