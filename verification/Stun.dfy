/** The STUN server: which datagrams it answers, and its Binding Response. */
module Stun {
  import opened Wrappers

  type octet = bv8

  const BINDING_REQUEST: bv16 := 0x0001
  const BINDING_RESPONSE: bv16 := 0x0101
  const ATTR_XOR_MAPPED_ADDRESS: bv16 := 0x0020
  const MAGIC_COOKIE: bv32 := 0x2112_A442
  const COOKIE_BYTES: seq<octet> := [0x21, 0x12, 0xA4, 0x42]
  const COOKIE_HIGH: bv16 := 0x2112
  const HEADER_LEN := 20

  /** An address as `net.UDPAddr` holds it; the address has 4 or 16 bytes. */
  datatype UdpAddr = UdpAddr(ip: seq<octet>, port: bv16)

  datatype StunError = TooShort | InvalidCookie | UnsupportedType | Truncated

  function Put16(v: bv16): (r: seq<octet>)
    ensures |r| == 2
  {
    [(v >> 8) as octet, (v & 0xFF) as octet]
  }

  function Get16(hi: octet, lo: octet): bv16 {
    ((hi as bv16) << 8) | (lo as bv16)
  }

  lemma Put16RoundTrip(v: bv16)
    ensures Get16(Put16(v)[0], Put16(v)[1]) == v
  {
  }

  /** The more significant byte comes first. */
  lemma BigEndian16(v: bv16, hi: octet, lo: octet)
    ensures Put16(v)[0] as bv16 == v / 0x100 && Put16(v)[1] as bv16 == v % 0x100
    ensures Get16(hi, lo) == (hi as bv16) * 0x100 + (lo as bv16)
  {
  }

  function Len16(s: seq<octet>): (n: nat)
    requires |s| == 2
  {
    (s[0] as int) * 0x100 + (s[1] as int)
  }

  /** `net.IP.To4`: an IPv4 address, bare or mapped into IPv6. */
  function To4(ip: seq<octet>): (r: Option<seq<octet>>)
    ensures r.Some? ==> |r.value| == 4
  {
    if |ip| == 4 then Some(ip)
    else if |ip| == 16 && (forall i :: 0 <= i < 10 ==> ip[i] == 0) && ip[10] == 0xFF && ip[11] == 0xFF then Some(ip[12..])
    else None
  }

  /** The form in which an address is reported: IPv4 whenever it is one. */
  function Reported(ip: seq<octet>): (r: seq<octet>) {
    if To4(ip).Some? then To4(ip).value else ip
  }

  /** Which addresses are reported as IPv4: those of four bytes, and those of sixteen that
      begin with ten zeros and two 0xFF. All others are reported as they are. */
  lemma ReportedIs(ip: seq<octet>)
    ensures |ip| == 4 ==> Reported(ip) == ip
    ensures |ip| == 16 && ip[..12] == [0, 0, 0, 0, 0, 0, 0, 0, 0, 0, 0xFF, 0xFF] ==> Reported(ip) == ip[12..]
    ensures |ip| == 16 && ip[..12] != [0, 0, 0, 0, 0, 0, 0, 0, 0, 0, 0xFF, 0xFF] ==> Reported(ip) == ip
  {
    if |ip| == 16 {
      assert forall i :: 0 <= i < 12 ==> ip[..12][i] == ip[i];
    }
  }

  function XorBytes(a: seq<octet>, b: seq<octet>): (r: seq<octet>)
    requires |a| <= |b|
    ensures |r| == |a|
    ensures forall i :: 0 <= i < |a| ==> r[i] == a[i] ^ b[i]
  {
    seq(|a|, i requires 0 <= i < |a| => a[i] ^ b[i])
  }

  lemma XorTwice(a: seq<octet>, b: seq<octet>)
    requires |a| <= |b|
    ensures XorBytes(XorBytes(a, b), b) == a
  {
  }

  // ---------------------------------------------------------------- what the server builds

  function AttrValue(tid: seq<octet>, ip: seq<octet>, port: bv16): (r: seq<octet>)
    requires |tid| == 12 && (|ip| == 4 || |ip| == 16)
    ensures |r| == 4 + |ip|
  {
    [0x00, if |ip| == 4 then 0x01 else 0x02] + Put16(port ^ COOKIE_HIGH) + XorBytes(ip, COOKIE_BYTES + tid)
  }

  function ValueLen(ip: seq<octet>): bv16 {
    if |ip| == 4 then 8 else 20
  }

  function Attribute(tid: seq<octet>, ip: seq<octet>, port: bv16): (r: seq<octet>)
    requires |tid| == 12 && (|ip| == 4 || |ip| == 16)
    ensures |r| == 8 + |ip|
  {
    Put16(ATTR_XOR_MAPPED_ADDRESS) + Put16(ValueLen(ip)) + AttrValue(tid, ip, port)
  }

  function Response(tid: seq<octet>, ip: seq<octet>, port: bv16): (r: seq<octet>)
    requires |tid| == 12 && (|ip| == 4 || |ip| == 16)
    ensures |r| == 28 + |ip|
  {
    Put16(BINDING_RESPONSE) + Put16(ValueLen(ip) + 4) + COOKIE_BYTES + tid + Attribute(tid, ip, port)
  }

  // ---------------------------------------------------------------- what a client reads, by RFC 5389

  datatype Binding = Binding(tid: seq<octet>, ip: seq<octet>, port: bv16)

  /** Section 6 of RFC 5389: a success response whose length field counts the bytes
      after the header and is a multiple of four, with the magic cookie. */
  predicate WellFormedResponse(s: seq<octet>) {
    && |s| >= HEADER_LEN
    && Get16(s[0], s[1]) == BINDING_RESPONSE
    && Len16(s[2..4]) == |s| - HEADER_LEN
    && Len16(s[2..4]) % 4 == 0
    && s[4..8] == COOKIE_BYTES
  }

  /** Sections 15 and 15.2 of RFC 5389: one XOR-MAPPED-ADDRESS attribute. */
  function ReadBinding(s: seq<octet>): (r: Option<Binding>) {
    if !WellFormedResponse(s) || |s| < 28 then None
    else
      var tid := s[8..20];
      var n := Len16(s[22..24]);
      if Get16(s[20], s[21]) != ATTR_XOR_MAPPED_ADDRESS || |s| != 24 + n then None
      else
        var port := Get16(s[26], s[27]) ^ ((MAGIC_COOKIE >> 16) as bv16);
        if s[25] == 0x01 && n == 8 then Some(Binding(tid, XorBytes(s[28..], COOKIE_BYTES), port))
        else if s[25] == 0x02 && n == 20 then Some(Binding(tid, XorBytes(s[28..], COOKIE_BYTES + tid), port))
        else None
  }

  lemma CookieForms()
    ensures (MAGIC_COOKIE >> 16) as bv16 == COOKIE_HIGH
    ensures Put16(COOKIE_HIGH) + Put16((MAGIC_COOKIE & 0xFFFF) as bv16) == COOKIE_BYTES
  {
  }

  lemma ResponseFields(tid: seq<octet>, ip: seq<octet>, port: bv16)
    requires |tid| == 12 && (|ip| == 4 || |ip| == 16)
    ensures var s := Response(tid, ip, port);
            && s[0..2] == Put16(BINDING_RESPONSE) && s[2..4] == Put16(ValueLen(ip) + 4)
            && s[4..8] == COOKIE_BYTES && s[8..20] == tid
            && s[20..22] == Put16(ATTR_XOR_MAPPED_ADDRESS) && s[22..24] == Put16(ValueLen(ip))
            && s[24] == 0 && s[25] == (if |ip| == 4 then 0x01 else 0x02)
            && s[26..28] == Put16(port ^ COOKIE_HIGH) && s[28..] == XorBytes(ip, COOKIE_BYTES + tid)
  {
    hide Put16, XorBytes;
  }

  lemma LengthsRead(ip: seq<octet>)
    requires |ip| == 4 || |ip| == 16
    ensures Len16(Put16(ValueLen(ip))) == 4 + |ip|
    ensures Len16(Put16(ValueLen(ip) + 4)) == 8 + |ip|
  {
    if |ip| == 4 {
      assert Put16(8) == [0, 8] && Put16(12) == [0, 12];
    } else {
      assert Put16(20) == [0, 20] && Put16(24) == [0, 24];
    }
  }

  lemma PortRead(port: bv16)
    ensures var p := Put16(port ^ COOKIE_HIGH); Get16(p[0], p[1]) ^ COOKIE_HIGH == port
  {
    Put16RoundTrip(port ^ COOKIE_HIGH);
  }

  /** A client that decodes the response recovers the address, the port and the
      transaction it asked about. */
  lemma ResponseReadsBack(tid: seq<octet>, ip: seq<octet>, port: bv16)
    requires |tid| == 12 && (|ip| == 4 || |ip| == 16)
    ensures WellFormedResponse(Response(tid, ip, port))
    ensures ReadBinding(Response(tid, ip, port)) == Some(Binding(tid, ip, port))
  {
    ResponseFields(tid, ip, port);
    hide Response, Put16, Get16, Len16, XorBytes, ReadBinding, WellFormedResponse;
    FieldsReadBack(Response(tid, ip, port), tid, ip, port);
  }

  lemma FieldsReadBack(s: seq<octet>, tid: seq<octet>, ip: seq<octet>, port: bv16)
    requires |tid| == 12 && (|ip| == 4 || |ip| == 16) && |s| == 28 + |ip|
    requires s[0..2] == Put16(BINDING_RESPONSE) && s[2..4] == Put16(ValueLen(ip) + 4)
    requires s[4..8] == COOKIE_BYTES && s[8..20] == tid
    requires s[20..22] == Put16(ATTR_XOR_MAPPED_ADDRESS) && s[22..24] == Put16(ValueLen(ip))
    requires s[25] == (if |ip| == 4 then 0x01 else 0x02)
    requires s[26..28] == Put16(port ^ COOKIE_HIGH) && s[28..] == XorBytes(ip, COOKIE_BYTES + tid)
    ensures WellFormedResponse(s)
    ensures ReadBinding(s) == Some(Binding(tid, ip, port))
  {
    LengthsRead(ip);
    Put16RoundTrip(BINDING_RESPONSE);
    Put16RoundTrip(ATTR_XOR_MAPPED_ADDRESS);
    PortRead(port);
    CookieForms();
    XorAddress(tid, ip);
    hide Put16, Get16, Len16, XorBytes;
    assert s[0] == s[0..2][0] && s[1] == s[0..2][1];
    assert s[20] == s[20..22][0] && s[21] == s[20..22][1];
    assert s[26] == s[26..28][0] && s[27] == s[26..28][1];
  }

  lemma XorAddress(tid: seq<octet>, ip: seq<octet>)
    requires |tid| == 12 && (|ip| == 4 || |ip| == 16)
    ensures var x := XorBytes(ip, COOKIE_BYTES + tid);
            && XorBytes(x, COOKIE_BYTES + tid) == ip
            && (|ip| == 4 ==> XorBytes(x, COOKIE_BYTES) == ip)
  {
    XorTwice(ip, COOKIE_BYTES + tid);
    if |ip| == 4 {
      assert XorBytes(ip, COOKIE_BYTES + tid) == XorBytes(ip, COOKIE_BYTES);
      XorTwice(ip, COOKIE_BYTES);
    }
  }

  /** The bytes of the answer to a client at `ip` and `port`: an IPv4 address, bare or mapped
      into IPv6, is reported in four bytes with family 1, any other in sixteen with family 2. */
  ghost predicate Answers(s: seq<octet>, tid: seq<octet>, ip: seq<octet>, port: bv16)
    requires |tid| == 12 && (|ip| == 4 || |ip| == 16)
  {
    var mapped := |ip| == 16 && ip[..12] == [0, 0, 0, 0, 0, 0, 0, 0, 0, 0, 0xFF, 0xFF];
    var addr := if mapped then ip[12..] else ip;
    AnswerFields(s, tid, addr, port)
  }

  lemma PutLiterals()
    ensures Put16(BINDING_RESPONSE) == [0x01, 0x01] && Put16(ATTR_XOR_MAPPED_ADDRESS) == [0x00, 0x20]
    ensures Put16(8) == [0, 8] && Put16(12) == [0, 12] && Put16(20) == [0, 20] && Put16(24) == [0, 24]
  {
  }

  /** The port behind two bytes, the more significant first. */
  ghost function PortBehind(hi: octet, lo: octet): bv16 {
    ((hi as bv16) * 0x100 + (lo as bv16)) ^ 0x2112
  }

  /** `x` is `addr` combined with the magic cookie and the transaction. */
  ghost predicate Masked(x: seq<octet>, addr: seq<octet>, tid: seq<octet>)
    requires |tid| == 12 && |addr| <= 16
  {
    |x| == |addr| && forall i :: 0 <= i < |addr| ==> x[i] == addr[i] ^ ([0x21, 0x12, 0xA4, 0x42] + tid)[i]
  }

  lemma PortAnswered(hi: octet, lo: octet, port: bv16)
    requires [hi, lo] == Put16(port ^ COOKIE_HIGH)
    ensures PortBehind(hi, lo) == port
  {
    Put16RoundTrip(port ^ COOKIE_HIGH);
    BigEndian16(0, hi, lo);
    assert hi == Put16(port ^ COOKIE_HIGH)[0] && lo == Put16(port ^ COOKIE_HIGH)[1];
    hide Put16, Get16;
  }

  lemma XorAnswered(x: seq<octet>, addr: seq<octet>, tid: seq<octet>)
    requires |tid| == 12 && |addr| <= 16 && x == XorBytes(addr, COOKIE_BYTES + tid)
    ensures Masked(x, addr, tid)
  {
  }

  /** The fields of the answer, once the address is known. */
  ghost predicate AnswerFields(s: seq<octet>, tid: seq<octet>, addr: seq<octet>, port: bv16)
    requires |tid| == 12 && (|addr| == 4 || |addr| == 16)
  {
    && |s| == 28 + |addr|
    && s[0..2] == [0x01, 0x01] && s[2..4] == [0x00, if |addr| == 4 then 12 else 24]
    && s[4..8] == [0x21, 0x12, 0xA4, 0x42] && s[8..20] == tid
    && s[20..22] == [0x00, 0x20] && s[22..24] == [0x00, if |addr| == 4 then 8 else 20]
    && s[24] == 0x00 && s[25] == (if |addr| == 4 then 0x01 else 0x02)
    && PortBehind(s[26], s[27]) == port && Masked(s[28..], addr, tid)
  }

  lemma ResponseAnswers(tid: seq<octet>, addr: seq<octet>, port: bv16)
    requires |tid| == 12 && (|addr| == 4 || |addr| == 16)
    ensures AnswerFields(Response(tid, addr, port), tid, addr, port)
  {
    var s := Response(tid, addr, port);
    ResponseFields(tid, addr, port);
    PutLiterals();
    hide Response, Put16, Get16, XorBytes, PortBehind, Masked;
    assert s[26..28] == [s[26], s[27]];
    PortAnswered(s[26], s[27], port);
    XorAnswered(s[28..], addr, tid);
  }

  // ---------------------------------------------------------------- the server

  method PutInto(buf: array<octet>, at: nat, v: bv16)
    requires at + 2 <= buf.Length
    modifies buf
    ensures buf[at..at + 2] == Put16(v)
    ensures forall i :: 0 <= i < buf.Length && !(at <= i < at + 2) ==> buf[i] == old(buf[i])
  {
    buf[at], buf[at + 1] := (v >> 8) as octet, (v & 0xFF) as octet;
  }

  method CopyInto(buf: array<octet>, at: nat, src: array<octet>)
    requires at + src.Length <= buf.Length && buf != src
    modifies buf
    ensures buf[at..at + src.Length] == src[..]
    ensures forall i :: 0 <= i < buf.Length && !(at <= i < at + src.Length) ==> buf[i] == old(buf[i])
  {
    forall i | 0 <= i < src.Length {
      buf[at + i] := src[i];
    }
  }

  lemma Assemble(s: seq<octet>, a: seq<octet>, b: seq<octet>, c: seq<octet>)
    requires |s| == |a| + |b| + |c|
    requires s[..|a|] == a && s[|a|..|a| + |b|] == b && s[|a| + |b|..] == c
    ensures s == a + b + c
  {
  }

  method XorAddressBytes(ip: seq<octet>, tid: array<octet>) returns (x: array<octet>)
    requires tid.Length == 12 && (|ip| == 4 || |ip| == 16)
    ensures fresh(x) && x[..] == XorBytes(ip, COOKIE_BYTES + tid[..])
  {
    var cookie := COOKIE_BYTES;
    ghost var key := COOKIE_BYTES + tid[..];
    x := new octet[|ip|];
    for i := 0 to 4
      invariant forall j :: 0 <= j < i ==> x[j] == ip[j] ^ key[j]
    {
      x[i] := ip[i] ^ cookie[i];
    }
    if |ip| == 16 {
      for i := 4 to 16
        invariant forall j :: 0 <= j < i ==> x[j] == ip[j] ^ key[j]
      {
        x[i] := ip[i] ^ tid[i - 4];
      }
    }
  }

  method BuildValue(tid: array<octet>, ip: seq<octet>, port: bv16) returns (value: array<octet>)
    requires tid.Length == 12 && (|ip| == 4 || |ip| == 16)
    ensures fresh(value) && value[..] == AttrValue(tid[..], ip, port)
  {
    var xorIp := XorAddressBytes(ip, tid);
    CookieForms();
    hide Put16, XorBytes;
    value := new octet[4 + xorIp.Length];
    value[0], value[1] := 0x00, if |ip| == 4 then 0x01 else 0x02;
    PutInto(value, 2, port ^ ((MAGIC_COOKIE >> 16) as bv16));
    CopyInto(value, 4, xorIp);
    assert value[..][..2] == [value[0], value[1]];
    assert value[..][2..4] == value[2..4] && value[..][4..] == value[4..4 + xorIp.Length];
    Assemble(value[..], [value[0], value[1]], value[2..4], xorIp[..]);
  }

  method BuildAttribute(tid: array<octet>, ip: seq<octet>, port: bv16) returns (attr: array<octet>)
    requires tid.Length == 12 && (|ip| == 4 || |ip| == 16)
    ensures fresh(attr) && attr[..] == Attribute(tid[..], ip, port)
  {
    var value := BuildValue(tid, ip, port);
    hide Put16, AttrValue;
    attr := new octet[4 + value.Length];
    PutInto(attr, 0, ATTR_XOR_MAPPED_ADDRESS);
    PutInto(attr, 2, ValueLen(ip));
    CopyInto(attr, 4, value);
    assert attr[..][..2] == attr[0..2] && attr[..][2..4] == attr[2..4] && attr[..][4..] == attr[4..4 + value.Length];
    Assemble(attr[..], attr[0..2], attr[2..4], value[..]);
  }

  method BuildBindingResponse(tid: array<octet>, mapped: UdpAddr) returns (response: array<octet>)
    requires tid.Length == 12 && (|mapped.ip| == 4 || |mapped.ip| == 16)
    ensures fresh(response)
    ensures ReadBinding(response[..]) == Some(Binding(tid[..], Reported(mapped.ip), mapped.port))
    ensures WellFormedResponse(response[..]) && Answers(response[..], tid[..], mapped.ip, mapped.port)
  {
    var ip4 := To4(mapped.ip);
    var ip := if ip4.Some? then ip4.value else mapped.ip;
    response := BuildMessage(tid, ip, mapped.port);
    ResponseReadsBack(tid[..], ip, mapped.port);
    ReportedIs(mapped.ip);
    ResponseAnswers(tid[..], ip, mapped.port);
  }

  method BuildMessage(tid: array<octet>, ip: seq<octet>, port: bv16) returns (response: array<octet>)
    requires tid.Length == 12 && (|ip| == 4 || |ip| == 16)
    ensures fresh(response) && response[..] == Response(tid[..], ip, port)
  {
    var attr := BuildAttribute(tid, ip, port);
    hide Put16, Attribute, ValueLen;
    response := new octet[20 + attr.Length];
    PutInto(response, 0, BINDING_RESPONSE);
    PutInto(response, 2, ValueLen(ip) + 4);
    response[4], response[5], response[6], response[7] := 0x21, 0x12, 0xA4, 0x42;
    CopyInto(response, 8, tid);
    CopyInto(response, 20, attr);
    ghost var head := response[0..2] + response[2..4];
    assert response[..][..8] == head + COOKIE_BYTES;
    assert response[..][8..20] == response[8..20] && response[..][20..] == response[20..20 + attr.Length];
    Assemble(response[..], head + COOKIE_BYTES, tid[..], attr[..]);
  }

  lemma TypeIs(hi: octet, lo: octet)
    ensures Get16(hi, lo) == BINDING_REQUEST <==> hi == 0x00 && lo == 0x01
  {
  }

  /** Exactly the Binding Requests are answered, each with a response to its own
      transaction; of the errors the first that applies is reported. */
  method HandleMessage(data: array<octet>, remote: UdpAddr) returns (r: Result<array<octet>, StunError>)
    requires |remote.ip| == 4 || |remote.ip| == 16
    ensures r.Success? <==>
              && data.Length >= 20 && data[4..8] == [0x21, 0x12, 0xA4, 0x42] && data[0] == 0x00 && data[1] == 0x01
              && data.Length >= 20 + (data[2] as int) * 0x100 + (data[3] as int)
    ensures r.Success? ==>
              && ReadBinding(r.value[..]) == Some(Binding(data[8..20], Reported(remote.ip), remote.port))
              && Answers(r.value[..], data[8..20], remote.ip, remote.port)
    ensures r.Failure? ==>
              && (r.error.TooShort? <==> data.Length < 20)
              && (r.error.InvalidCookie? <==> data.Length >= 20 && data[4..8] != [0x21, 0x12, 0xA4, 0x42])
              && (r.error.UnsupportedType? <==>
                    && data.Length >= 20 && data[4..8] == [0x21, 0x12, 0xA4, 0x42]
                    && !(data[0] == 0x00 && data[1] == 0x01))
  {
    if data.Length < HEADER_LEN {
      return Failure(TooShort);
    }
    TypeIs(data[0], data[1]);
    hide Get16, ReadBinding, Response, Answers;
    if data[4..8] != COOKIE_BYTES {
      return Failure(InvalidCookie);
    }
    if Get16(data[0], data[1]) != BINDING_REQUEST {
      return Failure(UnsupportedType);
    }
    if data.Length < HEADER_LEN + Len16(data[2..4]) {
      return Failure(Truncated);
    }
    var tid := new octet[12];
    forall i | 0 <= i < 12 {
      tid[i] := data[8 + i];
    }
    assert tid[..] == data[8..20];
    var response := BuildBindingResponse(tid, remote);
    return Success(response);
  }
}
