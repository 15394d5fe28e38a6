// Model of the V2GTP framing in LibIso15118/isoTypes.cpp: the header of section 7.8.3 and the SDP messages
// of section 7.10.1 of ISO 15118-2, written to and read from a byte buffer.

module Framing {
  import opened V2g
  import opened Words
  import opened ByteArrays

  const HEADER_LENGTH: nat := 8
  const SDP_REQ_LENGTH: nat := 2
  const SDP_RES_LENGTH: nat := 20

  const VERSION: nat := 1
  const TYPE_EXI: nat := 0x8001
  const TYPE_SDP_REQ: nat := 0x9000
  const TYPE_SDP_RES: nat := 0x9001
  const TYPE_V2S: nat := 0x8100

  datatype Header = Header(payloadLength: nat, payloadType: nat, protocolVersion: nat)
  datatype SdpRequest = SdpRequest(security: nat, transport: nat)
  datatype SdpResponse = SdpResponse(address: seq<nat>, port: nat, security: nat, transport: nat)

  predicate Known(payloadType: nat) {
    payloadType == TYPE_SDP_RES || payloadType == TYPE_SDP_REQ || payloadType == TYPE_EXI || payloadType == TYPE_V2S
  }

  // ---- The bytes on the wire ----

  function LowByte(n: nat): byte {
    (n % 256) as byte
  }

  function Inverse(b: byte): byte {
    255 - b
  }

  function HeaderBytes(h: Header): (b: seq<byte>)
    ensures |b| == HEADER_LENGTH
  {
    [LowByte(h.protocolVersion), Inverse(LowByte(h.protocolVersion))] + BigEndianBytes(h.payloadType, 2) + BigEndianBytes(h.payloadLength, 4)
  }

  function RequestBytes(r: SdpRequest): (b: seq<byte>)
    ensures |b| == HEADER_LENGTH + SDP_REQ_LENGTH
  {
    HeaderBytes(Header(SDP_REQ_LENGTH, TYPE_SDP_REQ, VERSION)) + [LowByte(r.security), LowByte(r.transport)]
  }

  function AddressBytes(a: seq<nat>): (b: seq<byte>)
    ensures |b| == 2 * |a|
  {
    if a == [] then [] else AddressBytes(a[..|a| - 1]) + BigEndianBytes(a[|a| - 1], 2)
  }

  function ResponseBytes(r: SdpResponse): (b: seq<byte>)
    requires |r.address| == 8
    ensures |b| == HEADER_LENGTH + SDP_RES_LENGTH
  {
    HeaderBytes(Header(SDP_RES_LENGTH, TYPE_SDP_RES, VERSION))
    + AddressBytes(r.address) + BigEndianBytes(r.port, 2) + [LowByte(r.security), LowByte(r.transport)]
  }

  // ---- Reading ----

  /** The header of a frame; None if it is too short or its version bytes do not match. */
  function ParseHeader(b: seq<byte>): Option<Header> {
    if |b| < HEADER_LENGTH || b[1] != Inverse(b[0]) then None
    else Some(Header(BigEndianValue(b[4..8]), BigEndianValue(b[2..4]), b[0] as nat))
  }

  predicate Accepted(h: Option<Header>) {
    h.Some? && Known(h.value.payloadType)
  }

  function ParseRequest(check: Header, b: seq<byte>): Option<SdpRequest> {
    if |b| < SDP_REQ_LENGTH || check.payloadLength != SDP_REQ_LENGTH then None
    else Some(SdpRequest(b[0] as nat, b[1] as nat))
  }

  function ParseAddress(b: seq<byte>): (a: seq<nat>)
    requires |b| % 2 == 0
    ensures |a| == |b| / 2
  {
    if b == [] then [] else ParseAddress(b[..|b| - 2]) + [BigEndianValue(b[|b| - 2..])]
  }

  function ParseResponse(check: Header, b: seq<byte>): Option<SdpResponse> {
    if |b| < SDP_RES_LENGTH || check.payloadLength != SDP_RES_LENGTH then None
    else Some(SdpResponse(ParseAddress(b[..16]), BigEndianValue(b[16..18]), b[18] as nat, b[19] as nat))
  }

  // ---- Round trips ----

  lemma LowByteFits(n: nat)
    ensures LowByte(n) as nat == n <==> n < 256
  {
  }

  lemma FieldRoundTrip(n: nat, k: nat)
    ensures BigEndianValue(BigEndianBytes(n, k)) == n <==> n < Pow256(k)
  {
    ValueOfBytes(n, k);
  }

  lemma Powers()
    ensures Pow256(2) == 0x1_0000 && Pow256(4) == 0x1_0000_0000
  {
    assert Pow256(1) == 256;
    assert Pow256(3) == 0x100_0000;
  }

  lemma HeaderParses(h: Header, rest: seq<byte>)
    ensures ParseHeader(HeaderBytes(h) + rest) ==
            Some(Header(BigEndianValue(BigEndianBytes(h.payloadLength, 4)), BigEndianValue(BigEndianBytes(h.payloadType, 2)),
                        LowByte(h.protocolVersion) as nat))
  {
    var b := HeaderBytes(h) + rest;
    assert b[2..4] == BigEndianBytes(h.payloadType, 2) && b[4..8] == BigEndianBytes(h.payloadLength, 4);
  }

  /** A header is read back and accepted with the fields it was written with if and only if its type is
      one of the four known ones, its length fits 32 bits and its version one byte. */
  lemma HeaderRoundTrip(h: Header, rest: seq<byte>)
    ensures ParseHeader(HeaderBytes(h) + rest) == Some(h) && Accepted(ParseHeader(HeaderBytes(h) + rest))
            <==> Known(h.payloadType) && h.payloadLength < 0x1_0000_0000 && h.protocolVersion < 256
  {
    HeaderParses(h, rest);
    Powers();
    FieldRoundTrip(h.payloadLength, 4);
    FieldRoundTrip(h.payloadType, 2);
    LowByteFits(h.protocolVersion);
  }

  /** An SDP request frame carries its two fields if and only if they fit a byte each. */
  lemma RequestRoundTrip(r: SdpRequest, rest: seq<byte>)
    ensures var b := RequestBytes(r) + rest;
            var h := ParseHeader(b);
            && Accepted(h) && h.value.payloadType == TYPE_SDP_REQ
            && (ParseRequest(h.value, b[HEADER_LENGTH..]) == Some(r) <==> r.security < 256 && r.transport < 256)
  {
    var h := Header(SDP_REQ_LENGTH, TYPE_SDP_REQ, VERSION);
    var tail := [LowByte(r.security), LowByte(r.transport)];
    assert RequestBytes(r) + rest == HeaderBytes(h) + (tail + rest);
    HeaderRoundTrip(h, tail + rest);
    LowByteFits(r.security);
    LowByteFits(r.transport);
    assert (RequestBytes(r) + rest)[HEADER_LENGTH..] == tail + rest;
  }

  predicate Fit16(a: seq<nat>) {
    forall i :: 0 <= i < |a| ==> a[i] < 0x1_0000
  }

  lemma SnocEqual(x: seq<nat>, y: nat, a: seq<nat>)
    requires a != []
    ensures x + [y] == a <==> x == a[..|a| - 1] && y == a[|a| - 1]
  {
    if x + [y] == a {
      assert a[..|a| - 1] == x;
    }
  }

  lemma Fit16Snoc(a: seq<nat>)
    requires a != []
    ensures Fit16(a) <==> Fit16(a[..|a| - 1]) && a[|a| - 1] < 0x1_0000
  {
    assert forall i :: 0 <= i < |a| - 1 ==> a[..|a| - 1][i] == a[i];
  }

  lemma {:induction false} AddressRoundTrip(a: seq<nat>)
    ensures ParseAddress(AddressBytes(a)) == a <==> Fit16(a)
  {
    assert Fit16([]);
    hide BigEndianBytes;
    hide BigEndianValue;
    hide Fit16;
    if a != [] {
      var n := |a| - 1;
      AddressRoundTrip(a[..n]);
      Powers();
      FieldRoundTrip(a[n], 2);
      Fit16Snoc(a);
      var b := AddressBytes(a);
      assert b[..|b| - 2] == AddressBytes(a[..n]) && b[|b| - 2..] == BigEndianBytes(a[n], 2);
      SnocEqual(ParseAddress(b[..|b| - 2]), BigEndianValue(b[|b| - 2..]), a);
    }
  }

  predicate Fits(r: SdpResponse) {
    Fit16(r.address) && r.port < 0x1_0000 && r.security < 256 && r.transport < 256
  }

  /** An SDP response frame carries address, port, security and transport if and only if they fit their fields. */
  lemma ResponseRoundTrip(r: SdpResponse, rest: seq<byte>)
    requires |r.address| == 8
    ensures var b := ResponseBytes(r) + rest;
            var h := ParseHeader(b);
            && Accepted(h) && h.value.payloadType == TYPE_SDP_RES
            && (ParseResponse(h.value, b[HEADER_LENGTH..]) == Some(r) <==> Fits(r))
  {
    var h := Header(SDP_RES_LENGTH, TYPE_SDP_RES, VERSION);
    var tail := AddressBytes(r.address) + BigEndianBytes(r.port, 2) + [LowByte(r.security), LowByte(r.transport)];
    assert ResponseBytes(r) + rest == HeaderBytes(h) + (tail + rest);
    HeaderRoundTrip(h, tail + rest);
    AddressRoundTrip(r.address);
    Powers();
    FieldRoundTrip(r.port, 2);
    LowByteFits(r.security);
    LowByteFits(r.transport);
    var b := (ResponseBytes(r) + rest)[HEADER_LENGTH..];
    assert b == tail + rest;
    assert b[..16] == AddressBytes(r.address) && b[16..18] == BigEndianBytes(r.port, 2);
  }

  // ---- The layout ----

  /** The four payload types. */
  lemma KnownTypes(t: nat)
    ensures Known(t) <==> t == 0x8001 || t == 0x8100 || t == 0x9000 || t == 0x9001
  {
  }

  lemma BytesOfTwo(n: nat)
    ensures BigEndianBytes(n, 2) == [(n / 256 % 256) as byte, (n % 256) as byte]
  {
    assert BigEndianBytes(n / 256, 1) == BigEndianBytes(n / 256 / 256, 0) + [(n / 256 % 256) as byte];
  }

  lemma BytesOfFour(n: nat)
    ensures BigEndianBytes(n, 4) ==
            [(n / 0x100_0000 % 256) as byte, (n / 0x1_0000 % 256) as byte, (n / 256 % 256) as byte, (n % 256) as byte]
  {
    BytesOfTwo(n / 256 / 256);
    assert n / 256 / 256 == n / 0x1_0000 && n / 256 / 256 / 256 == n / 0x100_0000;
    assert BigEndianBytes(n / 256, 3) == BigEndianBytes(n / 256 / 256, 2) + [(n / 256 % 256) as byte];
  }

  /** Version and inverted version, then the type in two and the length in four bytes, most significant byte first. */
  lemma HeaderLayout(h: Header)
    ensures HeaderBytes(h) ==
            [(h.protocolVersion % 256) as byte, (255 - h.protocolVersion % 256) as byte,
             (h.payloadType / 256 % 256) as byte, (h.payloadType % 256) as byte,
             (h.payloadLength / 0x100_0000 % 256) as byte, (h.payloadLength / 0x1_0000 % 256) as byte,
             (h.payloadLength / 256 % 256) as byte, (h.payloadLength % 256) as byte]
  {
    BytesOfTwo(h.payloadType);
    BytesOfFour(h.payloadLength);
    hide BigEndianBytes;
  }

  /** The ten bytes of a search. */
  lemma RequestLayout(r: SdpRequest)
    ensures RequestBytes(r) ==
            [0x01, 0xFE, 0x90, 0x00, 0, 0, 0, 2, (r.security % 256) as byte, (r.transport % 256) as byte]
  {
    HeaderLayout(Header(2, 0x9000, 1));
    hide HeaderBytes;
  }

  lemma {:induction false} AddressLayout(a: seq<nat>, k: nat)
    requires k < |a|
    ensures AddressBytes(a)[2 * k] == (a[k] / 256 % 256) as byte && AddressBytes(a)[2 * k + 1] == (a[k] % 256) as byte
  {
    var n := |a| - 1;
    BytesOfTwo(a[n]);
    hide BigEndianBytes;
    if k < n {
      AddressLayout(a[..n], k);
    }
  }

  /** The 28 bytes of an offer: the groups of the address and the port most significant byte first, then
      security and transport. */
  lemma ResponseLayout(r: SdpResponse)
    requires |r.address| == 8
    ensures var b := ResponseBytes(r);
            && b[..8] == [0x01, 0xFE, 0x90, 0x01, 0, 0, 0, 20]
            && (forall k :: 0 <= k < 8 ==> b[8 + 2 * k] == (r.address[k] / 256 % 256) as byte && b[9 + 2 * k] == (r.address[k] % 256) as byte)
            && b[24..] == [(r.port / 256 % 256) as byte, (r.port % 256) as byte, (r.security % 256) as byte, (r.transport % 256) as byte]
  {
    HeaderLayout(Header(20, 0x9001, 1));
    BytesOfTwo(r.port);
    hide HeaderBytes;
    hide BigEndianBytes;
    var b := ResponseBytes(r);
    forall k | 0 <= k < 8
      ensures b[8 + 2 * k] == (r.address[k] / 256 % 256) as byte && b[9 + 2 * k] == (r.address[k] % 256) as byte
    {
      AddressLayout(r.address, k);
      assert b[8 + 2 * k] == AddressBytes(r.address)[2 * k] && b[9 + 2 * k] == AddressBytes(r.address)[2 * k + 1];
    }
  }

  /** The header is read from where it is written. */
  lemma ParsedFields(b: seq<byte>)
    requires |b| >= 8 && b[1] == 255 - b[0]
    ensures ParseHeader(b) ==
            Some(Header(0x100_0000 * b[4] as nat + 0x1_0000 * b[5] as nat + 256 * b[6] as nat + b[7] as nat,
                        256 * b[2] as nat + b[3] as nat, b[0] as nat))
  {
    TwoBytes(b[2], b[3]);
    FourBytes(b[4], b[5], b[6], b[7]);
    assert b[2..4] == [b[2], b[3]] && b[4..8] == [b[4], b[5], b[6], b[7]];
    hide BigEndianValue;
  }

  /** Either reader refuses the other one's frame. */
  lemma NotConfused(q: SdpRequest, r: SdpResponse)
    requires |r.address| == 8
    ensures ParseResponse(ParseHeader(RequestBytes(q)).value, RequestBytes(q)[8..]) == None
    ensures ParseRequest(ParseHeader(ResponseBytes(r)).value, ResponseBytes(r)[8..]) == None
  {
    RequestLayout(q);
    ResponseLayout(r);
    ParsedFields(RequestBytes(q));
    FirstEight(ResponseBytes(r));
    ParsedFields(ResponseBytes(r));
    hide ParseHeader;
    hide RequestBytes;
    hide ResponseBytes;
  }

  lemma FirstEight(b: seq<byte>)
    requires |b| >= 8
    ensures forall k :: 0 <= k < 8 ==> b[k] == b[..8][k]
  {
  }

  lemma FourBytes(a: byte, b: byte, c: byte, d: byte)
    ensures BigEndianValue([a, b, c, d]) == 0x100_0000 * a as nat + 0x1_0000 * b as nat + 256 * c as nat + d as nat
  {
    TwoBytes(a, b);
    assert [a, b, c, d][..3] == [a, b, c] && [a, b, c][..2] == [a, b];
    assert BigEndianValue([a, b, c]) == 256 * BigEndianValue([a, b]) + c as nat;
  }

  // ---- The buffer ----

  /** What the buffer holds after its header has been read: the two numbers in the host's byte order. */
  function HeaderTaken(b: seq<byte>): (t: seq<byte>)
    requires |b| >= HEADER_LENGTH
    ensures |t| == |b|
  {
    [b[0], b[1], b[3], b[2], b[7], b[6], b[5], b[4]] + b[8..]
  }

  lemma TwoBytes(a: byte, b: byte)
    ensures BigEndianValue([a, b]) == 256 * a as nat + b as nat
  {
    assert [a, b][..1] == [a] && [a][..0] == [];
    assert BigEndianValue([a]) == a as nat;
  }

  /** Every accepted header is refused when the same buffer is read again. */
  lemma SecondReadFails(b: seq<byte>)
    requires Accepted(ParseHeader(b))
    ensures !Accepted(ParseHeader(HeaderTaken(b)))
  {
    assert b[2..4] == [b[2], b[3]];
    assert HeaderTaken(b)[2..4] == [b[3], b[2]];
    TwoBytes(b[2], b[3]);
    TwoBytes(b[3], b[2]);
  }
}
