// The framing methods of LibIso15118/isoTypes.cpp as they work in place on a buffer, on a host that
// keeps the lowest byte of a number first.

module FramingBuffer {
  import opened V2g
  import opened Words
  import opened ByteArrays
  import opened Framing

  function Overwrite(m: seq<byte>, p: nat, b: seq<byte>): (r: seq<byte>)
    requires p + |b| <= |m|
    ensures |r| == |m|
  {
    m[..p] + b + m[p + |b|..]
  }

  lemma OverwriteNext(m: seq<byte>, p: nat, a: seq<byte>, b: seq<byte>)
    requires p + |a| + |b| <= |m|
    ensures Overwrite(Overwrite(m, p, a), p + |a|, b) == Overwrite(m, p, a + b)
  {
  }

  lemma OverwriteAgain(m: seq<byte>, p: nat, a: seq<byte>, b: seq<byte>)
    requires |a| == |b| && p + |a| <= |m|
    ensures Overwrite(Overwrite(m, p, a), p, b) == Overwrite(m, p, b)
  {
  }

  lemma OverwriteBefore(m: seq<byte>, p: nat, a: seq<byte>, b: seq<byte>)
    requires p + |a| + |b| <= |m|
    ensures Overwrite(Overwrite(m, p + |a|, b), p, a) == Overwrite(m, p, a + b)
  {
  }

  /** The numbers of an SDP response in the host's byte order. */
  function SwapPairs(b: seq<byte>): (r: seq<byte>)
    requires |b| % 2 == 0
    ensures |r| == |b|
  {
    if b == [] then [] else SwapPairs(b[..|b| - 2]) + [b[|b| - 1], b[|b| - 2]]
  }

  function Native(b: seq<byte>): nat {
    if b == [] then 0 else b[0] as nat + 256 * Native(b[1..])
  }

  lemma NativeOfReversed(a: byte, b: byte, c: byte, d: byte)
    ensures Native([b, a]) == BigEndianValue([a, b])
    ensures Native([d, c, b, a]) == BigEndianValue([a, b, c, d])
  {
    assert [b, a][1..] == [a] && [a][1..] == [];
    assert [d, c, b, a][1..] == [c, b, a] && [c, b, a][1..] == [b, a];
    assert [a, b][..1] == [a] && [a][..0] == [];
    assert [a, b, c, d][..3] == [a, b, c] && [a, b, c][..2] == [a, b];
    assert BigEndianValue([a]) == a as nat && Native([a]) == a as nat;
  }

  /** What reading a header leaves in the buffer: its type and its length as numbers of the host, and nothing
      else changed. */
  lemma TakenIsNative(b: seq<byte>)
    requires |b| >= 8
    ensures var t := HeaderTaken(b);
            && Native(t[2..4]) == BigEndianValue(b[2..4]) && Native(t[4..8]) == BigEndianValue(b[4..8])
            && t[..2] == b[..2] && t[8..] == b[8..]
  {
    NativeOfReversed(b[2], b[3], b[0], b[0]);
    NativeOfReversed(b[4], b[5], b[6], b[7]);
    var t := HeaderTaken(b);
    assert t[2..4] == [b[3], b[2]] && b[2..4] == [b[2], b[3]];
    assert t[4..8] == [b[7], b[6], b[5], b[4]] && b[4..8] == [b[4], b[5], b[6], b[7]];
  }

  /** The two bytes of each number change places. */
  lemma {:induction false} PairsSwapped(b: seq<byte>, k: nat)
    requires |b| % 2 == 0 && 2 * k + 1 < |b|
    ensures SwapPairs(b)[2 * k] == b[2 * k + 1] && SwapPairs(b)[2 * k + 1] == b[2 * k]
  {
    if 2 * k + 2 < |b| {
      PairsSwapped(b[..|b| - 2], k);
    }
  }

  lemma BytesOfTwo(n: nat)
    ensures BigEndianBytes(n, 2) == [LowByte(n / 256), LowByte(n)]
  {
    assert BigEndianBytes(n / 256, 1) == [] + [LowByte(n / 256)];
  }

  lemma BytesOfFour(n: nat)
    ensures BigEndianBytes(n, 4) == [LowByte(n / 256 / 256 / 256), LowByte(n / 256 / 256), LowByte(n / 256), LowByte(n)]
  {
    BytesOfTwo(n / 256 / 256);
    assert BigEndianBytes(n / 256, 3) == BigEndianBytes(n / 256 / 256, 2) + [LowByte(n / 256)];
  }

  // ---- Numbers in the buffer ----

  /** BigEndian on a 16 bit field. */
  method Swap16(d: array<byte>, p: nat)
    requires p + 2 <= d.Length
    modifies d
    ensures d[..] == Overwrite(old(d[..]), p, [old(d[p + 1]), old(d[p])])
  {
    d[p], d[p + 1] := d[p + 1], d[p];
  }

  /** BigEndian on a 32 bit field. */
  method Swap32(d: array<byte>, p: nat)
    requires p + 4 <= d.Length
    modifies d
    ensures d[..] == Overwrite(old(d[..]), p, [old(d[p + 3]), old(d[p + 2]), old(d[p + 1]), old(d[p])])
  {
    d[p], d[p + 1], d[p + 2], d[p + 3] := d[p + 3], d[p + 2], d[p + 1], d[p];
  }

  method Put16(d: array<byte>, p: nat, n: nat)
    requires p + 2 <= d.Length
    modifies d
    ensures d[..] == Overwrite(old(d[..]), p, BigEndianBytes(n, 2))
  {
    d[p] := LowByte(n);
    d[p + 1] := LowByte(n / 256);
    assert d[..] == Overwrite(old(d[..]), p, [LowByte(n), LowByte(n / 256)]);
    OverwriteAgain(old(d[..]), p, [LowByte(n), LowByte(n / 256)], [LowByte(n / 256), LowByte(n)]);
    BytesOfTwo(n);
    Swap16(d, p);
  }

  method Put32(d: array<byte>, p: nat, n: nat)
    requires p + 4 <= d.Length
    modifies d
    ensures d[..] == Overwrite(old(d[..]), p, BigEndianBytes(n, 4))
  {
    ghost var native := [LowByte(n), LowByte(n / 256), LowByte(n / 256 / 256), LowByte(n / 256 / 256 / 256)];
    d[p] := LowByte(n);
    d[p + 1] := LowByte(n / 256);
    d[p + 2] := LowByte(n / 256 / 256);
    d[p + 3] := LowByte(n / 256 / 256 / 256);
    assert d[..] == Overwrite(old(d[..]), p, native);
    BytesOfFour(n);
    OverwriteAgain(old(d[..]), p, native, BigEndianBytes(n, 4));
    Swap32(d, p);
  }

  method Take16(d: array<byte>, p: nat, ghost before: seq<byte>) returns (n: nat)
    requires p + 2 <= d.Length && before == d[..]
    modifies d
    ensures n == BigEndianValue(before[p..p + 2]) && d[..] == Overwrite(before, p, [before[p + 1], before[p]])
  {
    ghost var a, b := d[p], d[p + 1];
    assert before[p..p + 2] == [a, b];
    Swap16(d, p);
    n := d[p] as nat + 256 * d[p + 1] as nat;
    NativeOfReversed(a, b, 0, 0);
    NativeOfTwo(b, a);
  }

  method Take32(d: array<byte>, p: nat, ghost before: seq<byte>) returns (n: nat)
    requires p + 4 <= d.Length && before == d[..]
    modifies d
    ensures n == BigEndianValue(before[p..p + 4])
    ensures d[..] == Overwrite(before, p, [before[p + 3], before[p + 2], before[p + 1], before[p]])
  {
    ghost var a, b, c, e := d[p], d[p + 1], d[p + 2], d[p + 3];
    assert before[p..p + 4] == [a, b, c, e];
    Swap32(d, p);
    n := d[p] as nat + 256 * (d[p + 1] as nat + 256 * (d[p + 2] as nat + 256 * d[p + 3] as nat));
    NativeOfReversed(a, b, c, e);
    NativeOfFour(e, c, b, a);
  }

  method TakeHeader(d: array<byte>, p: nat, n: nat) returns (h: Option<Header>)
    requires p + n <= d.Length && n >= HEADER_LENGTH && d[p + 1] == Inverse(d[p])
    modifies d
    ensures h == ParseHeader(old(d[p..p + n])) && h.Some?
    ensures d[..] == Overwrite(old(d[..]), p, HeaderTaken(old(d[p..p + n]))[..HEADER_LENGTH])
  {
    ghost var m, b := d[..], d[p..p + n];
    var version := d[p];
    ParsedInPlace(m, p, b);
    TakenInPlace(m, p, b);
    hide Overwrite;
    hide HeaderTaken;
    hide BigEndianValue;
    hide ParseHeader;
    var payloadType := Take16(d, p + 2, m);
    var payloadLength := Take32(d, p + 4, TypeTaken(m, p));
    h := Some(Header(payloadLength, payloadType, version as nat));
  }

  method PutRequest(d: array<byte>, p: nat, r: SdpRequest)
    requires p + SDP_REQ_LENGTH <= d.Length
    modifies d
    ensures d[..] == Overwrite(old(d[..]), p, [LowByte(r.security), LowByte(r.transport)])
  {
    d[p] := LowByte(r.security);
    d[p + 1] := LowByte(r.transport);
  }

  /** The bytes of the first i groups. */
  function AddressPrefix(a: seq<nat>, i: nat): (b: seq<byte>)
    requires i <= |a|
    ensures |b| == 2 * i
  {
    AddressBytes(a[..i])
  }

  lemma AddressStep(a: seq<nat>, i: nat)
    requires i < |a|
    ensures AddressPrefix(a, i + 1) == AddressPrefix(a, i) + BigEndianBytes(a[i], 2)
  {
    assert a[..i + 1][..i] == a[..i];
  }

  method PutAddress(d: array<byte>, p: nat, address: seq<nat>)
    requires p + 2 * |address| <= d.Length
    modifies d
    ensures d[..] == Overwrite(old(d[..]), p, AddressBytes(address))
  {
    ghost var m := d[..];
    assert m == Overwrite(m, p, AddressPrefix(address, 0));
    assert address[..|address|] == address;
    hide Overwrite;
    hide BigEndianBytes;
    hide AddressBytes;
    for i := 0 to |address|
      invariant d[..] == Overwrite(m, p, AddressPrefix(address, i))
    {
      AddressStep(address, i);
      OverwriteNext(m, p, AddressPrefix(address, i), BigEndianBytes(address[i], 2));
      Put16(d, p + 2 * i, address[i]);
    }
  }

  method PutTail(d: array<byte>, p: nat, r: SdpResponse)
    requires p + SDP_RES_LENGTH <= d.Length
    modifies d
    ensures d[..] == Overwrite(old(d[..]), p + 16, ResponseTail(r))
  {
    ghost var m := d[..];
    ghost var ends := [LowByte(r.security), LowByte(r.transport)];
    d[p + 18] := LowByte(r.security);
    d[p + 19] := LowByte(r.transport);
    assert d[..] == Overwrite(m, p + 18, ends);
    hide Overwrite;
    hide BigEndianBytes;
    Put16(d, p + 16, r.port);
    OverwriteBefore(m, p + 16, BigEndianBytes(r.port, 2), ends);
  }

  /** The body of an SDP response: the fields behind the address first. */
  method PutResponse(d: array<byte>, p: nat, r: SdpResponse)
    requires p + SDP_RES_LENGTH <= d.Length && |r.address| == 8
    modifies d
    ensures d[..] == Overwrite(old(d[..]), p, AddressBytes(r.address) + ResponseTail(r))
  {
    hide Overwrite;
    ghost var m := d[..];
    PutTail(d, p, r);
    PutAddress(d, p, r.address);
    OverwriteBefore(m, p, AddressBytes(r.address), ResponseTail(r));
  }

  /** The first k numbers at a place. m is the memory as it is found, b what it holds from there on. */
  method TakeNumbers(d: array<byte>, p: nat, k: nat, ghost m: seq<byte>, ghost b: seq<byte>) returns (a: seq<nat>)
    requires m == d[..] && p + |b| <= |m| && 2 * k <= |b| && b == m[p..p + |b|]
    modifies d
    ensures a == Numbers(b, k) && d[..] == Taken(m, p, b, k)
  {
    TakeStart(m, p, b);
    hide Taken;
    hide Numbers;
    hide BigEndianValue;
    hide Overwrite;
    a := [];
    for i := 0 to k
      invariant a == Numbers(b, i) && d[..] == Taken(m, p, b, i)
    {
      var n := TakeNext(d, p, i, m, b);
      a := a + [n];
    }
  }

  method TakeNext(d: array<byte>, p: nat, i: nat, ghost m: seq<byte>, ghost b: seq<byte>) returns (n: nat)
    requires p + |b| <= |m| == d.Length && 2 * (i + 1) <= |b| && b == m[p..p + |b|] && d[..] == Taken(m, p, b, i)
    modifies d
    ensures Numbers(b, i + 1) == Numbers(b, i) + [n] && d[..] == Taken(m, p, b, i + 1)
  {
    hide Taken;
    hide Numbers;
    hide BigEndianValue;
    hide Overwrite;
    TakeStep(m, p, b, i);
    n := Take16(d, p + 2 * i, Taken(m, p, b, i));
  }

  /** stStreamControl: a position in a buffer and the number of bytes left behind it. */
  class StreamControl {
    var data: array?<byte>
    var pos: nat
    var length: nat

    ghost predicate Valid()
      reads this
    {
      data != null ==> pos + length <= data.Length
    }

    ghost function Memory(): seq<byte>
      reads this, data
    {
      if data == null then [] else data[..]
    }

    /** The bytes that are left. */
    ghost function Left(): seq<byte>
      reads this, data
      requires Valid()
    {
      if data == null then [] else data[pos..pos + length]
    }

    constructor (data: array?<byte>, pos: nat, length: nat)
      requires data != null ==> pos + length <= data.Length
      ensures Valid() && this.data == data && this.pos == pos && this.length == length
    {
      this.data := data;
      this.pos := pos;
      this.length := length;
    }

    /** Moving past the end stops at the end. */
    method Move(bytes: nat)
      requires Valid()
      modifies this`pos, this`length
      ensures Valid() && pos + length == old(pos + length) && length == if old(length) >= bytes then old(length) - bytes else 0
    {
      if length >= bytes {
        pos := pos + bytes;
        length := length - bytes;
      } else {
        pos := pos + length;
        length := 0;
      }
    }

    /** write_V2gTpHeader. */
    method WriteHeader(h: Header) returns (n: nat)
      requires Valid()
      modifies this`pos, this`length, data
      ensures Valid()
      ensures data == null || old(length) < HEADER_LENGTH ==> n == 0 && length == 0 && Memory() == old(Memory())
      ensures data != null && old(length) >= HEADER_LENGTH ==>
                n == HEADER_LENGTH && pos == old(pos) + HEADER_LENGTH && length == old(length) - HEADER_LENGTH
                && Memory() == Overwrite(old(Memory()), old(pos), HeaderBytes(h))
    {
      if data == null || length < HEADER_LENGTH {
        length := 0;
        return 0;
      }
      ghost var m, v := data[..], [LowByte(h.protocolVersion), Inverse(LowByte(h.protocolVersion))];
      data[pos] := LowByte(h.protocolVersion);
      data[pos + 1] := Inverse(LowByte(h.protocolVersion));
      assert Memory() == Overwrite(m, pos, v);
      Put16(data, pos + 2, h.payloadType);
      OverwriteNext(m, pos, v, BigEndianBytes(h.payloadType, 2));
      Put32(data, pos + 4, h.payloadLength);
      OverwriteNext(m, pos, v + BigEndianBytes(h.payloadType, 2), BigEndianBytes(h.payloadLength, 4));
      Move(HEADER_LENGTH);
      n := HEADER_LENGTH;
    }

    /** read_V2gTpHeader. The numbers of the header stay behind in the host's byte order; an unknown type is
        reported after the header has been consumed. */
    method ReadHeader() returns (ok: bool, h: Option<Header>)
      requires Valid()
      modifies this`pos, this`length, data
      ensures Valid()
      ensures h == ParseHeader(old(Left())) && ok == Accepted(h)
      ensures h == None ==> length == 0 && Memory() == old(Memory())
      ensures h.Some? ==> pos == old(pos) + HEADER_LENGTH && length == old(length) - HEADER_LENGTH
                          && Memory() == Overwrite(old(Memory()), old(pos), HeaderTaken(old(Left()))[..HEADER_LENGTH])
    {
      if data == null || length < HEADER_LENGTH {
        length := 0;
        return false, None;
      }
      if data[pos + 1] != Inverse(data[pos]) {
        length := 0;
        return false, None;
      }
      h := TakeHeader(data, pos, length);
      Move(HEADER_LENGTH);
      ok := Known(h.value.payloadType);
    }

    /** write_V2gSdpReq. The final move counts the header a second time. */
    method WriteRequest(r: SdpRequest) returns (n: nat)
      requires Valid()
      modifies this`pos, this`length, data
      ensures Valid()
      ensures data == null || old(length) < HEADER_LENGTH + SDP_REQ_LENGTH ==> n == 0 && length == 0 && Memory() == old(Memory())
      ensures data != null && old(length) >= HEADER_LENGTH + SDP_REQ_LENGTH ==>
                && n == HEADER_LENGTH + SDP_REQ_LENGTH && Memory() == Overwrite(old(Memory()), old(pos), RequestBytes(r))
                && pos + length == old(pos + length) && length == Behind(old(length), n)
    {
      if data == null || length < HEADER_LENGTH + SDP_REQ_LENGTH {
        length := 0;
        return 0;
      }
      hide Overwrite;
      hide HeaderBytes;
      hide RequestBytes;
      ghost var m, p := data[..], pos;
      var h := Header(SDP_REQ_LENGTH, TYPE_SDP_REQ, VERSION);
      n := WriteHeader(h);
      PutRequest(data, pos, r);
      OverwriteNext(m, p, HeaderBytes(h), [LowByte(r.security), LowByte(r.transport)]);
      RequestParts(r);
      Move(HEADER_LENGTH + SDP_REQ_LENGTH);
      n := HEADER_LENGTH + SDP_REQ_LENGTH;
    }

    /** write_V2gSdpRes. */
    method WriteResponse(r: SdpResponse) returns (n: nat)
      requires Valid() && |r.address| == 8
      modifies this`pos, this`length, data
      ensures Valid()
      ensures data == null || old(length) < HEADER_LENGTH + SDP_RES_LENGTH ==> n == 0 && length == 0 && Memory() == old(Memory())
      ensures data != null && old(length) >= HEADER_LENGTH + SDP_RES_LENGTH ==>
                && n == HEADER_LENGTH + SDP_RES_LENGTH && Memory() == Overwrite(old(Memory()), old(pos), ResponseBytes(r))
                && pos + length == old(pos + length) && length == Behind(old(length), n)
    {
      if data == null || length < HEADER_LENGTH + SDP_RES_LENGTH {
        length := 0;
        return 0;
      }
      hide Overwrite;
      hide HeaderBytes;
      hide AddressBytes;
      hide ResponseBytes;
      hide ResponseTail;
      ghost var m, p := data[..], pos;
      var h := Header(SDP_RES_LENGTH, TYPE_SDP_RES, VERSION);
      n := WriteHeader(h);
      PutResponse(data, pos, r);
      OverwriteNext(m, p, HeaderBytes(h), AddressBytes(r.address) + ResponseTail(r));
      ResponseParts(r);
      Move(HEADER_LENGTH + SDP_RES_LENGTH);
      n := HEADER_LENGTH + SDP_RES_LENGTH;
    }

    /** read_V2gSdpReq. */
    method ReadRequest(check: Header) returns (r: Option<SdpRequest>)
      requires Valid()
      modifies this`pos, this`length
      ensures Valid() && r == ParseRequest(check, old(Left()))
      ensures pos == old(pos) + if r.Some? then SDP_REQ_LENGTH else 0
    {
      if data == null || length < SDP_REQ_LENGTH || check.payloadLength != SDP_REQ_LENGTH {
        return None;
      }
      r := Some(SdpRequest(data[pos] as nat, data[pos + 1] as nat));
      Move(SDP_REQ_LENGTH);
    }

    /** read_V2gSdpRes. The nine numbers stay behind in the host's byte order. */
    method ReadResponse(check: Header) returns (r: Option<SdpResponse>)
      requires Valid()
      modifies this`pos, this`length, data
      ensures Valid() && r == ParseResponse(check, old(Left()))
      ensures pos == old(pos) + if r.Some? then SDP_RES_LENGTH else 0
      ensures Memory() == if r.Some? then Overwrite(old(Memory()), old(pos), SwapPairs(old(Left())[..18])) else old(Memory())
    {
      if data == null || length < SDP_RES_LENGTH || check.payloadLength != SDP_RES_LENGTH {
        return None;
      }
      ghost var b := data[pos..pos + length];
      var security, transport := data[pos + 18] as nat, data[pos + 19] as nat;
      var numbers := TakeNumbers(data, pos, 9, data[..], b);
      assert b[..2 * 9] == b[..18];
      ParseAddressSplits(b[..18]);
      assert b[..18][..16] == b[..16] && b[..18][16..] == b[16..18];
      r := Some(SdpResponse(numbers[..8], numbers[8], security, transport));
      Move(SDP_RES_LENGTH);
    }
  }

  /** What an SDP writer leaves of the room there was: the header and then, once more with the header, the frame. */
  function Behind(room: nat, frame: nat): nat
    requires room >= HEADER_LENGTH
  {
    if room - HEADER_LENGTH >= frame then room - HEADER_LENGTH - frame else 0
  }

  lemma RequestParts(r: SdpRequest)
    ensures HeaderBytes(Header(SDP_REQ_LENGTH, TYPE_SDP_REQ, VERSION)) + [LowByte(r.security), LowByte(r.transport)] == RequestBytes(r)
  {
  }

  lemma ResponseParts(r: SdpResponse)
    requires |r.address| == 8
    ensures HeaderBytes(Header(SDP_RES_LENGTH, TYPE_SDP_RES, VERSION)) + (AddressBytes(r.address) + ResponseTail(r)) == ResponseBytes(r)
  {
  }

  /** The first i numbers of a buffer. */
  function Numbers(b: seq<byte>, i: nat): seq<nat>
    requires 2 * i <= |b|
  {
    ParseAddress(b[..2 * i])
  }

  function Swapped(b: seq<byte>, i: nat): (r: seq<byte>)
    requires 2 * i <= |b|
    ensures |r| == 2 * i
  {
    SwapPairs(b[..2 * i])
  }

  /** The memory after the first i numbers have been swapped in place. */
  function Taken(m: seq<byte>, p: nat, b: seq<byte>, i: nat): (r: seq<byte>)
    requires p + |b| <= |m| && 2 * i <= |b|
    ensures |r| == |m|
  {
    Overwrite(m, p, Swapped(b, i))
  }

  lemma TakeStart(m: seq<byte>, p: nat, b: seq<byte>)
    requires p + |b| <= |m|
    ensures Taken(m, p, b, 0) == m && Numbers(b, 0) == []
  {
  }

  /** One more number taken from the buffer. */
  lemma TakeStep(m: seq<byte>, p: nat, b: seq<byte>, i: nat)
    requires p + |b| <= |m| && b == m[p..p + |b|] && 2 * (i + 1) <= |b|
    ensures var before := Taken(m, p, b, i);
            && Numbers(b, i + 1) == Numbers(b, i) + [BigEndianValue(before[p + 2 * i..p + 2 * i + 2])]
            && Overwrite(before, p + 2 * i, [before[p + 2 * i + 1], before[p + 2 * i]]) == Taken(m, p, b, i + 1)
  {
    var c, before := b[..2 * (i + 1)], Taken(m, p, b, i);
    assert c[..|c| - 2] == b[..2 * i];
    assert before[p + 2 * i] == b[2 * i] && before[p + 2 * i + 1] == b[2 * i + 1];
    assert before[p + 2 * i..p + 2 * i + 2] == c[|c| - 2..];
    OverwriteNext(m, p, Swapped(b, i), [b[2 * i + 1], b[2 * i]]);
  }

  function ResponseTail(r: SdpResponse): (b: seq<byte>)
    ensures |b| == 4
  {
    BigEndianBytes(r.port, 2) + [LowByte(r.security), LowByte(r.transport)]
  }

  lemma ParseAddressSplits(b: seq<byte>)
    requires |b| == 18
    ensures ParseAddress(b) == ParseAddress(b[..16]) + [BigEndianValue(b[16..])]
  {
  }

  lemma SliceOfSlice(m: seq<byte>, p: nat, n: nat, i: nat, j: nat)
    requires p + n <= |m| && i <= j <= n
    ensures m[p..p + n][i..j] == m[p + i..p + j]
  {
    var x := m[p..p + n];
    var a, b := x[i..j], m[p + i..p + j];
    forall k | 0 <= k < j - i
      ensures a[k] == b[k]
    {
      assert a[k] == x[i + k];
    }
  }

  /** The memory after the payload type has been swapped in place. */
  function TypeTaken(m: seq<byte>, p: nat): (r: seq<byte>)
    requires p + HEADER_LENGTH <= |m|
    ensures |r| == |m|
  {
    Overwrite(m, p + 2, [m[p + 3], m[p + 2]])
  }

  /** Swapping the two numbers of a header, one after the other. */
  lemma TakenInPlace(m: seq<byte>, p: nat, b: seq<byte>)
    requires p + |b| <= |m| && |b| >= HEADER_LENGTH && b == m[p..p + |b|]
    ensures var n := TypeTaken(m, p);
            Overwrite(n, p + 4, [n[p + 7], n[p + 6], n[p + 5], n[p + 4]]) == Overwrite(m, p, HeaderTaken(b)[..HEADER_LENGTH])
  {
    OverwriteNext(m, p + 2, [b[3], b[2]], [b[7], b[6], b[5], b[4]]);
    var t := [b[3], b[2]] + [b[7], b[6], b[5], b[4]];
    assert HeaderTaken(b)[..HEADER_LENGTH] == [b[0], b[1]] + t;
    assert m[..p + 2] == m[..p] + [b[0], b[1]];
  }

  lemma ParsedInPlace(m: seq<byte>, p: nat, b: seq<byte>)
    requires p + |b| <= |m| && |b| >= HEADER_LENGTH && b == m[p..p + |b|] && m[p + 1] == Inverse(m[p])
    ensures ParseHeader(b) ==
            Some(Header(BigEndianValue(TypeTaken(m, p)[p + 4..p + 8]), BigEndianValue(m[p + 2..p + 4]), m[p] as nat))
  {
    SliceOfSlice(m, p, |b|, 2, 4);
    SliceOfSlice(m, p, |b|, 4, 8);
    assert TypeTaken(m, p)[p + 4..p + 8] == m[p + 4..p + 8];
  }

  lemma NativeOfTwo(a: byte, b: byte)
    ensures Native([a, b]) == a as nat + 256 * b as nat
  {
    assert [a, b][1..] == [b] && [b][1..] == [];
    assert Native([b]) == b as nat;
  }

  lemma NativeOfFour(a: byte, b: byte, c: byte, d: byte)
    ensures Native([a, b, c, d]) == a as nat + 256 * (b as nat + 256 * (c as nat + 256 * d as nat))
  {
    assert [a, b, c, d][1..] == [b, c, d] && [b, c, d][1..] == [c, d] && [c, d][1..] == [d] && [d][1..] == [];
    assert Native([d]) == d as nat;
    assert Native([c, d]) == c as nat + 256 * Native([d]);
    assert Native([b, c, d]) == b as nat + 256 * Native([c, d]);
  }
}
