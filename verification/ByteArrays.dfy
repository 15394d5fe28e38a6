// Model of cByteArray in LibCpp/HAL/Tools.cpp and its 64 bit conversions.

module ByteArrays {
  import opened Words

  /** The number whose bytes, most significant first, are b. */
  function BigEndianValue(b: seq<byte>): nat {
    if b == [] then 0 else 256 * BigEndianValue(b[..|b| - 1]) + b[|b| - 1] as nat
  }

  /** The lowest k bytes of n, most significant first. */
  function BigEndianBytes(n: nat, k: nat): (b: seq<byte>)
    ensures |b| == k
  {
    if k == 0 then [] else BigEndianBytes(n / 256, k - 1) + [(n % 256) as byte]
  }

  function Pow256(k: nat): (p: nat)
    ensures p > 0
  {
    if k == 0 then 1 else 256 * Pow256(k - 1)
  }

  /** The first eight bytes, or all of them if there are fewer. */
  function Leading(b: seq<byte>): seq<byte> {
    if |b| <= 8 then b else b[..8]
  }

  /** asUInt64(true) followed by an increment and set(.., true): how a charger names its next session. */
  function NextId(id: seq<byte>): seq<byte> {
    BigEndianBytes((BigEndianValue(Leading(id)) + 1) % WORD64, 8)
  }

  lemma Monotone(x: nat, y: nat, d: nat)
    requires x < y
    ensures x * d + d <= y * d
  {
    assert (y - x - 1) * d >= 0;
    assert y * d == x * d + d + (y - x - 1) * d;
  }

  lemma DivModUnique(n: nat, d: nat, a: nat, r: nat)
    requires r < d && n == a * d + r
    ensures n / d == a && n % d == r
  {
    var q, t := n / d, n % d;
    assert n == q * d + t;
    if q < a {
      Monotone(q, a, d);
    } else if a < q {
      Monotone(a, q, d);
    }
  }

  lemma DivModStep(n: nat, p: nat)
    requires p > 0
    ensures 256 * ((n / 256) % p) + n % 256 == n % (256 * p)
  {
    var q, r := n / 256, n % 256;
    var a, b := q / p, q % p;
    assert q == a * p + b;
    assert 256 * (a * p) == a * (256 * p);
    DivModUnique(n, 256 * p, a, 256 * b + r);
  }

  lemma {:induction false} ValueOfBytes(n: nat, k: nat)
    ensures BigEndianValue(BigEndianBytes(n, k)) == n % Pow256(k)
  {
    if k != 0 {
      var b := BigEndianBytes(n, k);
      assert b[..k - 1] == BigEndianBytes(n / 256, k - 1);
      ValueOfBytes(n / 256, k - 1);
      DivModStep(n, Pow256(k - 1));
    }
  }

  lemma {:induction false} BytesOfValue(b: seq<byte>)
    ensures BigEndianBytes(BigEndianValue(b), |b|) == b
    ensures BigEndianValue(b) < Pow256(|b|)
  {
    if b != [] {
      var front := b[..|b| - 1];
      BytesOfValue(front);
      assert b == front + [b[|b| - 1]];
    }
  }

  lemma DivTwice(n: nat, p: nat)
    requires p > 0
    ensures n / 256 / p == n / (256 * p)
  {
    var q := n / 256;
    var a := q / p;
    assert n == 256 * q + n % 256 && q == a * p + q % p;
    assert 256 * (a * p) == a * (256 * p);
    DivModUnique(n, 256 * p, a, 256 * (q % p) + n % 256);
  }

  /** The first byte is the most significant one. */
  lemma {:induction false} OrderOfBytes(n: nat, k: nat, i: nat)
    requires i < k
    ensures BigEndianBytes(n, k)[i] as nat == n / Pow256(k - 1 - i) % 256
  {
    if i < k - 1 {
      OrderOfBytes(n / 256, k - 1, i);
      DivTwice(n, Pow256(k - 2 - i));
    } else {
      assert Pow256(0) == 1;
    }
  }

  lemma Pow256Of8()
    ensures Pow256(8) == WORD64
  {
    assert Pow256(2) == 0x1_0000;
    assert Pow256(4) == 0x1_0000_0000;
    assert Pow256(6) == 0x1_0000_0000_0000;
  }

  /** Every 64 bit number survives the journey through its byte array. */
  lemma NumberRoundTrip(n: nat)
    requires n < WORD64
    ensures BigEndianValue(BigEndianBytes(n, 8)) == n
  {
    Pow256Of8();
    ValueOfBytes(n, 8);
    DivModUnique(n, WORD64, 0, n);
  }

  /** Every eight byte array survives the journey through its number. */
  lemma BytesRoundTrip(b: seq<byte>)
    requires |b| == 8
    ensures BigEndianValue(b) < WORD64 && BigEndianBytes(BigEndianValue(b), 8) == b
  {
    Pow256Of8();
    BytesOfValue(b);
  }

  lemma SuccessorModulo(n: nat)
    ensures (n % WORD64 + 1) % WORD64 == (n + 1) % WORD64
  {
  }

  /** Counting sessions is counting modulo 2^64. */
  lemma NextIdCounts(n: nat)
    ensures NextId(BigEndianBytes(n, 8)) == BigEndianBytes((n + 1) % WORD64, 8)
  {
    Pow256Of8();
    ValueOfBytes(n, 8);
    SuccessorModulo(n);
  }

  /** Only the first eight bytes of a longer id count. */
  lemma NextIdOfLong(b: seq<byte>)
    requires |b| >= 8
    ensures NextId(b) == NextId(b[..8]) == BigEndianBytes((BigEndianValue(b[..8]) + 1) % WORD64, 8)
  {
    assert |b| == 8 ==> b[..8] == b;
  }

  /** A buffer on the heap with one zero byte behind its contents; no buffer for no contents. */
  class ByteArray {
    var data: array?<byte>
    var size: nat

    ghost predicate Valid()
      reads this, data
    {
      && (data == null <==> size == 0)
      && (data != null ==> data.Length == size + 1 && data[size] == 0)
    }

    ghost function Contents(): seq<byte>
      reads this, data
      requires Valid()
    {
      if data == null then [] else data[..size]
    }

    constructor ()
      ensures Valid() && Contents() == [] && data == null
    {
      data := null;
      size := 0;
    }

    /** set(const char*, unsigned int): always a fresh buffer. */
    method Set(source: seq<byte>)
      modifies this
      ensures Valid() && Contents() == source && (data == null || fresh(data))
    {
      data, size := null, 0;
      if |source| != 0 {
        var buffer := new byte[|source| + 1];
        buffer[|source|] := 0;
        for i := 0 to |source|
          invariant buffer[..i] == source[..i] && buffer[|source|] == 0
        {
          buffer[i] := source[i];
        }
        data, size := buffer, |source|;
      }
    }

    /** set(uint64_t, true). */
    method SetUInt64(n: nat)
      requires n < WORD64
      modifies this
      ensures Valid() && Contents() == BigEndianBytes(n, 8) && (data == null || fresh(data))
    {
      Set(BigEndianBytes(n, 8));
    }

    /** asUInt64(true). The program reads eight bytes whatever the size is; beyond stands for the memory
        behind the buffer, and the shift removes every trace of it. */
    method AsUInt64(beyond: seq<byte>) returns (n: nat)
      requires Valid() && |beyond| >= 8
      ensures n == BigEndianValue(Leading(Contents()))
    {
      if data == null {
        return 0;
      }
      var memory := data[..] + beyond;
      var word := memory[..8];
      n := BigEndianValue(word);
      if size < 8 {
        assert word == data[..size] + word[size..];
        ShiftDropsTail(data[..size], word[size..]);
        n := n / Pow256(8 - size);
      } else {
        assert word == data[..size][..8];
        assert size == 8 ==> data[..size][..8] == data[..size];
      }
    }

    /** operator ==. */
    method Equals(other: ByteArray) returns (equal: bool)
      requires Valid() && other.Valid()
      ensures equal <==> Contents() == other.Contents()
    {
      if data == null && other.data == null {
        return true;
      }
      if data == null || other.data == null {
        return false;
      }
      if size != other.size {
        return false;
      }
      for i := 0 to size
        invariant data[..i] == other.data[..i]
      {
        if data[i] != other.data[i] {
          assert data[..size][i] != other.data[..size][i];
          return false;
        }
      }
      return true;
    }
  }

  lemma ShiftDropsTail(head: seq<byte>, tail: seq<byte>)
    ensures BigEndianValue(head + tail) / Pow256(|tail|) == BigEndianValue(head)
  {
    ConcatValue(head, tail);
    BytesOfValue(tail);
    DivModUnique(BigEndianValue(head + tail), Pow256(|tail|), BigEndianValue(head), BigEndianValue(tail));
  }

  lemma AppendByteValue(b: seq<byte>, c: byte)
    ensures BigEndianValue(b + [c]) == 256 * BigEndianValue(b) + c as nat
  {
    assert (b + [c])[..|b + [c]| - 1] == b;
  }

  lemma Regroup(v: nat, p: nat, w: nat, c: nat)
    ensures 256 * (v * p + w) + c == v * (256 * p) + (256 * w + c)
  {
  }

  lemma {:induction false} ConcatValue(head: seq<byte>, tail: seq<byte>)
    ensures BigEndianValue(head + tail) == BigEndianValue(head) * Pow256(|tail|) + BigEndianValue(tail)
  {
    if tail == [] {
      assert head + tail == head;
    } else {
      var front, c := tail[..|tail| - 1], tail[|tail| - 1];
      assert tail == front + [c];
      assert head + tail == (head + front) + [c];
      AppendByteValue(head + front, c);
      ConcatValue(head, front);
      Regroup(BigEndianValue(head), Pow256(|front|), BigEndianValue(front), c as nat);
    }
  }
}
