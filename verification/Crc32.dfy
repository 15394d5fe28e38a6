// Model of LibCpp/cCRC32.cpp: the 32 bit cyclic redundancy check in its two modes.

module Crc32 {

  const POLY32: bv32 := 0x04C11DB7
  const POLY32REV: bv32 := 0xEDB88320
  const ONES: bv32 := 0xFFFF_FFFF
  const TOP: bv32 := 0x8000_0000

  // ---- Words, by names that proofs can keep closed ----

  function Xor(a: bv32, b: bv32): bv32 { a ^ b }

  function Not(c: bv32): bv32 { !c }

  function Up(c: bv32): bv32 { c << 1 }

  function Down(c: bv32): bv32 { c >> 1 }

  predicate Carries(c: bv32) { c & TOP != 0 }

  predicate Odd(c: bv32) { c & 1 != 0 }

  lemma BitwiseGroup(a: bv32, b: bv32, c: bv32)
    ensures a ^ b == b ^ a && (a ^ b) ^ c == a ^ (b ^ c)
  {
  }

  lemma BitwiseZero(a: bv32, b: bv32)
    ensures a ^ 0 == a && a ^ a == 0 && (a ^ b == 0 ==> a == b)
  {
  }

  lemma XorGroup(a: bv32, b: bv32, c: bv32)
    ensures Xor(a, b) == Xor(b, a) && Xor(Xor(a, b), c) == Xor(a, Xor(b, c))
  {
    BitwiseGroup(a, b, c);
  }

  lemma XorZero(a: bv32, b: bv32)
    ensures Xor(a, 0) == a && Xor(a, a) == 0
    ensures Xor(a, b) == 0 ==> a == b
  {
    BitwiseZero(a, b);
  }

  lemma XorPoly(x: bv32, y: bv32, p: bv32)
    ensures Xor(Xor(x, p), Xor(y, p)) == Xor(x, y)
    ensures Xor(Xor(x, p), y) == Xor(Xor(x, y), p)
    ensures Xor(x, Xor(y, p)) == Xor(Xor(x, y), p)
  {
    hide Xor;
    XorGroup(x, p, Xor(y, p));
    XorGroup(p, p, y);
    XorGroup(y, p, p);
    XorGroup(x, p, y);
    XorGroup(x, y, p);
    XorGroup(0, y, y);
    XorZero(p, p);
    XorZero(y, y);
  }

  lemma UpXor(a: bv32, b: bv32)
    ensures Up(Xor(a, b)) == Xor(Up(a), Up(b))
    ensures Carries(Xor(a, b)) <==> Carries(a) != Carries(b)
  {
  }

  // ---- Bit order ----

  function Rev32(v: bv32): bv32 {
    var a := ((v & 0x5555_5555) << 1) | ((v >> 1) & 0x5555_5555);
    var b := ((a & 0x3333_3333) << 2) | ((a >> 2) & 0x3333_3333);
    var c := ((b & 0x0F0F_0F0F) << 4) | ((b >> 4) & 0x0F0F_0F0F);
    var d := ((c & 0x00FF_00FF) << 8) | ((c >> 8) & 0x00FF_00FF);
    (d << 16) | (d >> 16)
  }

  function Rev8(v: bv8): bv8 {
    var a := ((v & 0x55) << 1) | ((v >> 1) & 0x55);
    var b := ((a & 0x33) << 2) | ((a >> 2) & 0x33);
    (b << 4) | (b >> 4)
  }

  /** Bit k of the reversed word is bit 31 - k of the word. */
  lemma Rev32Bits(v: bv32, k: bv32)
    requires k < 32
    ensures (Rev32(v) >> k) & 1 == (v >> (31 - k)) & 1
  {
  }

  lemma Rev8Bits(v: bv8, k: bv8)
    requires k < 8
    ensures (Rev8(v) >> k) & 1 == (v >> (7 - k)) & 1
  {
  }

  lemma Rev32Xor(c: bv32, d: bv32)
    ensures Rev32(Xor(c, d)) == Xor(Rev32(c), Rev32(d))
  {
  }

  lemma Rev32Shift(c: bv32)
    ensures Rev32(c << 1) == Rev32(c) >> 1
  {
  }

  lemma Rev32Up(c: bv32)
    ensures Rev32(Up(c)) == Down(Rev32(c))
  {
    hide Rev32;
    Rev32Shift(c);
  }

  lemma Rev32Carries(c: bv32)
    ensures Carries(c) <==> Odd(Rev32(c))
  {
  }

  lemma Rev32Complement(c: bv32)
    ensures Rev32(!c) == !Rev32(c)
  {
  }

  lemma Rev32Not(c: bv32)
    ensures Rev32(Not(c)) == Not(Rev32(c))
  {
    hide Rev32;
    Rev32Complement(c);
  }

  lemma Rev32Twice(c: bv32)
    ensures Rev32(Rev32(c)) == c
  {
  }

  lemma Rev32Constants()
    ensures Rev32(POLY32) == POLY32REV && Rev32(ONES) == ONES
  {
  }

  /** A byte reversed and moved to the top is the byte at the bottom of the reversed word. */
  lemma Rev32Byte(b: bv8)
    ensures Rev32((Rev8(b) as bv32) << 24) == b as bv32
  {
  }

  // ---- The register ----

  function Step(c: bv32): bv32 {
    if Carries(c) then Xor(Up(c), POLY32) else Up(c)
  }

  function Steps(n: nat, c: bv32): bv32 {
    if n == 0 then c else Step(Steps(n - 1, c))
  }

  function AtTop(b: bv8): bv32 { (b as bv32) << 24 }

  function Feed(c: bv32, b: bv8): bv32 {
    Steps(8, Xor(c, AtTop(b)))
  }

  function Run(c: bv32, data: seq<bv8>): bv32 {
    if data == [] then c else Feed(Run(c, data[..|data| - 1]), data[|data| - 1])
  }

  /** The bytes in the bit order in which the mode shifts them in. */
  function Ordered(data: seq<bv8>, ethernet: bool): (r: seq<bv8>)
    ensures |r| == |data|
    ensures forall i :: 0 <= i < |data| ==> r[i] == if ethernet then Rev8(data[i]) else data[i]
  {
    if ethernet then seq(|data|, i requires 0 <= i < |data| => Rev8(data[i])) else data
  }

  function Crc(data: seq<bv8>, ethernet: bool): bv32 {
    var c := Not(Run(ONES, Ordered(data, ethernet)));
    if ethernet then Rev32(c) else c
  }

  lemma StepLinear(a: bv32, b: bv32)
    ensures Step(Xor(a, b)) == Xor(Step(a), Step(b))
  {
    hide Xor;
    hide Up;
    hide Carries;
    UpXor(a, b);
    XorPoly(Up(a), Up(b), POLY32);
  }

  lemma {:induction false} StepsLinear(n: nat, a: bv32, b: bv32)
    ensures Steps(n, Xor(a, b)) == Xor(Steps(n, a), Steps(n, b))
  {
    hide Xor;
    hide Step;
    if n > 0 {
      StepsLinear(n - 1, a, b);
      StepLinear(Steps(n - 1, a), Steps(n - 1, b));
    }
  }

  /** Nothing but zero is shifted to zero: a carried bit comes back as the lowest bit of the polynomial. */
  lemma StepKernel(c: bv32)
    ensures Step(c) == 0 <==> c == 0
  {
  }

  lemma {:induction false} StepsKernel(n: nat, c: bv32)
    ensures Steps(n, c) == 0 <==> c == 0
  {
    hide Step;
    if n > 0 {
      StepsKernel(n - 1, c);
      StepKernel(Steps(n - 1, c));
    }
  }

  lemma {:induction false} StepsAdd(m: nat, n: nat, c: bv32)
    ensures Steps(m + n, c) == Steps(m, Steps(n, c))
  {
    hide Step;
    if m > 0 {
      StepsAdd(m - 1, n, c);
    }
  }

  // ---- The reflected register ----

  /** The right-shifting form of the same register. */
  function StepReflected(c: bv32): bv32 {
    if Odd(c) then Xor(Down(c), POLY32REV) else Down(c)
  }

  function StepsReflected(n: nat, c: bv32): bv32 {
    if n == 0 then c else StepReflected(StepsReflected(n - 1, c))
  }

  function FeedReflected(c: bv32, b: bv8): bv32 {
    StepsReflected(8, Xor(c, b as bv32))
  }

  function RunReflected(c: bv32, data: seq<bv8>): bv32 {
    if data == [] then c else FeedReflected(RunReflected(c, data[..|data| - 1]), data[|data| - 1])
  }

  lemma StepMirrors(c: bv32)
    ensures Rev32(Step(c)) == StepReflected(Rev32(c))
  {
    hide Rev32;
    hide Xor;
    hide Up;
    hide Down;
    hide Odd;
    hide Carries;
    Rev32Up(c);
    Rev32Carries(c);
    Rev32Xor(Up(c), POLY32);
    Rev32Constants();
  }

  lemma {:induction false} StepsMirror(n: nat, c: bv32)
    ensures Rev32(Steps(n, c)) == StepsReflected(n, Rev32(c))
  {
    hide Rev32;
    hide Step;
    hide StepReflected;
    if n > 0 {
      StepsMirror(n - 1, c);
      StepMirrors(Steps(n - 1, c));
    }
  }

  lemma {:induction false} RunMirrors(data: seq<bv8>)
    ensures Rev32(Run(ONES, Ordered(data, true))) == RunReflected(ONES, data)
  {
    hide Rev32;
    hide Rev8;
    hide Xor;
    hide Steps;
    hide StepsReflected;
    hide AtTop;
    if data == [] {
      Rev32Constants();
    } else {
      var n := |data| - 1;
      RunMirrors(data[..n]);
      assert Ordered(data, true)[..n] == Ordered(data[..n], true);
      var c := Run(ONES, Ordered(data[..n], true));
      Rev32Xor(c, AtTop(Rev8(data[n])));
      Rev32AtTop(data[n]);
      StepsMirror(8, Xor(c, AtTop(Rev8(data[n]))));
    }
  }

  lemma Rev32AtTop(b: bv8)
    ensures Rev32(AtTop(Rev8(b))) == b as bv32
  {
    Rev32Byte(b);
  }

  /** In Ethernet mode the result is that of the right-shifting register with the reversed polynomial,
      fed with the bytes as they are: the frame check sequence of IEEE 802.3. */
  lemma EthernetIsReflected(data: seq<bv8>)
    ensures Crc(data, true) == Not(RunReflected(ONES, data))
  {
    hide Rev32;
    hide Run;
    hide RunReflected;
    hide Ordered;
    hide Not;
    RunMirrors(data);
    Rev32Not(Run(ONES, Ordered(data, true)));
  }

  // ---- Bit by bit ----

  function Mark(x: bool): bv32 { if x then TOP else 0 }

  function BitRun(c: bv32, w: seq<bool>): bv32
    decreases |w|
  {
    if w == [] then c else BitRun(Step(Xor(c, Mark(w[0]))), w[1..])
  }

  /** The bits of a byte, highest first. */
  function Bits(b: bv8): (w: seq<bool>)
    ensures |w| == 8
  {
    [b & 0x80 != 0, b & 0x40 != 0, b & 0x20 != 0, b & 0x10 != 0, b & 8 != 0, b & 4 != 0, b & 2 != 0, b & 1 != 0]
  }

  function AllBits(data: seq<bv8>): (w: seq<bool>)
    ensures |w| == 8 * |data|
  {
    if data == [] then [] else AllBits(data[..|data| - 1]) + Bits(data[|data| - 1])
  }

  /** At most 32 bits, the first one at the top of a word. */
  function Place(w: seq<bool>): bv32 {
    if w == [] then 0 else Xor(Mark(w[0]), Down(Place(w[1..])))
  }

  /** The word with the lowest 32 - n bits set. */
  function Below(n: nat): bv32 {
    if n == 0 then ONES else Down(Below(n - 1))
  }

  function Both(a: bv32, b: bv32): bv32 { a & b }

  lemma MarkClear(x: bool, p: bv32, b: bv32)
    requires Both(p, b) == 0
    ensures Both(Xor(Mark(x), Down(p)), Down(b)) == 0
  {
  }

  lemma {:induction false} PlaceClear(w: seq<bool>)
    ensures Both(Place(w), Below(|w|)) == 0
  {
    hide Xor;
    hide Down;
    hide Mark;
    if w == [] {
    } else {
      hide Both;
      PlaceClear(w[1..]);
      MarkClear(w[0], Place(w[1..]), Below(|w| - 1));
    }
  }

  predicate IsMask(b: bv32) { b & (b + 1) == 0 }

  lemma {:induction false} BelowIsMask(n: nat)
    ensures IsMask(Below(n))
  {
    if n > 0 {
      BelowIsMask(n - 1);
    }
  }

  function Down8(c: bv32): bv32 { c >> 8 }

  lemma DownEight(c: bv32)
    ensures Down(Down(Down(Down(Down(Down(Down(Down(c)))))))) == Down8(c)
  {
  }

  lemma BelowEight(n: nat)
    ensures Below(n + 8) == Down8(Below(n))
  {
    hide Down;
    hide Down8;
    DownEight(Below(n));
    assert Below(n + 1) == Down(Below(n)) && Below(n + 2) == Down(Below(n + 1));
    assert Below(n + 3) == Down(Below(n + 2)) && Below(n + 4) == Down(Below(n + 3));
    assert Below(n + 5) == Down(Below(n + 4)) && Below(n + 6) == Down(Below(n + 5));
    assert Below(n + 7) == Down(Below(n + 6)) && Below(n + 8) == Down(Below(n + 7));
  }

  lemma {:induction false} BelowRemains(n: nat)
    requires n <= 31
    ensures Below(n) != 0
    decreases 31 - n
  {
    if n == 31 {
      BelowEight(0);
      BelowEight(8);
      BelowEight(16);
      assert Below(32) == 0 && Below(24) == 0xFF by { BelowEight(24); }
      assert Below(25) == 0x7F && Below(26) == 0x3F && Below(27) == 0x1F && Below(28) == 0xF;
      assert Below(29) == 7 && Below(30) == 3 && Below(31) == 1;
    } else {
      BelowRemains(n + 1);
    }
  }

  lemma MaskIsOdd(p: bv32, b: bv32)
    requires Both(p, b) == 0 && IsMask(b) && b != 0
    ensures !Odd(p)
  {
  }

  /** As long as there is room the lowest bit is free. */
  lemma PlaceEven(w: seq<bool>)
    requires |w| <= 31
    ensures !Odd(Place(w))
  {
    hide Place;
    hide Below;
    hide Both;
    hide IsMask;
    hide Odd;
    PlaceClear(w);
    BelowIsMask(|w|);
    BelowRemains(|w|);
    MaskIsOdd(Place(w), Below(|w|));
  }

  lemma StepUndoesDown(p: bv32)
    requires !Odd(p)
    ensures Step(Down(p)) == p
  {
  }

  /** Up to 32 bits shifted in one by one are the word they make up, shifted in at once. */
  lemma {:induction false} BitRunPlaces(c: bv32, w: seq<bool>)
    requires |w| <= 32
    ensures BitRun(c, w) == Steps(|w|, Xor(c, Place(w)))
    decreases |w|
  {
    hide Xor;
    hide Step;
    hide Mark;
    hide Down;
    hide Odd;
    if w == [] {
      XorZero(c, c);
    } else {
      var m, p := Mark(w[0]), Place(w[1..]);
      BitRunPlaces(Step(Xor(c, m)), w[1..]);
      PlaceEven(w[1..]);
      StepUndoesDown(p);
      StepLinear(Xor(c, m), Down(p));
      XorGroup(c, m, Down(p));
      StepsAdd(|w| - 1, 1, Xor(c, Place(w)));
      assert Steps(1, Xor(c, Place(w))) == Step(Steps(0, Xor(c, Place(w))));
    }
  }

  lemma PlaceStart(x: bool, p: bv32)
    requires !Odd(p) && Xor(Mark(x), Down(p)) == 0
    ensures !x && p == 0
  {
  }

  lemma {:induction false} PlaceZero(w: seq<bool>, i: nat)
    requires |w| <= 32 && Place(w) == 0 && i < |w|
    ensures !w[i]
  {
    hide Xor;
    hide Mark;
    hide Down;
    hide Odd;
    PlaceEven(w[1..]);
    PlaceStart(w[0], Place(w[1..]));
    if i > 0 {
      PlaceZero(w[1..], i - 1);
    }
  }

  lemma {:induction false} BitRunConcat(c: bv32, a: seq<bool>, b: seq<bool>)
    ensures BitRun(c, a + b) == BitRun(BitRun(c, a), b)
    decreases |a|
  {
    hide Xor;
    hide Step;
    hide Mark;
    if a == [] {
      assert a + b == b;
    } else {
      assert (a + b)[1..] == a[1..] + b;
      BitRunConcat(Step(Xor(c, Mark(a[0]))), a[1..], b);
    }
  }

  /** Eight bits in front of a word. */
  lemma Eight(b: bv8, p: bv32)
    ensures var w := Bits(b);
            var p4 := Xor(Mark(w[4]), Down(Xor(Mark(w[5]), Down(Xor(Mark(w[6]), Down(Xor(Mark(w[7]), Down(p))))))));
            Xor(Mark(w[0]), Down(Xor(Mark(w[1]), Down(Xor(Mark(w[2]), Down(Xor(Mark(w[3]), Down(p4)))))))) == Xor(AtTop(b), Down8(p))
  {
  }

  lemma PlaceNext(w: seq<bool>, k: nat)
    requires k < |w|
    ensures Place(w[k..]) == Xor(Mark(w[k]), Down(Place(w[k + 1..])))
  {
    assert w[k..][1..] == w[k + 1..];
  }

  lemma PlaceByte(b: bv8, rest: seq<bool>)
    ensures Place(Bits(b) + rest) == Xor(AtTop(b), Down8(Place(rest)))
  {
    hide Xor;
    hide Mark;
    hide Down;
    hide Down8;
    hide AtTop;
    hide Place;
    var w := Bits(b) + rest;
    PlaceNext(w, 0);
    PlaceNext(w, 1);
    PlaceNext(w, 2);
    PlaceNext(w, 3);
    PlaceNext(w, 4);
    PlaceNext(w, 5);
    PlaceNext(w, 6);
    PlaceNext(w, 7);
    assert w[0..] == w && w[8..] == rest;
    assert forall k :: 0 <= k < 8 ==> w[k] == Bits(b)[k];
    hide Bits;
    Eight(b, Place(rest));
  }

  lemma FeedIsBits(c: bv32, b: bv8)
    ensures Feed(c, b) == BitRun(c, Bits(b))
  {
    hide Xor;
    hide AtTop;
    hide Steps;
    hide BitRun;
    assert Place([]) == 0;
    hide Place;
    hide Bits;
    BitRunPlaces(c, Bits(b));
    PlaceByte(b, []);
    assert Bits(b) + [] == Bits(b);
    assert Down8(0) == 0;
    XorZero(AtTop(b), c);
  }

  lemma {:induction false} RunIsBits(c: bv32, data: seq<bv8>)
    ensures Run(c, data) == BitRun(c, AllBits(data))
  {
    hide Feed;
    hide Bits;
    if data != [] {
      var n := |data| - 1;
      RunIsBits(c, data[..n]);
      FeedIsBits(Run(c, data[..n]), data[n]);
      BitRunConcat(c, AllBits(data[..n]), Bits(data[n]));
    }
  }

  // ---- Differences ----

  function Difference(a: seq<bool>, b: seq<bool>): (d: seq<bool>)
    requires |a| == |b|
    ensures |d| == |a| && forall i :: 0 <= i < |d| ==> d[i] == (a[i] != b[i])
  {
    seq(|a|, i requires 0 <= i < |a| => a[i] != b[i])
  }

  lemma MarkXor(x: bool, y: bool)
    ensures Xor(Mark(x), Mark(y)) == Mark(x != y)
  {
  }

  lemma XorSwap(a: bv32, b: bv32, c: bv32, d: bv32)
    ensures Xor(Xor(a, c), Xor(b, d)) == Xor(Xor(a, b), Xor(c, d))
  {
    hide Xor;
    XorGroup(a, c, Xor(b, d));
    XorGroup(c, b, d);
    XorGroup(b, c, d);
    XorGroup(a, b, Xor(c, d));
  }

  /** The registers of two frames differ by what their difference makes of the difference of their starts. */
  lemma {:induction false} BitRunLinear(c: bv32, d: bv32, a: seq<bool>, b: seq<bool>)
    requires |a| == |b|
    ensures Xor(BitRun(c, a), BitRun(d, b)) == BitRun(Xor(c, d), Difference(a, b))
    decreases |a|
  {
    hide Xor;
    hide Step;
    hide Mark;
    if a != [] {
      var m, n := Mark(a[0]), Mark(b[0]);
      BitRunLinear(Step(Xor(c, m)), Step(Xor(d, n)), a[1..], b[1..]);
      StepLinear(Xor(c, m), Xor(d, n));
      XorSwap(c, d, m, n);
      MarkXor(a[0], b[0]);
      assert Difference(a, b)[1..] == Difference(a[1..], b[1..]);
    }
  }

  lemma {:induction false} BitRunZeros(c: bv32, w: seq<bool>)
    requires forall i :: 0 <= i < |w| ==> !w[i]
    ensures BitRun(c, w) == Steps(|w|, c)
    decreases |w|
  {
    hide Xor;
    hide Step;
    if w != [] {
      XorZero(c, c);
      BitRunZeros(Step(c), w[1..]);
      StepsAdd(|w| - 1, 1, c);
      assert Steps(1, c) == Step(Steps(0, c));
    }
  }

  /** A difference of at most 32 bits leaves a trace, however long the frame goes on. */
  lemma BurstLeavesTrace(w: seq<bool>, p: nat, k: nat)
    requires k < |w| && w[k]
    requires forall i :: 0 <= i < |w| && !(p <= i < p + 32) ==> !w[i]
    ensures BitRun(0, w) != 0
  {
    hide Step;
    hide Steps;
    hide BitRun;
    hide Place;
    assert p <= k;
    var e := if p + 32 <= |w| then p + 32 else |w|;
    var mid := w[p..e];
    assert w == w[..p] + (mid + w[e..]);
    BitRunConcat(0, w[..p], mid + w[e..]);
    BitRunConcat(BitRun(0, w[..p]), mid, w[e..]);
    BitRunZeros(0, w[..p]);
    StepsKernel(p, 0);
    BitRunPlaces(0, mid);
    XorZero(Place(mid), 0);
    XorGroup(0, Place(mid), 0);
    if Place(mid) == 0 {
      PlaceZero(mid, k - p);
    }
    StepsKernel(|mid|, Place(mid));
    BitRunZeros(BitRun(0, mid), w[e..]);
    StepsKernel(|w| - e, BitRun(0, mid));
  }

  lemma AllBitsAt(data: seq<bv8>, k: nat, j: nat)
    requires k < |data| && j < 8
    ensures AllBits(data)[8 * k + j] == Bits(data[k])[j]
  {
    hide Bits;
    if k < |data| - 1 {
      AllBitsAt(data[..|data| - 1], k, j);
    }
  }

  lemma ByteFromBits(a: bv8, b: bv8)
    requires Bits(a) == Bits(b)
    ensures a == b
  {
    assert forall k :: 0 <= k < 8 ==> Bits(a)[k] == Bits(b)[k];
    SameByte(a, b);
  }

  lemma SameByte(a: bv8, b: bv8)
    requires (a & 0x80 != 0) == (b & 0x80 != 0) && (a & 0x40 != 0) == (b & 0x40 != 0)
    requires (a & 0x20 != 0) == (b & 0x20 != 0) && (a & 0x10 != 0) == (b & 0x10 != 0)
    requires (a & 8 != 0) == (b & 8 != 0) && (a & 4 != 0) == (b & 4 != 0)
    requires (a & 2 != 0) == (b & 2 != 0) && (a & 1 != 0) == (b & 1 != 0)
    ensures a == b
  {
  }

  lemma Rev8Injective(a: bv8, b: bv8)
    requires Rev8(a) == Rev8(b)
    ensures a == b
  {
    Rev8Twice(a);
    Rev8Twice(b);
  }

  lemma Rev8Twice(a: bv8)
    ensures Rev8(Rev8(a)) == a
  {
  }

  /** The bits of a frame in the order in which they are shifted in. */
  function Line(data: seq<bv8>, ethernet: bool): (w: seq<bool>)
    ensures |w| == 8 * |data|
  {
    AllBits(Ordered(data, ethernet))
  }

  lemma DifferentBit(a: seq<bv8>, b: seq<bv8>, ethernet: bool) returns (i: nat)
    requires |a| == |b| && a != b
    ensures i < 8 * |a| && Line(a, ethernet)[i] != Line(b, ethernet)[i]
  {
    hide Bits;
    hide Rev8;
    hide AllBits;
    var k :| 0 <= k < |a| && a[k] != b[k];
    var x, y := Ordered(a, ethernet), Ordered(b, ethernet);
    if x[k] == y[k] && ethernet {
      Rev8Injective(a[k], b[k]);
    }
    if Bits(x[k]) == Bits(y[k]) {
      ByteFromBits(x[k], y[k]);
    }
    var j :| 0 <= j < 8 && Bits(x[k])[j] != Bits(y[k])[j];
    AllBitsAt(x, k, j);
    AllBitsAt(y, k, j);
    i := 8 * k + j;
  }

  lemma CrcInjective(a: seq<bv8>, b: seq<bv8>, ethernet: bool)
    requires Crc(a, ethernet) == Crc(b, ethernet)
    ensures Run(ONES, Ordered(a, ethernet)) == Run(ONES, Ordered(b, ethernet))
  {
    hide Rev32;
    hide Run;
    var x, y := Run(ONES, Ordered(a, ethernet)), Run(ONES, Ordered(b, ethernet));
    Rev32Twice(Not(x));
    Rev32Twice(Not(y));
    NotTwice(x);
    NotTwice(y);
  }

  lemma NotTwice(c: bv32)
    ensures Not(Not(c)) == c
  {
  }

  /** Two different frames of one length whose bits, in the order of transmission, agree outside of 32
      consecutive ones have different check values, in both modes. */
  lemma BurstDetected(a: seq<bv8>, b: seq<bv8>, ethernet: bool, p: nat)
    requires |a| == |b| && a != b
    requires forall i :: 0 <= i < 8 * |a| && !(p <= i < p + 32) ==> Line(a, ethernet)[i] == Line(b, ethernet)[i]
    ensures Crc(a, ethernet) != Crc(b, ethernet)
  {
    hide Crc;
    hide Run;
    hide BitRun;
    hide AllBits;
    hide Xor;
    var v, w := Line(a, ethernet), Line(b, ethernet);
    var k := DifferentBit(a, b, ethernet);
    BurstLeavesTrace(Difference(v, w), p, k);
    BitRunLinear(ONES, ONES, v, w);
    XorZero(ONES, ONES);
    RunIsBits(ONES, Ordered(a, ethernet));
    RunIsBits(ONES, Ordered(b, ethernet));
    XorZero(BitRun(ONES, v), BitRun(ONES, w));
    if Crc(a, ethernet) == Crc(b, ethernet) {
      CrcInjective(a, b, ethernet);
    }
  }

  /** In particular, four damaged bytes in a row never go unnoticed. */
  lemma FourBytesDetected(a: seq<bv8>, b: seq<bv8>, ethernet: bool, p: nat)
    requires |a| == |b| && a != b
    requires forall i :: 0 <= i < |a| && !(p <= i < p + 4) ==> a[i] == b[i]
    ensures Crc(a, ethernet) != Crc(b, ethernet)
  {
    hide Crc;
    hide AllBits;
    hide Bits;
    hide Rev8;
    var x, y := Ordered(a, ethernet), Ordered(b, ethernet);
    forall i | 0 <= i < 8 * |a| && !(8 * p <= i < 8 * p + 32)
      ensures Line(a, ethernet)[i] == Line(b, ethernet)[i]
    {
      var k, j := i / 8, i % 8;
      AllBitsAt(x, k, j);
      AllBitsAt(y, k, j);
      assert a[k] == b[k];
    }
    BurstDetected(a, b, ethernet, 8 * p);
  }

  // ---- The residue ----

  /** The check value as the mode appends it: lowest byte first in Ethernet mode, highest first otherwise. */
  function Trailer(crc: bv32, ethernet: bool): (t: seq<bv8>)
    ensures |t| == 4
  {
    var t := [(crc & 0xFF) as bv8, ((crc >> 8) & 0xFF) as bv8, ((crc >> 16) & 0xFF) as bv8, (crc >> 24) as bv8];
    if ethernet then t else [t[3], t[2], t[1], t[0]]
  }

  function Residue(ethernet: bool): bv32 {
    if ethernet then 0x2144DF1C else 0x38FB2284
  }

  function Word(a: bv8, b: bv8, c: bv8, d: bv8): bv32 {
    Xor(AtTop(a), Down8(Xor(AtTop(b), Down8(Xor(AtTop(c), Down8(AtTop(d)))))))
  }

  lemma {:induction false} RunConcat(c: bv32, a: seq<bv8>, b: seq<bv8>)
    ensures Run(c, a + b) == Run(Run(c, a), b)
  {
    hide Feed;
    if b == [] {
      assert a + b == a;
    } else {
      var n := |b| - 1;
      assert (a + b)[..|a + b| - 1] == a + b[..n];
      RunConcat(c, a, b[..n]);
    }
  }

  lemma PlaceBits(b: bv8)
    ensures Place(Bits(b)) == AtTop(b)
  {
    hide Xor;
    hide AtTop;
    hide Bits;
    assert Place([]) == 0;
    hide Place;
    PlaceByte(b, []);
    assert Bits(b) + [] == Bits(b);
    assert Down8(0) == 0;
    XorZero(AtTop(b), 0);
  }

  /** Four bytes are one word. */
  lemma RunFour(s: bv32, g: seq<bv8>)
    requires |g| == 4
    ensures Run(s, g) == Steps(32, Xor(s, Word(g[0], g[1], g[2], g[3])))
  {
    hide Xor;
    hide AtTop;
    hide Bits;
    hide Place;
    hide Steps;
    hide BitRun;
    hide Down8;
    RunIsBits(s, g);
    assert g[..3][..2] == g[..2] && g[..2][..1] == g[..1];
    assert AllBits(g) == Bits(g[0]) + (Bits(g[1]) + (Bits(g[2]) + Bits(g[3]))) by { FourBytes(g); }
    BitRunPlaces(s, AllBits(g));
    PlaceByte(g[0], Bits(g[1]) + (Bits(g[2]) + Bits(g[3])));
    PlaceByte(g[1], Bits(g[2]) + Bits(g[3]));
    PlaceByte(g[2], Bits(g[3]));
    PlaceBits(g[3]);
  }

  lemma FourBytes(g: seq<bv8>)
    requires |g| == 4
    ensures AllBits(g) == Bits(g[0]) + (Bits(g[1]) + (Bits(g[2]) + Bits(g[3])))
  {
    hide Bits;
    assert g[..3][..2] == g[..2] && g[..2][..1] == g[..1] && g[..1][..0] == [];
    assert AllBits(g[..1]) == AllBits([]) + Bits(g[0]);
    assert AllBits(g[..2]) == AllBits(g[..1]) + Bits(g[1]);
    assert AllBits(g[..3]) == AllBits(g[..2]) + Bits(g[2]);
    assert AllBits(g) == AllBits(g[..3]) + Bits(g[3]);
  }

  lemma WordOfTrailer(crc: bv32)
    ensures var t := Trailer(crc, false); Word(t[0], t[1], t[2], t[3]) == crc
  {
  }

  lemma WordOfReversedTrailer(crc: bv32)
    ensures var t := Trailer(crc, true); Word(Rev8(t[0]), Rev8(t[1]), Rev8(t[2]), Rev8(t[3])) == Rev32(crc)
  {
  }

  lemma WordInjective(a: bv8, b: bv8, c: bv8, d: bv8, e: bv8, f: bv8, g: bv8, h: bv8)
    requires Word(a, b, c, d) == Word(e, f, g, h)
    ensures a == e && b == f && c == g && d == h
  {
  }

  function Octet(c: bv32): bv32 {
    Step(Step(Step(Step(Step(Step(Step(Step(c))))))))
  }

  lemma StepsEight(n: nat, c: bv32)
    ensures Steps(n + 8, c) == Octet(Steps(n, c))
  {
    hide Step;
    assert Steps(n + 1, c) == Step(Steps(n, c)) && Steps(n + 2, c) == Step(Steps(n + 1, c));
    assert Steps(n + 3, c) == Step(Steps(n + 2, c)) && Steps(n + 4, c) == Step(Steps(n + 3, c));
    assert Steps(n + 5, c) == Step(Steps(n + 4, c)) && Steps(n + 6, c) == Step(Steps(n + 5, c));
    assert Steps(n + 7, c) == Step(Steps(n + 6, c)) && Steps(n + 8, c) == Step(Steps(n + 7, c));
  }

  lemma EightsOfOnes()
    ensures Octet(ONES) == 0x4E08BFB4 && Octet(0x4E08BFB4) == 0x00B7647D
    ensures Octet(0x00B7647D) == 0xB7647D00 && Octet(0xB7647D00) == 0xC704DD7B
  {
  }

  lemma StepsOfOnes()
    ensures Steps(32, ONES) == 0xC704DD7B
  {
    hide Octet;
    EightsOfOnes();
    StepsEight(0, ONES);
    StepsEight(8, ONES);
    StepsEight(16, ONES);
    StepsEight(24, ONES);
  }

  /** The register after a frame and four more bytes reaches the residue only if these bytes complete it. */
  lemma ResidueRegister(s: bv32, w: bv32)
    ensures Steps(32, Xor(s, w)) == 0xC704DD7B <==> w == Not(s)
  {
    hide Steps;
    hide Xor;
    StepsOfOnes();
    XorZero(Xor(s, w), ONES);
    StepsLinear(32, Xor(s, w), ONES);
    StepsKernel(32, Xor(Xor(s, w), ONES));
    XorZero(Steps(32, Xor(s, w)), Steps(32, ONES));
    Complement(s, w);
    if Xor(s, w) != ONES {
      assert Steps(32, Xor(s, w)) != Steps(32, ONES);
    }
  }

  lemma Complement(s: bv32, w: bv32)
    ensures Xor(s, w) == ONES <==> w == Not(s)
  {
    NotIsXor(s);
    hide Xor;
    hide Not;
    XorGroup(s, s, w);
    XorGroup(s, s, ONES);
    XorGroup(0, w, w);
    XorGroup(0, ONES, ONES);
    XorZero(s, s);
    XorZero(w, w);
    XorZero(ONES, ONES);
  }

  lemma NotIsXor(s: bv32)
    ensures Not(s) == Xor(s, ONES)
  {
  }

  lemma ResidueOfCrc(c: bv32)
    ensures Not(c) == Residue(false) <==> c == 0xC704DD7B
    ensures Rev32(Not(c)) == Residue(true) <==> c == 0xC704DD7B
  {
    assert Rev32(Residue(false)) == Residue(true);
    Rev32Twice(Not(c));
    hide Rev32;
    NotTwice(c);
  }

  lemma WordOfOrdered(crc: bv32, f: seq<bv8>, ethernet: bool)
    requires |f| == 4
    ensures var g := Ordered(f, ethernet);
            Word(g[0], g[1], g[2], g[3]) == (if ethernet then Rev32(crc) else crc) <==> f == Trailer(crc, ethernet)
  {
    hide Word;
    hide Rev8;
    hide Rev32;
    hide Trailer;
    var g, t := Ordered(f, ethernet), Trailer(crc, ethernet);
    if ethernet {
      WordOfReversedTrailer(crc);
    } else {
      WordOfTrailer(crc);
    }
    var u := Ordered(t, ethernet);
    assert Word(u[0], u[1], u[2], u[3]) == if ethernet then Rev32(crc) else crc;
    if Word(g[0], g[1], g[2], g[3]) == Word(u[0], u[1], u[2], u[3]) {
      WordInjective(g[0], g[1], g[2], g[3], u[0], u[1], u[2], u[3]);
      OrderedInjective(f, t, ethernet);
    }
  }

  lemma OrderedInjective(a: seq<bv8>, b: seq<bv8>, ethernet: bool)
    requires Ordered(a, ethernet) == Ordered(b, ethernet)
    ensures a == b
  {
    hide Rev8;
    assert |a| == |b|;
    if ethernet {
      forall i | 0 <= i < |a|
        ensures a[i] == b[i]
      {
        Rev8Injective(a[i], b[i]);
      }
    }
  }

  /** A frame with four more bytes has the residue as its check value if and only if these bytes are the
      check value of the frame. */
  lemma ResidueIffIntact(frame: seq<bv8>, f: seq<bv8>, ethernet: bool)
    requires |f| == 4
    ensures Crc(frame + f, ethernet) == Residue(ethernet) <==> f == Trailer(Crc(frame, ethernet), ethernet)
  {
    hide Rev32;
    hide Run;
    hide Word;
    hide Not;
    hide Trailer;
    hide Steps;
    hide Xor;
    hide Residue;
    var s, g := Run(ONES, Ordered(frame, ethernet)), Ordered(f, ethernet);
    assert Ordered(frame + f, ethernet) == Ordered(frame, ethernet) + g;
    RunConcat(ONES, Ordered(frame, ethernet), g);
    RunFour(s, g);
    var w := Word(g[0], g[1], g[2], g[3]);
    ResidueRegister(s, w);
    ResidueOfCrc(Run(s, g));
    WordOfOrdered(Crc(frame, ethernet), f, ethernet);
    Rev32Twice(Not(s));
  }

  // ---- The program ----

  /** The running mask of the reversing loops: a single bit that leaves the word at the top. */
  function Mask32(i: nat): bv32 {
    if i == 0 then 1 else Up(Mask32(i - 1))
  }

  function Mask8(i: nat): bv8 {
    if i == 0 then 1 else Mask8(i - 1) << 1
  }

  predicate Single32(mask: bv32) { mask & (mask - 1) == 0 }

  function Or(a: bv32, b: bv32): bv32 { a | b }

  predicate Hits(value: bv32, mask: bv32) { Both(value, mask) != 0 }

  predicate Single8(mask: bv8) { mask & (mask - 1) == 0 }

  function Pred(mask: bv32): bv32 { mask - 1 }

  function Low(value: bv32, mask: bv32): bv32 { Both(value, Pred(mask)) }

  function Reversed32(value: bv32, mask: bv32): bv32 { Rev32(Low(value, mask)) }

  function Reversed8(value: bv8, mask: bv8): bv8 { Rev8(value & (mask - 1)) }

  lemma PredUp(mask: bv32)
    requires Single32(mask)
    ensures Pred(Up(mask)) == Or(Pred(mask), mask)
  {
  }

  lemma BothOr(v: bv32, l: bv32, m: bv32)
    ensures Both(v, Or(l, m)) == Or(Both(v, l), Both(v, m))
  {
    Distribute(v, l, m);
  }

  lemma Distribute(v: bv32, l: bv32, m: bv32)
    ensures v & (l | m) == (v & l) | (v & m)
  {
  }

  lemma OrZero(v: bv32)
    ensures Or(v, 0) == v
  {
  }

  lemma BothSingle(v: bv32, m: bv32)
    requires Single32(m)
    ensures Both(v, m) == 0 || Both(v, m) == m
  {
  }

  lemma LowStep(value: bv32, mask: bv32)
    requires Single32(mask)
    ensures Low(value, Up(mask)) == if Hits(value, mask) then Or(Low(value, mask), mask) else Low(value, mask)
  {
    hide Both;
    hide Or;
    hide Pred;
    hide Up;
    hide Single32;
    PredUp(mask);
    BothOr(value, Pred(mask), mask);
    BothSingle(value, mask);
    OrZero(Both(value, Pred(mask)));
  }

  lemma SingleUp(mask: bv32)
    ensures Single32(mask) ==> Single32(Up(mask))
  {
  }

  lemma Rev32Disjunction(a: bv32, b: bv32)
    ensures Rev32(a | b) == Rev32(a) | Rev32(b)
  {
  }

  lemma Rev32Or(a: bv32, b: bv32)
    ensures Rev32(Or(a, b)) == Or(Rev32(a), Rev32(b))
  {
    hide Rev32;
    Rev32Disjunction(a, b);
  }

  lemma MaskStep32(value: bv32, mask: bv32, result: bv32)
    requires Single32(mask) && result == Reversed32(value, mask)
    ensures (if Hits(value, mask) then Or(result, Rev32(mask)) else result) == Reversed32(value, Up(mask))
    ensures Single32(Up(mask)) && Rev32(Up(mask)) == Down(Rev32(mask))
  {
    hide Rev32;
    hide Low;
    hide Hits;
    hide Or;
    hide Single32;
    hide Up;
    hide Down;
    LowStep(value, mask);
    SingleUp(mask);
    Rev32Up(mask);
    Rev32Or(Low(value, mask), mask);
  }

  lemma MaskStep8(value: bv8, mask: bv8, result: bv8)
    requires Single8(mask) && result == Reversed8(value, mask)
    ensures (result | if value & mask != 0 then Rev8(mask) else 0) == Reversed8(value, mask << 1)
    ensures Single8(mask << 1) && Rev8(mask << 1) == Rev8(mask) >> 1
  {
  }

  lemma MaskLeaves32()
    ensures Mask32(32) == 0
  {
    MaskMoves(0);
    MaskMoves(8);
    MaskMoves(16);
    MaskMoves(24);
  }

  lemma MaskMoves(i: nat)
    ensures Mask32(i + 8) == Mask32(i) << 8
  {
    hide Up;
    UpEight(Mask32(i));
    assert Mask32(i + 1) == Up(Mask32(i)) && Mask32(i + 2) == Up(Mask32(i + 1));
    assert Mask32(i + 3) == Up(Mask32(i + 2)) && Mask32(i + 4) == Up(Mask32(i + 3));
    assert Mask32(i + 5) == Up(Mask32(i + 4)) && Mask32(i + 6) == Up(Mask32(i + 5));
    assert Mask32(i + 7) == Up(Mask32(i + 6)) && Mask32(i + 8) == Up(Mask32(i + 7));
  }

  lemma UpEight(c: bv32)
    ensures Up(Up(Up(Up(Up(Up(Up(Up(c)))))))) == c << 8
  {
  }

  lemma {:induction false} MaskGone8(i: nat)
    requires i >= 8
    ensures Mask8(i) == 0
  {
    if i == 8 {
      assert Mask8(1) == 2 && Mask8(2) == 4 && Mask8(3) == 8 && Mask8(4) == 16;
      assert Mask8(5) == 32 && Mask8(6) == 64 && Mask8(7) == 128;
    } else {
      MaskGone8(i - 1);
    }
  }

  lemma ReversedWord(v: bv32)
    ensures Reversed32(v, 0) == Rev32(v) && Reversed32(v, 1) == 0
  {
    LowEnds(v);
    assert Rev32(0) == 0;
  }

  lemma LowEnds(v: bv32)
    ensures Low(v, 0) == v && Low(v, 1) == 0
  {
  }

  lemma FirstMask()
    ensures Single32(1) && Rev32(1) == 0x8000_0000 && Single8(1) && Rev8(1) == 0x80
  {
  }

  lemma ReversedByte(b: bv8)
    ensures Reversed8(b, 0) == Rev8(b) && Reversed8(b, 1) == 0
  {
  }

  method ReverseWord(value: bv32) returns (result: bv32)
    ensures result == Rev32(value)
  {
    hide Rev32;
    hide Reversed32;
    hide Reversed8;
    hide Single32;
    hide Hits;
    hide Or;
    hide Up;
    hide Down;
    ReversedWord(value);
    FirstMask();
    result := 0;
    var mask: bv32 := 1;
    var setter: bv32 := 0x8000_0000;
    for i := 0 to 32
      invariant mask == Mask32(i) && Single32(mask) && setter == Rev32(mask)
      invariant result == Reversed32(value, mask)
    {
      MaskStep32(value, mask, result);
      if Hits(value, mask) {
        result := Or(result, setter);
      }
      mask := Up(mask);
      setter := Down(setter);
    }
    MaskLeaves32();
  }

  /** The loop goes on after the mask has left the byte. */
  method ReverseByte(value: bv8) returns (result: bv8)
    ensures result == Rev8(value)
  {
    hide Rev8;
    hide Reversed32;
    hide Reversed8;
    hide Single8;
    ReversedByte(value);
    FirstMask();
    result := 0;
    var mask: bv8 := 1;
    var setter: bv8 := 0x80;
    for i := 0 to 32
      invariant mask == Mask8(i) && Single8(mask) && setter == Rev8(mask)
      invariant result == Reversed8(value, mask)
    {
      MaskStep8(value, mask, result);
      if value & mask != 0 {
        result := result | setter;
      }
      mask := mask << 1;
      setter := setter >> 1;
    }
    MaskGone8(32);
  }

  method ShiftOut(c: bv32) returns (crc: bv32)
    ensures crc == Steps(8, c)
  {
    hide Xor;
    hide Carries;
    hide Up;
    crc := c;
    for i := 0 to 8
      invariant crc == Steps(i, c)
    {
      if Carries(crc) {
        crc := Xor(Up(crc), POLY32);
      } else {
        crc := Up(crc);
      }
    }
  }

  method Calculate(buffer: seq<bv8>, ethernet: bool) returns (result: bv32)
    ensures result == Crc(buffer, ethernet)
  {
    hide Rev32;
    hide Rev8;
    hide Xor;
    hide Steps;
    hide Not;
    var crc: bv32 := ONES;
    ghost var data := Ordered(buffer, ethernet);
    for j := 0 to |buffer|
      invariant crc == Run(ONES, data[..j])
    {
      assert data[..j + 1][..j] == data[..j];
      var value := buffer[j];
      if ethernet {
        value := ReverseByte(value);
      }
      crc := ShiftOut(Xor(crc, (value as bv32) << 24));
    }
    assert data[..|buffer|] == data;
    if ethernet {
      result := ReverseWord(Not(crc));
    } else {
      result := Not(crc);
    }
  }

  // ---- A check value ----

  lemma ZeroFed()
    ensures Feed(ONES, 0) == 0x4E08_BFB4
  {
    assert Xor(ONES, AtTop(0)) == ONES;
    assert Steps(0, ONES) == 0xFFFF_FFFF;
    assert Steps(1, ONES) == 0xFB3E_E249;
    assert Steps(2, ONES) == 0xF2BC_D925;
    assert Steps(3, ONES) == 0xE1B8_AFFD;
    assert Steps(4, ONES) == 0xC7B0_424D;
    assert Steps(5, ONES) == 0x8BA1_992D;
    assert Steps(6, ONES) == 0x1382_2FED;
    assert Steps(7, ONES) == 0x2704_5FDA;
    assert Steps(8, ONES) == 0x4E08_BFB4;
  }

  /** The two values of a frame of one zero byte. */
  lemma CheckValue()
    ensures Crc([0], true) == 0xD202_EF8D && Crc([0], false) == 0xB1F7_404B
  {
    ZeroFed();
    hide Feed;
    assert Rev8(0) == 0;
    assert Ordered([0], true) == [0] == Ordered([0], false);
    assert [0][..0] == [] && Run(ONES, []) == ONES && Run(ONES, [0]) == 0x4E08_BFB4;
    assert Not(0x4E08_BFB4) == 0xB1F7_404B && Rev32(0xB1F7_404B) == 0xD202_EF8D;
  }
}
