// Model of stIpAddress::toString in LibCpp/HAL/cIp.cpp for IPv6, without port and interface, and an
// independent reader of the text form of section 2.2 of RFC 4291.

module IpText {
  import opened V2g

  // ---- Hexadecimal numbers ----

  function HexDigit(d: nat): (c: char)
    requires d < 16
    ensures c != ':'
  {
    if d < 10 then (d + 48) as char else (d - 10 + 97) as char
  }

  /** What printf writes for %x. */
  function HexText(n: nat): (t: string)
    ensures t != "" && ':' !in t
  {
    if n < 16 then [HexDigit(n)] else HexText(n / 16) + [HexDigit(n % 16)]
  }

  function DigitValue(c: char): Option<nat> {
    if '0' <= c <= '9' then Some(c as nat - 48)
    else if 'a' <= c <= 'f' then Some(c as nat - 87)
    else if 'A' <= c <= 'F' then Some(c as nat - 55)
    else None
  }

  function DigitsValue(t: string): Option<nat> {
    if t == "" then Some(0)
    else
      var high, low := DigitsValue(t[..|t| - 1]), DigitValue(t[|t| - 1]);
      if high.Some? && low.Some? then Some(16 * high.value + low.value) else None
  }

  /** One group: one to four hexadecimal digits. */
  function GroupValue(t: string): Option<nat> {
    if 1 <= |t| <= 4 then DigitsValue(t) else None
  }

  function Pow16(k: nat): nat {
    if k == 0 then 1 else 16 * Pow16(k - 1)
  }

  lemma {:induction false} HexTextValue(n: nat)
    ensures DigitsValue(HexText(n)) == Some(n)
  {
    if n >= 16 {
      HexTextValue(n / 16);
      var t := HexText(n);
      assert t[..|t| - 1] == HexText(n / 16);
    } else {
      assert DigitsValue("") == Some(0);
      assert HexText(n)[..0] == "";
    }
  }

  lemma {:induction false} HexTextLength(n: nat, k: nat)
    requires k >= 1 && n < Pow16(k)
    ensures |HexText(n)| <= k
  {
    if n >= 16 {
      assert k >= 2;
      HexTextLength(n / 16, k - 1);
    }
  }

  lemma GroupRoundTrip(n: nat)
    requires n < 0x1_0000
    ensures GroupValue(HexText(n)) == Some(n)
  {
    assert Pow16(1) == 16 && Pow16(2) == 256 && Pow16(3) == 4096 && Pow16(4) == 0x1_0000;
    HexTextLength(n, 4);
    HexTextValue(n);
  }

  // ---- The reader ----

  /** The fields between the colons; a text without a colon is one field. */
  function Fields(text: string): (f: seq<string>)
    ensures |f| >= 1
  {
    if text == "" then [""]
    else if text[0] == ':' then [""] + Fields(text[1..])
    else
      var rest := Fields(text[1..]);
      [[text[0]] + rest[0]] + rest[1..]
  }

  function Groups(f: seq<string>): Option<seq<nat>> {
    if f == [] then Some([])
    else
      var first, rest := GroupValue(f[0]), Groups(f[1..]);
      if first.Some? && rest.Some? then Some([first.value] + rest.value) else None
  }

  function Zeros(n: nat): (z: seq<nat>)
    ensures |z| == n && forall i :: 0 <= i < n ==> z[i] == 0
  {
    seq(n, i => 0)
  }

  /** The fields before and after the double colon. */
  function Expand(before: seq<string>, after: seq<string>): Option<seq<nat>> {
    var a, b := Groups(before), Groups(if after == [""] then [] else after);
    if a.Some? && b.Some? && |a.value| + |b.value| <= 7
    then Some(a.value + Zeros(8 - |a.value| - |b.value|) + b.value)
    else None
  }

  function FirstEmpty(f: seq<string>): (k: nat)
    ensures k <= |f| && (forall i :: 0 <= i < k ==> f[i] != "") && (k < |f| ==> f[k] == "")
  {
    if f == [] || f[0] == "" then 0 else 1 + FirstEmpty(f[1..])
  }

  /** Eight groups, or fewer with one double colon that stands for the missing zero groups. */
  function ReadFields(f: seq<string>): Option<seq<nat>> {
    var k := FirstEmpty(f);
    if k == |f| then
      var g := Groups(f);
      if g.Some? && |g.value| == 8 then g else None
    else if k == 0 then (if |f| >= 3 && f[1] == "" then Expand([], f[2..]) else None)
    else if k + 1 < |f| then Expand(f[..k], f[k + 1..])
    else None
  }

  function Read(text: string): Option<seq<nat>> {
    ReadFields(Fields(text))
  }

  // ---- The printer ----

  type Address = g: seq<nat> | |g| == 8 && forall i :: 0 <= i < 8 ==> g[i] < 0x1_0000 witness [0, 0, 0, 0, 0, 0, 0, 0]

  /** The text so far and the counter of the loop: 0 at the start, 1 after a first group, 2 inside the
      run of zeros that is left out, 3 behind it. */
  datatype Printer = Printer(out: string, cnt: nat)

  function Put(p: Printer, group: nat): Printer {
    if group != 0 || p.cnt > 2 then Printer(p.out + HexText(group) + ":", if p.cnt < 2 then 1 else if p.cnt == 2 then 3 else p.cnt)
    else if p.cnt < 2 then Printer(p.out + ":", p.cnt + 1)
    else p
  }

  function PutAll(g: seq<nat>): Printer {
    if g == [] then Printer("", 0) else Put(PutAll(g[..|g| - 1]), g[|g| - 1])
  }

  function Print(g: Address): string {
    PutAll(g[..7]).out + if g[7] != 0 then HexText(g[7]) else ""
  }

  method ToString(g: Address) returns (out: string)
    ensures out == "[" + Print(g) + "]"
  {
    out := "[";
    var cnt := 0;
    for i := 0 to 7
      invariant out == "[" + PutAll(g[..i]).out && cnt == PutAll(g[..i]).cnt
    {
      assert g[..i + 1][..i] == g[..i];
      if g[i] != 0 || cnt > 2 {
        out := out + (HexText(g[i]) + ":");
        if cnt < 2 {
          cnt := 1;
        }
        if cnt == 2 {
          cnt := cnt + 1;
        }
      } else {
        if cnt < 2 {
          out := out + ":";
          cnt := cnt + 1;
        }
      }
    }
    if g[7] != 0 {
      out := out + HexText(g[7]);
    }
    out := out + "]";
  }

  // ---- At most one double colon ----

  function DoubleColons(t: string): nat {
    if |t| < 2 then 0
    else DoubleColons(t[..|t| - 1]) + if t[|t| - 1] == ':' && t[|t| - 2] == ':' then 1 else 0
  }

  lemma {:induction false} AppendText(t: string, h: string)
    requires ':' !in h
    ensures DoubleColons(t + h) == DoubleColons(t)
  {
    if h == "" {
      assert t + h == t;
    } else {
      AppendText(t, h[..|h| - 1]);
      assert (t + h)[..|t + h| - 1] == t + h[..|h| - 1];
    }
  }

  lemma AppendColon(t: string)
    ensures DoubleColons(t + ":") == DoubleColons(t) + if t != "" && t[|t| - 1] == ':' then 1 else 0
  {
    assert (t + ":")[..|t|] == t;
  }

  lemma {:induction false} PutAllColons(g: seq<nat>)
    ensures var p := PutAll(g);
            && DoubleColons(p.out) == (if p.cnt >= 2 then 1 else 0)
            && (p.cnt == 0 <==> p.out == "") && (p.out != "" ==> p.out[|p.out| - 1] == ':')
  {
    if g != [] {
      PutAllColons(g[..|g| - 1]);
      var p, n := PutAll(g[..|g| - 1]), g[|g| - 1];
      if n != 0 || p.cnt > 2 {
        AppendText(p.out, HexText(n));
        AppendColon(p.out + HexText(n));
      } else if p.cnt < 2 {
        AppendColon(p.out);
      }
    }
  }

  /** Whatever the address, the text holds at most one double colon. */
  lemma OneDoubleColon(g: Address)
    ensures DoubleColons(Print(g)) <= 1
  {
    PutAllColons(g[..7]);
    AppendText(PutAll(g[..7]).out, if g[7] != 0 then HexText(g[7]) else "");
  }

  // ---- The fields of the printed text ----

  /** The fields that the loop finishes with a colon. */
  function Finished(g: seq<nat>): seq<string> {
    if g == [] then []
    else
      var p, n := PutAll(g[..|g| - 1]), g[|g| - 1];
      Finished(g[..|g| - 1]) + (if n != 0 || p.cnt > 2 then [HexText(n)] else if p.cnt < 2 then [""] else [])
  }

  function Terminated(f: seq<string>): string {
    if f == [] then "" else Terminated(f[..|f| - 1]) + f[|f| - 1] + ":"
  }

  lemma {:induction false} OutIsTerminated(g: seq<nat>)
    ensures PutAll(g).out == Terminated(Finished(g)) && forall f :: f in Finished(g) ==> ':' !in f
  {
    hide HexText;
    if g != [] {
      var n, rest := g[|g| - 1], Finished(g[..|g| - 1]);
      OutIsTerminated(g[..|g| - 1]);
      assert (rest + [HexText(n)])[..|rest|] == rest && (rest + [""])[..|rest|] == rest && rest + [] == rest;
      var t := Terminated(rest);
      assert Terminated(rest + [HexText(n)]) == t + HexText(n) + ":";
      assert Terminated(rest + [""]) == t + "" + ":" == t + ":";
    }
  }

  lemma {:induction false} FieldsOfOne(f: string, rest: string)
    requires ':' !in f
    ensures Fields(f) == [f] && Fields(f + ":" + rest) == [f] + Fields(rest)
  {
    if f == "" {
      assert f + ":" + rest == ":" + rest;
      assert (":" + rest)[1..] == rest;
    } else {
      FieldsOfOne(f[1..], rest);
      assert (f + ":" + rest)[1..] == f[1..] + ":" + rest;
      assert f == [f[0]] + f[1..];
    }
  }

  lemma {:induction false} FieldsOfTerminated(f: seq<string>, last: string)
    requires ':' !in last && forall t :: t in f ==> ':' !in t
    ensures Fields(Terminated(f) + last) == f + [last]
  {
    if f == [] {
      FieldsOfOne(last, "");
      assert Terminated(f) + last == last;
    } else {
      var n := |f| - 1;
      FieldsPushed(f[..n], f[n], last);
      FieldsOfOne(last, "");
      assert f == f[..n] + [f[n]];
    }
  }

  /** Fields before a colon are not touched by what follows it. */
  lemma {:induction false} FieldsPushed(f: seq<string>, t: string, rest: string)
    requires ':' !in t && forall u :: u in f ==> ':' !in u
    ensures Fields(Terminated(f) + t + ":" + rest) == f + [t] + Fields(rest)
    decreases |f|
  {
    if f == [] {
      FieldsOfOne(t, rest);
      assert Terminated(f) + t + ":" + rest == t + ":" + rest;
    } else {
      var n := |f| - 1;
      FieldsPushed(f[..n], f[n], t + ":" + rest);
      FieldsOfOne(t, rest);
      assert Terminated(f) + t + ":" + rest == Terminated(f[..n]) + f[n] + ":" + (t + ":" + rest);
      assert f == f[..n] + [f[n]];
    }
  }

  function Last(g: Address): string {
    if g[7] != 0 then HexText(g[7]) else ""
  }

  lemma FieldsOfPrint(g: Address)
    ensures Fields(Print(g)) == Finished(g[..7]) + [Last(g)]
  {
    OutIsTerminated(g[..7]);
    FieldsOfTerminated(Finished(g[..7]), Last(g));
  }

  // ---- The three stretches of an address ----

  function Hexes(g: seq<nat>): (f: seq<string>)
    ensures |f| == |g| && forall i :: 0 <= i < |f| ==> f[i] == HexText(g[i]) && f[i] != ""
  {
    seq(|g|, i requires 0 <= i < |g| => HexText(g[i]))
  }

  predicate AllNonZero(g: seq<nat>) {
    forall i :: 0 <= i < |g| ==> g[i] != 0
  }

  predicate AllZero(g: seq<nat>) {
    forall i :: 0 <= i < |g| ==> g[i] == 0
  }

  /** The fields up to the zeros that are left out. */
  function Head(g: seq<nat>, z: nat): seq<string>
    requires z <= |g|
  {
    if z == 0 then ["", ""] else Hexes(g[..z]) + [""]
  }

  lemma {:induction false} BeforeZeros(g: seq<nat>)
    requires AllNonZero(g)
    ensures Finished(g) == Hexes(g) && PutAll(g).cnt == if g == [] then 0 else 1
  {
    hide HexText;
    if g != [] {
      BeforeZeros(g[..|g| - 1]);
    }
  }

  lemma {:induction false} InsideZeros(g: seq<nat>, z: nat)
    requires z < |g| && AllNonZero(g[..z]) && AllZero(g[z..]) && (z > 0 || |g| >= 2)
    ensures Finished(g) == Head(g, z) && PutAll(g).cnt == 2
  {
    hide HexText;
    var n := |g| - 1;
    assert g[n] == g[z..][n - z];
    if z == n {
      BeforeZeros(g[..n]);
    } else if z == 0 && n == 1 {
      assert g[..1][..0] == [] && g[..1][0] == g[z..][0];
      assert PutAll(g[..1]) == Put(PutAll([]), 0);
      assert Finished(g[..1]) == [""];
    } else {
      assert g[..n][z..] == g[z..][..n - z] && g[..n][..z] == g[..z];
      InsideZeros(g[..n], z);
    }
  }

  lemma {:induction false} BehindZeros(g: seq<nat>, z: nat, e: nat)
    requires z < e < |g| && AllNonZero(g[..z]) && AllZero(g[z..e]) && (z > 0 || e >= 2) && g[e] != 0
    ensures Finished(g) == Head(g, z) + Hexes(g[e..]) && PutAll(g).cnt == 3
  {
    hide HexText;
    var n := |g| - 1;
    assert g[..n][..z] == g[..z];
    if e == n {
      assert g[..n][z..] == g[z..e];
      InsideZeros(g[..n], z);
      assert Hexes(g[e..]) == [HexText(g[n])];
    } else {
      assert g[..n][z..e] == g[z..e];
      BehindZeros(g[..n], z, e);
      assert Hexes(g[e..]) == Hexes(g[..n][e..]) + [HexText(g[n])];
    }
  }

  // ---- Reading back ----

  lemma {:induction false} GroupsOfHexes(g: seq<nat>)
    requires forall i :: 0 <= i < |g| ==> g[i] < 0x1_0000
    ensures Groups(Hexes(g)) == Some(g)
  {
    if g != [] {
      GroupRoundTrip(g[0]);
      GroupsOfHexes(g[1..]);
      assert Hexes(g)[1..] == Hexes(g[1..]);
      assert g == [g[0]] + g[1..];
    }
  }

  lemma {:induction false} NoGroups(f: seq<string>)
    requires f != [] && f[|f| - 1] == ""
    ensures Groups(f) == None
  {
    if |f| > 1 {
      NoGroups(f[1..]);
    }
  }

  lemma {:induction false} FirstEmptyAt(f: seq<string>, k: nat)
    requires k <= |f| && (forall i :: 0 <= i < k ==> f[i] != "") && (k < |f| ==> f[k] == "")
    ensures FirstEmpty(f) == k
  {
  }

  /** The printed fields are read from both sides of the double colon. */
  lemma ReadAround(g: Address, z: nat, rest: seq<string>)
    requires z < 8 && rest != []
    ensures ReadFields(Head(g, z) + rest) == Expand(Hexes(g[..z]), rest)
  {
    var f := Head(g, z) + rest;
    FirstEmptyAt(f, z);
    if z == 0 {
      assert f[2..] == rest && Hexes(g[..0]) == [];
    } else {
      assert f[..z] == Hexes(g[..z]) && f[z + 1..] == rest;
    }
  }

  /** Printed so that the reader gives the address back: no lone zero group at the start, and no zero
      group at the end unless it belongs to the zeros that are left out. */
  predicate Readable(g: Address) {
    && (g[0] != 0 || g[1] == 0)
    && (g[7] != 0 || (g[6] == 0 && forall i, j :: 0 <= i < j < 8 && g[i] == 0 ==> g[j] == 0))
  }

  lemma NoZeros(g: Address)
    requires AllNonZero(g[..7])
    ensures ReadFields(Finished(g[..7]) + [Last(g)]) == (if g[7] != 0 then Some(g) else None)
  {
    BeforeZeros(g[..7]);
    var f := Finished(g[..7]) + [Last(g)];
    if g[7] != 0 {
      assert f == Hexes(g);
      FirstEmptyAt(f, 8);
      GroupsOfHexes(g);
    } else {
      FirstEmptyAt(f, 7);
    }
  }

  /** Both sides of the zeros, read and put together again. */
  lemma ExpandGives(g: Address, z: nat, e: nat, rest: seq<string>)
    requires z < e <= 8 && AllZero(g[z..e]) && rest == if e < 8 then Hexes(g[e..]) else [""]
    ensures Expand(Hexes(g[..z]), rest) == Some(g)
  {
    hide HexText;
    hide GroupValue;
    GroupsOfHexes(g[..z]);
    GroupsOfHexes(g[e..]);
    assert forall i :: z <= i < e ==> g[i] == g[z..e][i - z];
    assert g == g[..z] + Zeros(e - z) + g[e..];
    if e == 8 {
      assert g[e..] == [];
      assert Hexes(g[e..]) == [];
    } else {
      assert rest[0] == HexText(g[e..][0]);
    }
  }

  lemma ZerosToTheEnd(g: Address, z: nat)
    requires z < 7 && AllNonZero(g[..z]) && AllZero(g[z..7]) && (z > 0 || g[1] == 0)
    ensures ReadFields(Finished(g[..7]) + [Last(g)]) == Some(g)
  {
    hide HexText;
    hide ReadFields;
    hide Expand;
    hide Finished;
    hide PutAll;
    assert g[..7][..z] == g[..z] && g[..7][z..] == g[z..7];
    InsideZeros(g[..7], z);
    assert Head(g[..7], z) == Head(g, z);
    ReadAround(g, z, [Last(g)]);
    if g[7] != 0 {
      assert [Last(g)] == Hexes(g[7..]);
      ExpandGives(g, z, 7, [Last(g)]);
    } else {
      assert forall i :: z <= i < 7 ==> g[i] == g[z..7][i - z];
      ExpandGives(g, z, 8, [Last(g)]);
    }
  }

  lemma ExpandFails(before: seq<string>, rest: seq<string>)
    requires |rest| >= 2 && rest[|rest| - 1] == ""
    ensures Expand(before, rest) == None
  {
    NoGroups(rest);
  }

  lemma ZerosInside(g: Address, z: nat, e: nat)
    requires z < e < 7 && AllNonZero(g[..z]) && AllZero(g[z..e]) && (z > 0 || e >= 2) && g[e] != 0
    ensures ReadFields(Finished(g[..7]) + [Last(g)]) == (if g[7] != 0 then Some(g) else None)
  {
    hide HexText;
    hide ReadFields;
    hide Expand;
    hide Finished;
    hide PutAll;
    assert g[..7][..z] == g[..z] && g[..7][z..e] == g[z..e];
    BehindZeros(g[..7], z, e);
    assert Head(g[..7], z) == Head(g, z) && g[..7][e..] == g[e..7];
    var rest := Hexes(g[e..7]) + [Last(g)];
    assert Finished(g[..7]) + [Last(g)] == Head(g, z) + rest;
    ReadAround(g, z, rest);
    if g[7] != 0 {
      assert rest == Hexes(g[e..]);
      ExpandGives(g, z, e, rest);
    } else {
      ExpandFails(Hexes(g[..z]), rest);
    }
  }

  lemma LoneZero(g: Address)
    requires g[0] == 0 && g[1] != 0
    ensures ReadFields(Finished(g[..7]) + [Last(g)]) == None
  {
    FinishedStarts(g, 7);
    var f := Finished(g[..7]) + [Last(g)];
    assert f[0] == "" && f[1] == HexText(g[1]);
    FirstEmptyAt(f, 0);
  }

  lemma {:induction false} FinishedStarts(g: Address, n: nat)
    requires g[0] == 0 && g[1] != 0 && 2 <= n <= 7
    ensures |Finished(g[..n])| >= 2 && Finished(g[..n])[0] == "" && Finished(g[..n])[1] == HexText(g[1])
  {
    hide HexText;
    if n == 2 {
      assert g[..2][..1] == g[..1] && g[..1][..0] == [];
      assert PutAll(g[..1]) == Put(PutAll([]), 0);
      assert Finished(g[..1]) == [""];
    } else {
      assert g[..n][..n - 1] == g[..n - 1];
      FinishedStarts(g, n - 1);
    }
  }

  /** Reading the printed text gives the eight groups back if and only if the address is Readable, and
      fails otherwise. */
  lemma AddressRoundTrip(g: Address)
    ensures Read(Print(g)) == if Readable(g) then Some(g) else None
  {
    hide Finished;
    hide ReadFields;
    hide Last;
    FieldsOfPrint(g);
    if g[0] == 0 && g[1] != 0 {
      LoneZero(g);
    } else if AllNonZero(g[..7]) {
      NoZeros(g);
      assert g[6] == g[..7][6];
    } else {
      var z := FirstZero(g);
      var e := RunEnd(g, z);
      if e == 7 {
        ZerosToTheEnd(g, z);
        assert forall i :: 0 <= i < z ==> g[i] == g[..z][i];
        assert forall i :: z <= i < 7 ==> g[i] == g[z..7][i - z];
      } else {
        ZerosInside(g, z, e);
        assert g[z] == g[z..e][0];
      }
    }
  }

  lemma FirstZero(g: Address) returns (z: nat)
    requires !AllNonZero(g[..7])
    ensures z < 7 && g[z] == 0 && AllNonZero(g[..z])
  {
    z := 0;
    while z < 7 && g[z] != 0
      invariant z <= 7 && forall i :: 0 <= i < z ==> g[i] != 0
    {
      z := z + 1;
    }
  }

  lemma RunEnd(g: Address, z: nat) returns (e: nat)
    requires z < 7 && g[z] == 0
    ensures z < e <= 7 && AllZero(g[z..e]) && (e < 7 ==> g[e] != 0)
    ensures z == 0 && g[1] == 0 ==> e >= 2
  {
    e := z + 1;
    while e < 7 && g[e] == 0
      invariant z < e <= 7 && forall i :: z <= i < e ==> g[i] == 0
      invariant z == 0 && g[1] == 0 && e == 1 ==> g[e] == 0
    {
      e := e + 1;
    }
  }
}
