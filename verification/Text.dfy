// Model of stringTrim and stringSplit in LibCpp/HAL/Tools.cpp.

module Text {
  import opened V2g

  predicate Whitespace(c: char) {
    c == ' ' || c == '\t' || c == 12 as char || c == 11 as char || c == '\n' || c == '\r'
  }

  predicate Blank(s: string) {
    forall i :: 0 <= i < |s| ==> Whitespace(s[i])
  }

  // ---- Trimming ----

  function DropLeft(s: string): (r: string) {
    if s != "" && Whitespace(s[0]) then DropLeft(s[1..]) else s
  }

  function DropRight(s: string): (r: string) {
    if s != "" && Whitespace(s[|s| - 1]) then DropRight(s[..|s| - 1]) else s
  }

  /** A text of whitespace alone is left as it is. */
  function Trim(s: string): (r: string) {
    if Blank(s) then s else DropRight(DropLeft(s))
  }

  lemma {:induction false} DropLeftParts(s: string) returns (left: string)
    ensures s == left + DropLeft(s) && Blank(left)
    ensures DropLeft(s) == "" || !Whitespace(DropLeft(s)[0])
  {
    if s != "" && Whitespace(s[0]) {
      var l := DropLeftParts(s[1..]);
      left := [s[0]] + l;
    } else {
      left := "";
    }
  }

  lemma {:induction false} DropRightParts(s: string) returns (right: string)
    ensures s == DropRight(s) + right && Blank(right)
    ensures DropRight(s) == "" || !Whitespace(DropRight(s)[|DropRight(s)| - 1])
  {
    if s != "" && Whitespace(s[|s| - 1]) {
      var r := DropRightParts(s[..|s| - 1]);
      right := r + [s[|s| - 1]];
      assert s == s[..|s| - 1] + [s[|s| - 1]];
    } else {
      right := "";
    }
  }

  /** What is cut off is whitespace; unless the text is nothing but whitespace, none is left at either end. */
  lemma TrimMeaning(s: string) returns (left: string, right: string)
    ensures s == left + Trim(s) + right && Blank(left) && Blank(right)
    ensures if Blank(s) then Trim(s) == s
            else Trim(s) != "" && !Whitespace(Trim(s)[0]) && !Whitespace(Trim(s)[|Trim(s)| - 1])
  {
    if Blank(s) {
      left, right := "", "";
    } else {
      left := DropLeftParts(s);
      right := DropRightParts(DropLeft(s));
      assert s == left + Trim(s) + right;
      NotBlank(s, left, right);
      assert Trim(s)[0] == DropLeft(s)[0];
    }
  }

  lemma NotBlank(s: string, left: string, right: string)
    requires s == left + Trim(s) + right && Blank(left) && Blank(right) && !Blank(s)
    ensures Trim(s) != ""
  {
    var i :| 0 <= i < |s| && !Whitespace(s[i]);
    assert i >= |left|;
  }

  lemma {:induction false} DropLeftSkips(s: string, n: nat)
    requires n <= |s| && Blank(s[..n])
    ensures DropLeft(s) == DropLeft(s[n..])
  {
    if n > 0 {
      assert s[..n][0] == s[0];
      assert s[1..][..n - 1] == s[..n][1..];
      DropLeftSkips(s[1..], n - 1);
      assert s[1..][n - 1..] == s[n..];
    } else {
      assert s[0..] == s;
    }
  }

  lemma {:induction false} DropRightSkips(s: string, n: nat)
    requires n <= |s| && Blank(s[n..])
    ensures DropRight(s) == DropRight(s[..n])
  {
    if n < |s| {
      var m := |s| - 1;
      assert s[n..][m - n] == s[m];
      assert forall k :: 0 <= k < m - n ==> s[..m][n..][k] == s[n..][k];
      DropRightSkips(s[..m], n);
      assert s[..m][..n] == s[..n];
    } else {
      assert s[..n] == s;
    }
  }

  /** What lies between the first and the last character that is no whitespace. */
  lemma TrimIsSlice(s: string, start: nat, end: nat)
    requires start < end <= |s| && Blank(s[..start]) && Blank(s[end..]) && !Whitespace(s[start]) && !Whitespace(s[end - 1])
    ensures Trim(s) == s[start..end]
  {
    hide Whitespace;
    DropLeftSkips(s, start);
    assert DropLeft(s) == s[start..];
    var t, n := s[start..], end - start;
    assert t[n..] == s[end..] && t[..n] == s[start..end];
    DropRightSkips(t, n);
    assert t[..n][n - 1] == s[end - 1];
  }

  method FirstNotBlank(data: string) returns (start: nat)
    ensures start <= |data| && Blank(data[..start]) && (start < |data| ==> !Whitespace(data[start]))
  {
    hide Whitespace;
    start := 0;
    while start < |data| && Whitespace(data[start])
      invariant start <= |data| && Blank(data[..start])
    {
      start := start + 1;
    }
  }

  method LastNotBlank(data: string) returns (end: nat)
    ensures end <= |data| && Blank(data[end..]) && (end > 0 ==> !Whitespace(data[end - 1]))
  {
    hide Whitespace;
    end := |data|;
    while end > 0 && Whitespace(data[end - 1])
      invariant end <= |data| && Blank(data[end..])
    {
      end := end - 1;
    }
  }

  /** A text without a character to find is returned as a whole. */
  method StringTrim(data: string) returns (r: string)
    ensures r == Trim(data)
  {
    var start := FirstNotBlank(data);
    var end := LastNotBlank(data);
    if start == |data| {
      assert data[..start] == data;
      return data;
    }
    forall k | end <= k < |data|
      ensures Whitespace(data[k])
    {
      assert data[k] == data[end..][k - end];
    }
    TrimIsSlice(data, start, end);
    r := data[start..end];
  }

  // ---- Splitting ----

  predicate OccursAt(data: string, delimiter: string, k: nat) {
    k + |delimiter| <= |data| && data[k..k + |delimiter|] == delimiter
  }

  predicate Occurs(data: string, delimiter: string) {
    exists k :: 0 <= k <= |data| && OccursAt(data, delimiter, k)
  }

  /** std::string::find: the first occurrence from a position on. */
  function Find(data: string, delimiter: string, start: nat): (r: Option<nat>)
    ensures r.Some? ==> r.value >= start && OccursAt(data, delimiter, r.value)
    decreases |data| + 1 - start
  {
    if start > |data| then None
    else if OccursAt(data, delimiter, start) then Some(start)
    else Find(data, delimiter, start + 1)
  }

  /** Nothing before it, and nothing at all if there is none. */
  lemma {:induction false} FindIsFirst(data: string, delimiter: string, start: nat)
    ensures var r := Find(data, delimiter, start);
            forall k :: start <= k < (if r.Some? then r.value else |data| + 1) ==> !OccursAt(data, delimiter, k)
    decreases |data| + 1 - start
  {
    if start <= |data| && !OccursAt(data, delimiter, start) {
      FindIsFirst(data, delimiter, start + 1);
    }
  }

  /** The first occurrence is the only place with none before it. */
  lemma FoundAt(data: string, delimiter: string, start: nat, k: nat)
    requires start <= k && OccursAt(data, delimiter, k) && forall j :: start <= j < k ==> !OccursAt(data, delimiter, j)
    ensures Find(data, delimiter, start) == Some(k)
  {
    FindIsFirst(data, delimiter, start);
  }

  lemma NotFound(data: string, delimiter: string, start: nat)
    requires forall j :: start <= j <= |data| ==> !OccursAt(data, delimiter, j)
    ensures Find(data, delimiter, start) == None
  {
  }

  function SplitFrom(data: string, delimiter: string, start: nat): (r: seq<string>)
    requires delimiter != "" && start <= |data|
    ensures |r| >= 1
    decreases |data| - start
  {
    var end := Find(data, delimiter, start);
    if end == None then [data[start..]] else [data[start..end.value]] + SplitFrom(data, delimiter, end.value + |delimiter|)
  }

  /** The pieces before trimming and removal. A text without the delimiter is entered twice. */
  function Pieces(data: string, delimiter: string): seq<string>
    requires delimiter != ""
  {
    if Find(data, delimiter, 0) != None || data == "" then SplitFrom(data, delimiter, 0) else [data, data]
  }

  function TrimAll(list: seq<string>): (r: seq<string>)
    ensures |r| == |list| && forall i :: 0 <= i < |r| ==> r[i] == Trim(list[i])
  {
    seq(|list|, i requires 0 <= i < |list| => Trim(list[i]))
  }

  function NonEmpty(list: seq<string>): seq<string> {
    if list == [] then []
    else NonEmpty(list[..|list| - 1]) + if list[|list| - 1] == "" then [] else [list[|list| - 1]]
  }

  function Split(data: string, delimiter: string, doTrim: bool, removeEmpty: bool): seq<string>
    requires delimiter != ""
  {
    var pieces := Pieces(data, delimiter);
    var trimmed := if doTrim then TrimAll(pieces) else pieces;
    if removeEmpty then NonEmpty(trimmed) else trimmed
  }

  function Join(list: seq<string>, delimiter: string): string {
    if list == [] then "" else if |list| == 1 then list[0] else list[0] + delimiter + Join(list[1..], delimiter)
  }

  lemma {:induction false} JoinSplitFrom(data: string, delimiter: string, start: nat)
    requires delimiter != "" && start <= |data|
    ensures Join(SplitFrom(data, delimiter, start), delimiter) == data[start..]
    decreases |data| - start
  {
    var end := Find(data, delimiter, start);
    if end != None {
      var next := end.value + |delimiter|;
      JoinSplitFrom(data, delimiter, next);
      var rest := SplitFrom(data, delimiter, next);
      assert ([data[start..end.value]] + rest)[1..] == rest;
      assert data[start..] == data[start..end.value] + data[end.value..next] + data[next..];
    }
  }

  lemma FindMeansOccurs(data: string, delimiter: string)
    ensures Find(data, delimiter, 0).Some? <==> Occurs(data, delimiter)
  {
    FindIsFirst(data, delimiter, 0);
    var r := Find(data, delimiter, 0);
    if r.Some? {
      assert OccursAt(data, delimiter, r.value);
    }
  }

  /** Joining the pieces gives the text back exactly when it holds the delimiter or is empty. */
  lemma JoinSplit(data: string, delimiter: string)
    requires delimiter != ""
    ensures Join(Split(data, delimiter, false, false), delimiter) == data <==> Occurs(data, delimiter) || data == ""
  {
    FindMeansOccurs(data, delimiter);
    if Find(data, delimiter, 0) != None || data == "" {
      JoinSplitFrom(data, delimiter, 0);
    } else {
      assert [data, data][1..] == [data];
      assert |Join([data, data], delimiter)| == 2 * |data| + |delimiter|;
    }
  }

  lemma OccursInSlice(data: string, delimiter: string, from: nat, to: nat, k: nat)
    requires from <= to <= |data|
    ensures OccursAt(data[from..to], delimiter, k) <==> OccursAt(data, delimiter, from + k) && from + k + |delimiter| <= to
  {
    var n := |delimiter|;
    if k + n <= to - from {
      var piece := data[from..to];
      var a, b := piece[k..k + n], data[from + k..from + k + n];
      assert |a| == |b| == n;
      forall j | 0 <= j < n
        ensures a[j] == b[j]
      {
        assert a[j] == piece[k + j];
        assert b[j] == data[from + k + j];
      }
    }
  }

  lemma NoOccurrenceInside(data: string, delimiter: string, from: nat, to: nat)
    requires delimiter != "" && from <= to <= |data|
    requires forall k :: from <= k < to ==> !OccursAt(data, delimiter, k)
    ensures !Occurs(data[from..to], delimiter)
  {
    var piece := data[from..to];
    forall k | 0 <= k <= |piece|
      ensures !OccursAt(piece, delimiter, k)
    {
      OccursInSlice(data, delimiter, from, to, k);
    }
  }

  /** No piece holds the delimiter. */
  lemma {:induction false} PiecesAreFree(data: string, delimiter: string, start: nat)
    requires delimiter != "" && start <= |data|
    ensures forall piece :: piece in SplitFrom(data, delimiter, start) ==> !Occurs(piece, delimiter)
    decreases |data| - start
  {
    FindIsFirst(data, delimiter, start);
    var end := Find(data, delimiter, start);
    if end == None {
      NoOccurrenceInside(data, delimiter, start, |data|);
      assert data[start..|data|] == data[start..];
    } else {
      NoOccurrenceInside(data, delimiter, start, end.value);
      PiecesAreFree(data, delimiter, end.value + |delimiter|);
    }
  }

  lemma SplitIsFree(data: string, delimiter: string)
    requires delimiter != ""
    ensures forall piece :: piece in Split(data, delimiter, false, false) ==> !Occurs(piece, delimiter)
  {
    PiecesAreFree(data, delimiter, 0);
    if Find(data, delimiter, 0) == None {
      FindMeansOccurs(data, delimiter);
    }
  }

  // ---- The other way round ----

  /** Moving the start of the text moves the occurrences along. */
  lemma FindShifts(data: string, delimiter: string, start: nat)
    requires start <= |data|
    ensures var a, b := Find(data, delimiter, start), Find(data[start..], delimiter, 0);
            if a.Some? then b == Some(a.value - start) else b == None
  {
    var a := Find(data, delimiter, start);
    FindIsFirst(data, delimiter, start);
    var rest := data[start..];
    assert rest == data[start..|data|];
    forall k: nat
      ensures OccursAt(rest, delimiter, k) <==> OccursAt(data, delimiter, start + k)
    {
      OccursInSlice(data, delimiter, start, |data|, k);
    }
    if a.Some? {
      FoundAt(rest, delimiter, 0, a.value - start);
    } else {
      NotFound(rest, delimiter, 0);
    }
  }

  lemma {:induction false} SplitFromShifts(data: string, delimiter: string, start: nat)
    requires start <= |data| && delimiter != ""
    ensures SplitFrom(data, delimiter, start) == SplitFrom(data[start..], delimiter, 0)
    decreases |data|, |data| - start
  {
    hide Find;
    FindShifts(data, delimiter, start);
    var end := Find(data, delimiter, start);
    if end != None {
      var rest, next := data[start..], end.value + |delimiter|;
      SplitFromShifts(data, delimiter, next);
      if start > 0 {
        SplitFromShifts(rest, delimiter, next - start);
        assert rest[next - start..] == data[next..];
        assert rest[0..end.value - start] == data[start..end.value];
      } else {
        assert rest == data;
      }
    } else {
      assert data[start..][0..] == data[start..];
    }
  }

  /** In the piece with a delimiter behind it, no delimiter begins before that one. */
  predicate Clean(piece: string, delimiter: string) {
    forall k :: 0 <= k < |piece| ==> !OccursAt(piece + delimiter, delimiter, k)
  }

  /** No delimiter but the ones put there, not even across a seam. */
  predicate Seamless(list: seq<string>, delimiter: string)
    requires list != []
  {
    (forall i :: 0 <= i < |list| - 1 ==> Clean(list[i], delimiter)) && !Occurs(list[|list| - 1], delimiter)
  }

  lemma OccursInFront(piece: string, delimiter: string, rest: string, k: nat)
    requires k <= |piece|
    ensures OccursAt(piece + delimiter + rest, delimiter, k) <==> OccursAt(piece + delimiter, delimiter, k)
  {
    var data := piece + delimiter + rest;
    OccursInSlice(data, delimiter, 0, |piece| + |delimiter|, k);
    assert data[0..|piece| + |delimiter|] == piece + delimiter;
  }

  /** The delimiter behind the first piece is the first one if and only if the piece is clean. */
  lemma FirstMark(piece: string, delimiter: string, rest: string)
    ensures var r := Find(piece + delimiter + rest, delimiter, 0);
            r.Some? && r.value <= |piece| && (r.value == |piece| <==> Clean(piece, delimiter))
  {
    var data := piece + delimiter + rest;
    FindIsFirst(data, delimiter, 0);
    OccursInFront(piece, delimiter, rest, |piece|);
    assert (piece + delimiter)[|piece|..] == delimiter;
    forall k | 0 <= k < |piece|
      ensures OccursAt(data, delimiter, k) <==> OccursAt(piece + delimiter, delimiter, k)
    {
      OccursInFront(piece, delimiter, rest, k);
    }
  }

  lemma SeamlessRest(list: seq<string>, delimiter: string)
    requires |list| >= 2
    ensures Seamless(list, delimiter) <==> Clean(list[0], delimiter) && Seamless(list[1..], delimiter)
  {
    hide Clean;
    hide Occurs;
    var rest := list[1..];
    assert rest[|rest| - 1] == list[|list| - 1];
    assert forall i :: 0 <= i < |rest| - 1 ==> rest[i] == list[i + 1];
    assert forall i :: 1 <= i < |list| - 1 ==> list[i] == rest[i - 1];
  }

  /** How a text with a delimiter in it is split. */
  lemma SplitFirst(piece: string, delimiter: string, rest: string)
    requires delimiter != ""
    ensures var r := SplitFrom(piece + delimiter + rest, delimiter, 0);
            if Clean(piece, delimiter) then r == [piece] + SplitFrom(rest, delimiter, 0) else |r[0]| < |piece|
  {
    var data, n := piece + delimiter + rest, |piece| + |delimiter|;
    FirstMark(piece, delimiter, rest);
    hide Clean;
    hide Find;
    if Clean(piece, delimiter) {
      SplitFromShifts(data, delimiter, n);
      assert data[n..] == rest && data[0..|piece|] == piece;
    }
  }

  lemma SplitLast(piece: string, delimiter: string)
    requires delimiter != ""
    ensures SplitFrom(piece, delimiter, 0) == [piece] <==> !Occurs(piece, delimiter)
  {
    FindMeansOccurs(piece, delimiter);
    assert piece[0..] == piece;
  }

  lemma SplitJoinStep(list: seq<string>, delimiter: string)
    requires |list| >= 2 && delimiter != ""
    ensures SplitFrom(Join(list, delimiter), delimiter, 0) == list <==>
              Clean(list[0], delimiter) && SplitFrom(Join(list[1..], delimiter), delimiter, 0) == list[1..]
  {
    SplitFirst(list[0], delimiter, Join(list[1..], delimiter));
    hide Clean;
    hide SplitFrom;
    var r, rest := SplitFrom(Join(list, delimiter), delimiter, 0), SplitFrom(Join(list[1..], delimiter), delimiter, 0);
    if Clean(list[0], delimiter) {
      assert list == [list[0]] + list[1..];
      assert r[1..] == rest;
    } else {
      assert |r[0]| < |list[0]|;
    }
  }

  /** Pieces come back from the text they are joined to if and only if there are no other delimiters. */
  lemma {:induction false} SplitJoin(list: seq<string>, delimiter: string)
    requires list != [] && delimiter != ""
    ensures SplitFrom(Join(list, delimiter), delimiter, 0) == list <==> Seamless(list, delimiter)
  {
    hide SplitFrom;
    hide Occurs;
    hide Clean;
    if |list| == 1 {
      SplitLast(list[0], delimiter);
    } else {
      SplitJoinStep(list, delimiter);
      SeamlessRest(list, delimiter);
      hide Join;
      hide Seamless;
      SplitJoin(list[1..], delimiter);
    }
  }

  /** Splitting undoes joining two or more pieces if and only if the delimiter stands nowhere else, not
      even across a seam. */
  lemma SplitUndoesJoin(list: seq<string>, delimiter: string)
    requires |list| >= 2 && delimiter != ""
    ensures Split(Join(list, delimiter), delimiter, false, false) == list <==> Seamless(list, delimiter)
  {
    SplitJoin(list, delimiter);
    FirstMark(list[0], delimiter, Join(list[1..], delimiter));
  }

  /** With a delimiter of one character this means that no piece holds it. */
  lemma SingleMark(list: seq<string>, c: char)
    requires list != []
    ensures Seamless(list, [c]) <==> forall piece :: piece in list ==> c !in piece
  {
    forall i | 0 <= i < |list|
      ensures Clean(list[i], [c]) <==> c !in list[i]
      ensures Occurs(list[i], [c]) <==> c in list[i]
    {
      SingleMarkIn(list[i], c);
    }
    hide Clean;
    hide Occurs;
    if Seamless(list, [c]) {
      forall i | 0 <= i < |list|
        ensures c !in list[i]
      {
        if i < |list| - 1 {
          assert Clean(list[i], [c]);
        }
      }
    }
  }

  lemma SingleMarkIn(piece: string, c: char)
    ensures Clean(piece, [c]) <==> c !in piece
    ensures Occurs(piece, [c]) <==> c in piece
  {
    forall k | 0 <= k < |piece|
      ensures OccursAt(piece + [c], [c], k) <==> piece[k] == c
      ensures OccursAt(piece, [c], k) <==> piece[k] == c
    {
      assert (piece + [c])[k..k + 1] == [piece[k]];
      assert piece[k..k + 1] == [piece[k]];
    }
    assert !OccursAt(piece, [c], |piece|);
  }

  // ---- Removal ----

  lemma {:induction false} NonEmptyConcat(a: seq<string>, b: seq<string>)
    ensures NonEmpty(a + b) == NonEmpty(a) + NonEmpty(b)
  {
    if b == [] {
      assert a + b == a;
    } else {
      assert (a + b)[..|a + b| - 1] == a + b[..|b| - 1];
      NonEmptyConcat(a, b[..|b| - 1]);
    }
  }

  /** Removal keeps every piece that is not empty, as often as it was there, and nothing else. */
  lemma {:induction false} NonEmptyKeeps(list: seq<string>)
    ensures multiset(NonEmpty(list)) == multiset(list)["" := 0]
  {
    if list != [] {
      var n := |list| - 1;
      NonEmptyKeeps(list[..n]);
      assert list == list[..n] + [list[n]];
    }
  }

  // ---- What splitting gives ----

  /** t is s without the whitespace at its ends, or s itself if there is nothing else in it. */
  ghost predicate IsTrimmed(t: string, s: string) {
    && (exists left, right :: s == left + t + right && Blank(left) && Blank(right))
    && (if Blank(s) then t == s else t != "" && !Whitespace(t[0]) && !Whitespace(t[|t| - 1]))
  }

  predicate Ascending(places: seq<nat>, bound: nat) {
    && (forall k :: 0 <= k < |places| ==> places[k] < bound)
    && (forall j, k :: 0 <= j < k < |places| ==> places[j] < places[k])
  }

  /** The pieces at these places are those that are not empty. */
  predicate Picks(places: seq<nat>, list: seq<string>)
    requires Ascending(places, |list|)
  {
    forall k :: 0 <= k < |list| ==> (list[k] != "" <==> k in places)
  }

  /** r holds the pieces of list that are not empty, each in its turn. */
  ghost predicate Selects(r: seq<string>, list: seq<string>) {
    exists places :: |places| == |r| && Ascending(places, |list|) && Picks(places, list)
                     && forall k :: 0 <= k < |r| ==> r[k] == list[places[k]]
  }

  lemma PicksSkip(places: seq<nat>, list: seq<string>)
    requires list != [] && list[|list| - 1] == "" && Ascending(places, |list| - 1) && Picks(places, list[..|list| - 1])
    ensures Ascending(places, |list|) && Picks(places, list)
  {
    var n := |list| - 1;
    assert forall k :: 0 <= k < n ==> list[..n][k] == list[k];
    assert n !in places;
  }

  lemma PicksAppend(places: seq<nat>, list: seq<string>)
    requires list != [] && list[|list| - 1] != "" && Ascending(places, |list| - 1) && Picks(places, list[..|list| - 1])
    ensures Ascending(places + [|list| - 1], |list|) && Picks(places + [|list| - 1], list)
  {
    var n := |list| - 1;
    var longer := places + [n];
    forall k | 0 <= k < |list|
      ensures list[k] != "" <==> k in longer
    {
      if k < n {
        assert list[..n][k] == list[k];
      } else {
        assert longer[|places|] == n;
      }
    }
  }

  lemma {:induction false} NonEmptyPlaces(list: seq<string>) returns (places: seq<nat>)
    ensures |places| == |NonEmpty(list)| && Ascending(places, |list|) && Picks(places, list)
    ensures forall k :: 0 <= k < |places| ==> NonEmpty(list)[k] == list[places[k]]
  {
    places := [];
    if list != [] {
      var n := |list| - 1;
      var before := NonEmptyPlaces(list[..n]);
      assert forall k :: 0 <= k < |before| ==> list[..n][before[k]] == list[before[k]];
      if list[n] == "" {
        PicksSkip(before, list);
        places := before;
      } else {
        PicksAppend(before, list);
        places := before + [n];
      }
      hide Picks;
    }
  }

  lemma NonEmptySelects(list: seq<string>)
    ensures Selects(NonEmpty(list), list) && "" !in NonEmpty(list)
  {
    var places := NonEmptyPlaces(list);
    var r := NonEmpty(list);
    assert |places| == |r| && Ascending(places, |list|) && Picks(places, list) && forall k :: 0 <= k < |r| ==> r[k] == list[places[k]];
    forall k | 0 <= k < |r|
      ensures r[k] != ""
    {
      assert places[k] in places;
    }
  }

  lemma TrimIsTrimmed(s: string)
    ensures IsTrimmed(Trim(s), s)
  {
    var left, right := TrimMeaning(s);
    assert s == left + Trim(s) + right && Blank(left) && Blank(right);
  }

  /** Without removal every piece of the plain split has its place in the result, trimmed if so wished. With
      removal the result is what is not empty then, in order. */
  lemma SplitMeaning(data: string, delimiter: string, doTrim: bool)
    requires delimiter != ""
    ensures var plain := Split(data, delimiter, false, false);
            var r := Split(data, delimiter, doTrim, false);
            && |r| == |plain|
            && forall k :: 0 <= k < |r| ==> if doTrim then IsTrimmed(r[k], plain[k]) else r[k] == plain[k]
    ensures var kept := Split(data, delimiter, doTrim, true);
            Selects(kept, Split(data, delimiter, doTrim, false)) && "" !in kept
  {
    var plain := Pieces(data, delimiter);
    hide Pieces;
    hide IsTrimmed;
    hide Selects;
    hide Trim;
    hide NonEmpty;
    forall k | 0 <= k < |plain|
      ensures IsTrimmed(Trim(plain[k]), plain[k])
    {
      TrimIsTrimmed(plain[k]);
    }
    NonEmptySelects(plain);
    NonEmptySelects(TrimAll(plain));
  }

  /** The six characters that count as whitespace. */
  lemma WhitespaceOnly(c: char)
    ensures Whitespace(c) <==> c as int in {9, 10, 11, 12, 13, 32}
  {
  }

  method RemoveEmpty(list: seq<string>) returns (r: seq<string>)
    ensures r == NonEmpty(list)
  {
    r := list;
    var i := |r| - 1;
    assert r[..|r|] == r && r[|r|..] == [];
    while i >= 0
      invariant -1 <= i < |r|
      invariant NonEmpty(r[..i + 1]) + r[i + 1..] == NonEmpty(list)
    {
      assert r[..i + 1][..i] == r[..i];
      ghost var before := r;
      if r[i] == "" {
        r := r[..i] + r[i + 1..];
        assert r[..i] == before[..i] && r[i..] == before[i + 1..];
      } else {
        assert r[i..] == [r[i]] + r[i + 1..];
      }
      i := i - 1;
    }
    assert r[..0] == [] && r[0..] == r;
  }

  method TrimEach(pieces: seq<string>) returns (list: seq<string>)
    ensures list == TrimAll(pieces)
  {
    list := pieces;
    for i := 0 to |list|
      invariant |list| == |pieces|
      invariant forall k :: 0 <= k < |list| ==> list[k] == if k < i then Trim(pieces[k]) else pieces[k]
    {
      var trimmed := StringTrim(list[i]);
      list := list[i := trimmed];
    }
  }

  /** What the loop of SplitPieces still has to enter. */
  function Rest(data: string, delimiter: string, start: nat): seq<string>
    requires delimiter != "" && start <= |data|
  {
    if start == |data| then [] else SplitFrom(data, delimiter, start)
  }

  lemma RestAfter(data: string, delimiter: string, start: nat)
    requires delimiter != "" && start <= |data| && Find(data, delimiter, start).Some?
    ensures var end := Find(data, delimiter, start).value;
            var next := end + |delimiter|;
            && start < |data|
            && Rest(data, delimiter, start) == [data[start..end]] + (if next == |data| then [""] else []) + Rest(data, delimiter, next)
  {
    var next := Find(data, delimiter, start).value + |delimiter|;
    if next == |data| {
      assert data[next..] == "";
      assert Find(data, delimiter, next) == None;
      assert SplitFrom(data, delimiter, next) == [""];
    }
  }

  lemma RestAtEnd(data: string, delimiter: string, start: nat)
    requires delimiter != "" && start <= |data| && Find(data, delimiter, start) == None
    ensures Rest(data, delimiter, start) == if start < |data| then [data[start..]] else []
  {
  }

  lemma RestAtStart(data: string, delimiter: string)
    requires delimiter != ""
    ensures Pieces(data, delimiter) == (if Find(data, delimiter, 0) == None then [data] else []) + Rest(data, delimiter, 0)
  {
    assert data[0..] == data;
  }

  method SplitPieces(data: string, delimiter: string) returns (list: seq<string>)
    requires delimiter != ""
    ensures list == Pieces(data, delimiter)
  {
    hide SplitFrom;
    hide Find;
    hide Rest;
    hide Pieces;
    list := [];
    var start := 0;
    var end := Find(data, delimiter, 0);
    if end == None {
      list := list + [data];
    }
    RestAtStart(data, delimiter);
    while end != None
      invariant start <= |data| && end == Find(data, delimiter, start)
      invariant list + Rest(data, delimiter, start) == Pieces(data, delimiter)
      decreases |data| - start
    {
      RestAfter(data, delimiter, start);
      list := list + [data[start..end.value]];
      start := end.value + |delimiter|;
      if start == |data| {
        list := list + [""];
      }
      end := Find(data, delimiter, start);
    }
    RestAtEnd(data, delimiter, start);
    if start < |data| {
      list := list + [data[start..]];
    }
  }

  /** An empty delimiter is not allowed: the search would stay where it is. */
  method StringSplit(data: string, delimiter: string, doTrim: bool, removeEmpty: bool) returns (list: seq<string>)
    requires delimiter != ""
    ensures list == Split(data, delimiter, doTrim, removeEmpty)
  {
    list := SplitPieces(data, delimiter);
    if doTrim {
      list := TrimEach(list);
    }
    if removeEmpty {
      list := RemoveEmpty(list);
    }
  }
}
