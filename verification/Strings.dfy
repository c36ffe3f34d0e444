/** split and join of src/lib/utils.cc. */
module Strings {
  import opened Wrappers

  // ----- what splitting means -----

  ghost predicate Occurs(s: string, sep: string, i: nat) {
    i + |sep| <= |s| && s[i..i + |sep|] == sep
  }

  ghost predicate Contains(s: string, sep: string) {
    exists i: nat :: Occurs(s, sep, i)
  }

  /**
   * A piece that splitting can yield: the last holds no separator, and in any other, followed by the
   * separator, the first occurrence of the separator is the one that follows it.
   */
  ghost predicate Clean(p: string, sep: string, last: bool) {
    if last then forall i: nat :: !Occurs(p, sep, i)
    else forall i: nat :: i < |p| ==> !Occurs(p + sep, sep, i)
  }

  ghost predicate AllClean(ps: seq<string>, sep: string) {
    forall k :: 0 <= k < |ps| ==> Clean(ps[k], sep, k == |ps| - 1)
  }

  function JoinOf(ps: seq<string>, sep: string): string {
    if ps == [] then [] else if |ps| == 1 then ps[0] else ps[0] + sep + JoinOf(ps[1..], sep)
  }

  /** The pieces of s from begin on, when no separator starts between begin and i. */
  ghost function Scan(s: string, sep: string, begin: nat, i: nat): (ps: seq<string>)
    requires sep != [] && begin <= i <= |s|
    ensures ps != []
    decreases |s| - i
  {
    if i + |sep| > |s| then [s[begin..]]
    else if Occurs(s, sep, i) then [s[begin..i]] + Scan(s, sep, i + |sep|, i + |sep|)
    else Scan(s, sep, begin, i + 1)
  }

  ghost function SplitOf(s: string, sep: string): seq<string>
    requires sep != []
  {
    Scan(s, sep, 0, 0)
  }

  lemma Associate(a: string, b: string, c: string)
    ensures (a + b) + c == a + (b + c)
  {
  }

  lemma ScanStep(s: string, sep: string, begin: nat, i: nat)
    requires sep != [] && begin <= i <= |s|
    ensures Scan(s, sep, begin, i) ==
      if i + |sep| > |s| then [s[begin..]]
      else if Occurs(s, sep, i) then [s[begin..i]] + Scan(s, sep, i + |sep|, i + |sep|)
      else Scan(s, sep, begin, i + 1)
  {
  }

  lemma JoinCons(p: string, rest: seq<string>, sep: string)
    requires rest != []
    ensures JoinOf([p] + rest, sep) == p + sep + JoinOf(rest, sep)
  {
  }

  lemma {:induction false} ScanJoins(s: string, sep: string, begin: nat, i: nat)
    requires sep != [] && begin <= i <= |s|
    ensures JoinOf(Scan(s, sep, begin, i), sep) == s[begin..]
    decreases |s| - i
  {
    hide Scan;
    ScanStep(s, sep, begin, i);
    if i + |sep| <= |s| {
      if Occurs(s, sep, i) {
        ScanJoins(s, sep, i + |sep|, i + |sep|);
        JoinCons(s[begin..i], Scan(s, sep, i + |sep|, i + |sep|), sep);
        assert s[begin..] == s[begin..i] + s[i..i + |sep|] + s[i + |sep|..];
      } else {
        ScanJoins(s, sep, begin, i + 1);
      }
    }
  }

  lemma SliceOfSlice(s: string, begin: nat, end: nat, i: nat, j: nat)
    requires begin <= end <= |s| && i <= j <= end - begin
    ensures s[begin..end][i..j] == s[begin + i..begin + j]
  {
    var a, b := s[begin..end][i..j], s[begin + i..begin + j];
    assert |a| == |b| && forall k :: 0 <= k < |a| ==> a[k] == b[k];
  }

  lemma SliceOfRest(s: string, start: nat, i: nat, j: nat)
    requires start <= |s| && i <= j <= |s| - start
    ensures s[start..][i..j] == s[start + i..start + j]
  {
  }

  /** An occurrence in a part of s is an occurrence in s. */
  lemma OccursShift(s: string, sep: string, begin: nat, end: nat, i: nat)
    requires begin <= end <= |s| && i + |sep| <= end - begin
    ensures Occurs(s[begin..end], sep, i) <==> Occurs(s, sep, begin + i)
  {
    SliceOfSlice(s, begin, end, i, i + |sep|);
  }

  /** A part of s is clean if the separator starts nowhere in it. */
  lemma PartIsClean(s: string, sep: string, begin: nat, i: nat)
    requires sep != [] && begin <= i <= |s|
    requires forall j: nat :: begin <= j < i ==> !Occurs(s, sep, j)
    ensures i + |sep| > |s| ==> Clean(s[begin..], sep, true)
    ensures Occurs(s, sep, i) ==> Clean(s[begin..i], sep, false)
  {
    var end := if Occurs(s, sep, i) then i + |sep| else |s|;
    forall j: nat | j + |sep| <= end - begin && begin + j < i
      ensures !Occurs(s[begin..end], sep, j)
    {
      OccursShift(s, sep, begin, end, j);
      var at := begin + j;
      assert !Occurs(s, sep, at);
    }
    if Occurs(s, sep, i) {
      assert s[begin..i] + sep == s[begin..end];
    } else {
      assert s[begin..] == s[begin..end];
    }
  }

  lemma {:induction false} ScanIsClean(s: string, sep: string, begin: nat, i: nat)
    requires sep != [] && begin <= i <= |s|
    requires forall j: nat :: begin <= j < i ==> !Occurs(s, sep, j)
    ensures AllClean(Scan(s, sep, begin, i), sep)
    decreases |s| - i
  {
    hide Scan, Clean;
    ScanStep(s, sep, begin, i);
    PartIsClean(s, sep, begin, i);
    if i + |sep| <= |s| {
      if Occurs(s, sep, i) {
        ScanIsClean(s, sep, i + |sep|, i + |sep|);
        ConsClean(s[begin..i], Scan(s, sep, i + |sep|, i + |sep|), sep);
      } else {
        ScanIsClean(s, sep, begin, i + 1);
      }
    }
  }

  lemma ConsClean(p: string, rest: seq<string>, sep: string)
    requires rest != [] && Clean(p, sep, false)
    ensures AllClean([p] + rest, sep) <==> AllClean(rest, sep)
  {
    hide Clean;
    var all := [p] + rest;
    assert forall k :: 0 <= k < |rest| ==> rest[k] == all[k + 1];
    if AllClean(all, sep) {
      forall k | 0 <= k < |rest|
        ensures Clean(rest[k], sep, k == |rest| - 1)
      {
        assert Clean(all[k + 1], sep, k + 1 == |all| - 1);
      }
    }
  }

  /** Scanning from begin on is scanning what is left. */
  lemma {:induction false} ScanSuffix(s: string, sep: string, start: nat, begin: nat, i: nat)
    requires sep != [] && start <= begin <= i <= |s|
    ensures Scan(s, sep, begin, i) == Scan(s[start..], sep, begin - start, i - start)
    decreases |s| - i
  {
    hide Scan, Occurs;
    ScanStep(s, sep, begin, i);
    ScanStep(s[start..], sep, begin - start, i - start);
    if i + |sep| > |s| {
      assert s[start..][begin - start..] == s[begin..];
    } else {
      assert s[start..] == s[start..|s|];
      OccursShift(s, sep, start, |s|, i - start);
      SliceOfRest(s, start, begin - start, i - start);
      if Occurs(s, sep, i) {
        ScanSuffix(s, sep, start, i + |sep|, i + |sep|);
      } else {
        ScanSuffix(s, sep, start, begin, i + 1);
      }
    }
  }

  /** Nothing is found before n. */
  lemma {:induction false} ScanAhead(s: string, sep: string, i: nat, n: nat)
    requires sep != [] && i <= n <= |s| && n + |sep| <= |s|
    requires forall j: nat :: i <= j < n ==> !Occurs(s, sep, j)
    ensures Scan(s, sep, 0, i) == Scan(s, sep, 0, n)
    decreases n - i
  {
    if i < n {
      assert !Occurs(s, sep, i);
      ScanAhead(s, sep, i + 1, n);
    }
  }

  lemma {:induction false} ScanNothing(s: string, sep: string, i: nat)
    requires sep != [] && i <= |s| && Clean(s, sep, true)
    ensures Scan(s, sep, 0, i) == [s]
    decreases |s| - i
  {
    if i + |sep| <= |s| {
      assert !Occurs(s, sep, i);
      ScanNothing(s, sep, i + 1);
    }
  }

  /** The first piece that is found in what was joined is the first that was put in. */
  lemma FirstPiece(p: string, rest: string, sep: string)
    requires sep != [] && Clean(p, sep, false)
    ensures SplitOf(p + sep + rest, sep) == [p] + SplitOf(rest, sep)
  {
    var s, n := p + sep + rest, |p|;
    forall j: nat | j < n
      ensures !Occurs(s, sep, j)
    {
      OccursShift(s, sep, 0, n + |sep|, j);
      assert s[0..n + |sep|] == p + sep;
    }
    ScanAhead(s, sep, 0, n);
    assert s[n..n + |sep|] == sep && s[0..n] == p && s[n + |sep|..] == rest;
    ScanSuffix(s, sep, n + |sep|, n + |sep|, n + |sep|);
  }

  lemma {:induction false} CleanIsSplitOfJoin(ps: seq<string>, sep: string)
    requires sep != [] && ps != [] && AllClean(ps, sep)
    ensures SplitOf(JoinOf(ps, sep), sep) == ps
    decreases |ps|
  {
    hide Scan, Clean;
    assert Clean(ps[0], sep, |ps| == 1);
    if |ps| == 1 {
      ScanNothing(ps[0], sep, 0);
    } else {
      assert ps == [ps[0]] + ps[1..];
      ConsClean(ps[0], ps[1..], sep);
      FirstPiece(ps[0], JoinOf(ps[1..], sep), sep);
      CleanIsSplitOfJoin(ps[1..], sep);
    }
  }

  // ----- the round trips -----

  /** Joining what was split gives the string back, and no piece contains the separator. */
  lemma JoinOfSplit(s: string, sep: string)
    requires sep != []
    ensures JoinOf(SplitOf(s, sep), sep) == s
    ensures forall k :: 0 <= k < |SplitOf(s, sep)| ==> !Contains(SplitOf(s, sep)[k], sep)
  {
    ScanJoins(s, sep, 0, 0);
    assert s[0..] == s;
    ScanIsClean(s, sep, 0, 0);
    var ps := SplitOf(s, sep);
    forall k | 0 <= k < |ps|
      ensures !Contains(ps[k], sep)
    {
      assert Clean(ps[k], sep, k == |ps| - 1);
      if Contains(ps[k], sep) {
        var i: nat :| Occurs(ps[k], sep, i);
        assert (ps[k] + sep)[i..i + |sep|] == ps[k][i..i + |sep|];
        assert Occurs(ps[k] + sep, sep, i);
      }
    }
  }

  /**
   * Splitting what was joined gives the pieces back exactly if each, followed by the separator, does
   * not form the separator any earlier, and the last does not contain it.
   */
  lemma SplitOfJoinIff(ps: seq<string>, sep: string)
    requires sep != [] && ps != []
    ensures SplitOf(JoinOf(ps, sep), sep) == ps <==> AllClean(ps, sep)
  {
    if AllClean(ps, sep) {
      CleanIsSplitOfJoin(ps, sep);
    }
    ScanIsClean(JoinOf(ps, sep), sep, 0, 0);
  }

  /** Splitting is the only way to cut a string into such pieces. */
  lemma SplitIsUnique(s: string, ps: seq<string>, sep: string)
    requires sep != [] && ps != []
    ensures JoinOf(ps, sep) == s && AllClean(ps, sep) <==> ps == SplitOf(s, sep)
  {
    JoinOfSplit(s, sep);
    SplitOfJoinIff(ps, sep);
    ScanIsClean(s, sep, 0, 0);
  }

  /** Pieces without the separator need not survive: the joint may form it earlier. */
  lemma OverlapIsNotRestored()
    ensures !Contains("a", "aa") && !Contains("", "aa") && SplitOf(JoinOf(["a", ""], "aa"), "aa") != ["a", ""]
  {
  }

  /** Where the k-th piece begins in what was joined. */
  function Offset(ps: seq<string>, sep: string, k: nat): nat
    requires k <= |ps|
  {
    if k == 0 then 0 else |ps[0]| + |sep| + Offset(ps[1..], sep, k - 1)
  }

  /** Every piece is in its place in what was joined, with a separator after each but the last, and nothing else is. */
  lemma {:induction false} JoinPlaces(ps: seq<string>, sep: string, k: nat)
    requires k < |ps|
    ensures var s, at := JoinOf(ps, sep), Offset(ps, sep, k);
      && at + |ps[k]| <= |s| && s[at..at + |ps[k]|] == ps[k]
      && (k + 1 < |ps| ==> at + |ps[k]| + |sep| <= |s| && s[at + |ps[k]|..at + |ps[k]| + |sep|] == sep)
      && (k + 1 == |ps| ==> at + |ps[k]| == |s|)
    decreases |ps|
  {
    if |ps| > 1 && k > 0 {
      JoinPlaces(ps[1..], sep, k - 1);
      var head, rest := ps[0] + sep, JoinOf(ps[1..], sep);
      var at := Offset(ps[1..], sep, k - 1);
      assert ps[1..][k - 1] == ps[k];
      SliceBehind(head, rest, at, at + |ps[k]|);
      if k + 1 < |ps| {
        SliceBehind(head, rest, at + |ps[k]|, at + |ps[k]| + |sep|);
      }
    }
  }

  lemma SliceBehind(head: string, rest: string, i: nat, j: nat)
    requires i <= j <= |rest|
    ensures (head + rest)[|head| + i..|head| + j] == rest[i..j]
  {
  }

  // ----- the code -----

  /** Where the separators start that the scan from i on finds. */
  ghost function Marks(s: string, sep: string, i: nat): seq<int>
    requires sep != [] && i <= |s|
    decreases |s| - i
  {
    if i + |sep| > |s| then []
    else if Occurs(s, sep, i) then [i as int] + Marks(s, sep, i + |sep|)
    else Marks(s, sep, i + 1)
  }

  /** The first mark found from i on ends the piece that begins at begin; the others are found from there on. */
  lemma {:induction false} FirstMark(s: string, sep: string, begin: nat, i: nat)
    requires sep != [] && begin <= i <= |s|
    ensures var marks := Marks(s, sep, i);
      if marks == [] then Scan(s, sep, begin, i) == [s[begin..]]
      else
        var m := marks[0];
        && i <= m <= |s| - |sep| && marks[1..] == Marks(s, sep, m + |sep|)
        && Scan(s, sep, begin, i) == [s[begin..m]] + Scan(s, sep, m + |sep|, m + |sep|)
    decreases |s| - i
  {
    hide Scan, Occurs;
    ScanStep(s, sep, begin, i);
    if i + |sep| <= |s| && !Occurs(s, sep, i) {
      FirstMark(s, sep, begin, i + 1);
    }
  }

  /** Compares the separator with what stands at i, character by character. */
  method Matches(s: string, sep: string, i: nat) returns (isSep: bool)
    requires i + |sep| <= |s|
    ensures isSep <==> Occurs(s, sep, i)
  {
    isSep := true;
    var j := i;
    while j < i + |sep|
      invariant i <= j <= i + |sep| && s[i..j] == sep[..j - i]
    {
      if s[j] != sep[j - i] {
        assert s[i..i + |sep|][j - i] == s[j];
        return false;
      }
      assert s[i..j + 1] == s[i..j] + [s[j]] && sep[..j + 1 - i] == sep[..j - i] + [sep[j - i]];
      j := j + 1;
    }
  }

  /** The index table: before the beginning, every separator found, the end. */
  method IndexTable(s: string, sep: string) returns (table: seq<int>)
    requires 0 < |sep| <= |s|
    ensures table == [-|sep|] + Marks(s, sep, 0) + [|s|]
  {
    table := [-|sep|];
    var i := 0;
    while i <= |s| - |sep|
      invariant i <= |s|
      invariant table + Marks(s, sep, i) == [-|sep|] + Marks(s, sep, 0)
      decreases |s| - i
    {
      var isSep := Matches(s, sep, i);
      if isSep {
        assert table + ([i as int] + Marks(s, sep, i + |sep|)) == (table + [i]) + Marks(s, sep, i + |sep|);
        table := table + [i];
        i := i + |sep|;
      } else {
        i := i + 1;
      }
    }
    assert table + [] == table;
    table := table + [|s|];
  }

  /** The pieces between the entries of the index table. */
  method Cut(s: string, sep: string, table: seq<int>) returns (substrs: seq<string>)
    requires sep != [] && table == [-|sep|] + Marks(s, sep, 0) + [|s|]
    ensures substrs == SplitOf(s, sep)
  {
    hide Marks, Scan;
    substrs := [];
    ghost var left, from := Marks(s, sep, 0), 0;
    assert table[1..] == left + [|s|];
    for i := 1 to |table|
      invariant i < |table| ==> from == table[i - 1] + |sep| && 0 <= from <= |s|
      invariant i < |table| ==> left == Marks(s, sep, from) && table[i..] == left + [|s|]
      invariant i < |table| ==> substrs + Scan(s, sep, from, from) == SplitOf(s, sep)
      invariant i == |table| ==> substrs == SplitOf(s, sep)
    {
      FirstMark(s, sep, from, from);
      assert table[i] == (left + [|s|])[0] && table[i + 1..] == (left + [|s|])[1..];
      var begin, end := table[i - 1] + |sep|, table[i];
      if left == [] {
        assert s[begin..end] == s[begin..];
      } else {
        Append(substrs, s[begin..end], Scan(s, sep, end + |sep|, end + |sep|));
        left, from := left[1..], end + |sep|;
      }
      substrs := substrs + [s[begin..end]];
    }
  }

  /** split. */
  method Split(s: string, sep: string) returns (r: Result<seq<string>>)
    ensures r.Failure? <==> sep == []
    ensures r.Success? ==> r.value == SplitOf(s, sep)
  {
    if |sep| == 0 {
      return Failure("cannot split string with empty seperator");
    }
    if |sep| > |s| {
      return Success([s]);
    }
    var table := IndexTable(s, sep);
    if |table| == 2 {
      FirstMark(s, sep, 0, 0);
      assert s[0..] == s;
      return Success([s]);
    }
    var substrs := Cut(s, sep, table);
    return Success(substrs);
  }

  lemma Append(a: seq<string>, x: string, b: seq<string>)
    ensures (a + [x]) + b == a + ([x] + b)
  {
  }

  lemma {:induction false} JoinOfSnoc(ps: seq<string>, p: string, sep: string)
    requires ps != []
    ensures JoinOf(ps + [p], sep) == JoinOf(ps, sep) + sep + p
    decreases |ps|
  {
    assert (ps + [p])[1..] == ps[1..] + [p];
    if |ps| > 1 {
      JoinOfSnoc(ps[1..], p, sep);
      var head, tail := ps[0] + sep, JoinOf(ps[1..], sep);
      Associate(head, tail + sep, p);
      Associate(head, tail, sep);
    }
  }

  /**
   * join. On an empty list the length to reserve, in unsigned arithmetic, is that of the separator
   * short of the whole address space; reserve throws, which ends a noexcept function's program.
   */
  method Join(ps: seq<string>, sep: string) returns (r: Result<string>)
    ensures r == if ps == [] && sep != [] then Failure("terminate") else Success(JoinOf(ps, sep))
    ensures ps == [] && sep == [] ==> r == Success("")
  {
    if |ps| == 0 && |sep| > 0 {
      return Failure("terminate");
    }
    var ret := "";
    for i := 0 to |ps|
      invariant ret == JoinOf(ps[..i], sep) + (if 0 < i < |ps| then sep else [])
    {
      if i > 0 {
        JoinOfSnoc(ps[..i], ps[i], sep);
      }
      assert ps[..i + 1] == ps[..i] + [ps[i]];
      ret := ret + ps[i];
      if i != |ps| - 1 {
        ret := ret + sep;
      }
    }
    assert ps[..|ps|] == ps && JoinOf(ps, sep) + [] == JoinOf(ps, sep);
    return Success(ret);
  }
}
