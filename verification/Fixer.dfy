/** Choosing which suggested edits to apply: per file, the linters whose edits
    fit together, all of their edits or none of them. */
module Fixer {
  import opened Options
  import opened StringOrder

  /** Replace the text between two offsets. */
  datatype Edit = Edit(start: int, end: int, text: string)

  ghost predicate WellFormed(edits: seq<Edit>) {
    forall i :: 0 <= i < |edits| ==> edits[i].start <= edits[i].end
  }

  // ----- The stable sort by (start, end)

  predicate Before(a: Edit, b: Edit) {
    a.start < b.start || (a.start == b.start && a.end < b.end)
  }

  ghost predicate Sorted(edits: seq<Edit>) {
    forall i, j :: 0 <= i < j < |edits| ==> !Before(edits[j], edits[i])
  }

  /** `l` with `e` after everything that is not greater. */
  function Insert(l: seq<Edit>, e: Edit): (r: seq<Edit>)
    ensures multiset(r) == multiset(l) + multiset{e}
  {
    if l == [] then [e]
    else
      var init, last := l[..|l| - 1], l[|l| - 1];
      assert l == init + [last];
      if Before(e, last) then Insert(init, e) + [last] else l + [e]
  }

  lemma SortedSnoc(l: seq<Edit>, x: Edit)
    requires Sorted(l) && forall y :: y in l ==> !Before(x, y)
    ensures Sorted(l + [x])
  {
  }

  lemma {:induction false} InsertSorted(l: seq<Edit>, e: Edit)
    requires Sorted(l)
    ensures Sorted(Insert(l, e))
  {
    if l != [] {
      var init, last := l[..|l| - 1], l[|l| - 1];
      assert l == init + [last];
      if Before(e, last) {
        InsertSorted(init, e);
        forall y | y in Insert(init, e)
          ensures !Before(last, y)
        {
          assert y in multiset(Insert(init, e));
        }
        SortedSnoc(Insert(init, e), last);
      } else {
        SortedSnoc(l, e);
      }
    }
  }

  /** The edits by (start, end), equal keys in their original order. */
  function SortEdits(edits: seq<Edit>): (r: seq<Edit>)
    ensures multiset(r) == multiset(edits)
  {
    if edits == [] then []
    else
      assert edits == edits[..|edits| - 1] + [edits[|edits| - 1]];
      Insert(SortEdits(edits[..|edits| - 1]), edits[|edits| - 1])
  }

  lemma {:induction false} SortEditsSorted(edits: seq<Edit>)
    ensures Sorted(SortEdits(edits))
  {
    if edits != [] {
      SortEditsSorted(edits[..|edits| - 1]);
      InsertSorted(SortEdits(edits[..|edits| - 1]), edits[|edits| - 1]);
    }
  }

  /** The edits of `edits` that replace `start` to `end`, in order. */
  ghost function AtRange(edits: seq<Edit>, start: int, end: int): seq<Edit> {
    if edits == [] then []
    else
      var init, last := edits[..|edits| - 1], edits[|edits| - 1];
      AtRange(init, start, end) + if last.start == start && last.end == end then [last] else []
  }

  lemma AtRangeSnoc(l: seq<Edit>, x: Edit, start: int, end: int)
    ensures AtRange(l + [x], start, end) == AtRange(l, start, end) + if x.start == start && x.end == end then [x] else []
  {
    assert (l + [x])[..|l|] == l;
  }

  lemma InsertBefore(init: seq<Edit>, last: Edit, e: Edit, inserted: seq<Edit>, start: int, end: int)
    requires Before(e, last) && AtRange(inserted, start, end) == AtRange(init + [e], start, end)
    ensures AtRange(inserted + [last], start, end) == AtRange(init + [last] + [e], start, end)
  {
    hide AtRange;
    AtRangeSnoc(inserted, last, start, end);
    AtRangeSnoc(init, e, start, end);
    AtRangeSnoc(init, last, start, end);
    AtRangeSnoc(init + [last], e, start, end);
  }

  lemma {:induction false} InsertStable(l: seq<Edit>, e: Edit, start: int, end: int)
    ensures AtRange(Insert(l, e), start, end) == AtRange(l + [e], start, end)
  {
    hide AtRange;
    if l == [] {
      assert l + [e] == [e];
    } else {
      var init, last := l[..|l| - 1], l[|l| - 1];
      assert l == init + [last];
      if Before(e, last) {
        InsertStable(init, e, start, end);
        InsertBefore(init, last, e, Insert(init, e), start, end);
      }
    }
  }

  /** The sort is stable: edits of one range, such as insertions at one point,
      keep their order. */
  lemma {:induction false} SortStable(edits: seq<Edit>, start: int, end: int)
    ensures AtRange(SortEdits(edits), start, end) == AtRange(edits, start, end)
  {
    if edits != [] {
      var init, last := edits[..|edits| - 1], edits[|edits| - 1];
      SortStable(init, start, end);
      InsertStable(SortEdits(init), last, start, end);
      AtRangeSnoc(SortEdits(init), last, start, end);
    }
  }

  /** Sorted by start and then by end. */
  lemma SortedMeans(edits: seq<Edit>, i: nat, j: nat)
    requires Sorted(edits) && i < j < |edits|
    ensures edits[i].start < edits[j].start || (edits[i].start == edits[j].start && edits[i].end <= edits[j].end)
  {
  }

  lemma SameMembers(a: seq<Edit>, b: seq<Edit>)
    requires multiset(a) == multiset(b)
    ensures |a| == |b| && forall e :: e in a <==> e in b
  {
    assert |multiset(a)| == |multiset(b)|;
    assert forall e :: e in a <==> e in multiset(a);
    assert forall e :: e in b <==> e in multiset(b);
  }

  // ----- Conflicts

  /** Two edits can both be applied: they are the same edit, or one ends where
      or before the other starts. */
  predicate Compatible(a: Edit, b: Edit) {
    a == b || a.end <= b.start || b.end <= a.start
  }

  ghost predicate AllCompatible(edits: seq<Edit>) {
    forall i, j :: 0 <= i < |edits| && 0 <= j < |edits| ==> Compatible(edits[i], edits[j])
  }

  /** What `validateEdits` looks at: neighbours in sorted order. */
  ghost predicate NeighboursFit(edits: seq<Edit>) {
    forall i :: 1 <= i < |edits| ==> edits[i - 1] == edits[i] || edits[i - 1].end <= edits[i].start
  }

  /** What applying edits requires: each starts where or after the previous one ends. */
  ghost predicate Chained(edits: seq<Edit>) {
    forall i :: 1 <= i < |edits| ==> edits[i - 1].end <= edits[i].start
  }

  lemma {:induction false} NeighboursReach(s: seq<Edit>, i: nat, j: nat)
    requires Sorted(s) && WellFormed(s) && NeighboursFit(s) && i < j < |s|
    ensures s[i] == s[j] || s[i].end <= s[j].start
    decreases j - i
  {
    if i + 1 < j {
      NeighboursReach(s, i + 1, j);
      assert !Before(s[j], s[i + 1]);
    }
    assert s[i + 1 - 1] == s[i + 1] || s[i + 1 - 1].end <= s[i + 1].start;
  }

  /** Looking at neighbours is enough: in sorted order they fit exactly when
      every two edits are compatible. */
  lemma NeighboursSuffice(s: seq<Edit>)
    requires Sorted(s) && WellFormed(s)
    ensures NeighboursFit(s) <==> AllCompatible(s)
  {
    if NeighboursFit(s) {
      forall i, j | 0 <= i < |s| && 0 <= j < |s|
        ensures Compatible(s[i], s[j])
      {
        if i < j {
          NeighboursReach(s, i, j);
        } else if j < i {
          NeighboursReach(s, j, i);
        }
      }
    }
    if AllCompatible(s) {
      forall i | 1 <= i < |s|
        ensures s[i - 1] == s[i] || s[i - 1].end <= s[i].start
      {
        assert Compatible(s[i - 1], s[i]) && !Before(s[i], s[i - 1]);
      }
    }
  }

  lemma CompatibleMembers(a: seq<Edit>, b: seq<Edit>)
    requires (forall e :: e in b ==> e in a) && AllCompatible(a)
    ensures AllCompatible(b)
  {
    forall i, j | 0 <= i < |b| && 0 <= j < |b|
      ensures Compatible(b[i], b[j])
    {
      assert b[i] in a && b[j] in a;
    }
  }

  /** `edits` without those that repeat the one before. */
  ghost function WithoutRepeats(edits: seq<Edit>): seq<Edit> {
    if |edits| <= 1 then edits
    else
      var init, last := edits[..|edits| - 1], edits[|edits| - 1];
      WithoutRepeats(init) + if init[|init| - 1] == last then [] else [last]
  }

  lemma WithoutRepeatsNext(edits: seq<Edit>, i: nat)
    requires 1 <= i < |edits|
    ensures WithoutRepeats(edits[..i + 1]) == WithoutRepeats(edits[..i]) + if edits[i - 1] == edits[i] then [] else [edits[i]]
  {
    assert edits[..i + 1][..i] == edits[..i];
  }

  /** Sort the edits, drop repeated neighbours and report the last position at
      which neighbours overlap, or a negative number if none do. */
  method ValidateEdits(edits: seq<Edit>) returns (sorted: seq<Edit>, unique: seq<Edit>, invalid: int)
    requires WellFormed(edits)
    ensures sorted == SortEdits(edits)
    ensures unique == WithoutRepeats(sorted)
    ensures forall e :: e in unique <==> e in edits
    ensures Sorted(unique) && WellFormed(unique) && Distinct(unique)
    ensures invalid < 0 <==> AllCompatible(edits)
    ensures invalid >= 0 ==> 1 <= invalid < |sorted| && !Compatible(sorted[invalid - 1], sorted[invalid])
    ensures invalid < 0 ==> Chained(unique)
  {
    hide SortEdits;
    sorted := SortEdits(edits);
    SortedFacts(edits);
    if |edits| == 0 {
      return sorted, [], -1;
    }
    unique, invalid := ScanNeighbours(sorted);
    UniqueFits(edits, unique);
    if invalid >= 0 {
      assert !Before(sorted[invalid], sorted[invalid - 1]);
    }
  }

  lemma SortedFacts(edits: seq<Edit>)
    requires WellFormed(edits)
    ensures var s := SortEdits(edits);
            && |s| == |edits| && Sorted(s) && WellFormed(s)
            && (forall e :: e in s <==> e in edits)
            && (NeighboursFit(s) <==> AllCompatible(edits))
  {
    var s := SortEdits(edits);
    SortEditsSorted(edits);
    SameMembers(s, edits);
    assert WellFormed(s) by {
      assert forall i :: 0 <= i < |s| ==> s[i] in edits;
    }
    NeighboursSuffice(s);
    if AllCompatible(s) {
      CompatibleMembers(s, edits);
    }
    if AllCompatible(edits) {
      CompatibleMembers(edits, s);
    }
  }

  lemma UniqueFits(edits: seq<Edit>, unique: seq<Edit>)
    requires WellFormed(edits) && Sorted(unique) && forall e :: e in unique <==> e in edits
    requires forall i :: 1 <= i < |unique| ==> unique[i - 1] != unique[i]
    ensures WellFormed(unique) && (AllCompatible(edits) ==> Chained(unique))
  {
    assert forall i :: 0 <= i < |unique| ==> unique[i] in edits;
    NeighboursSuffice(unique);
    if AllCompatible(edits) {
      CompatibleMembers(edits, unique);
    }
  }

  /** The loop of `validateEdits` over the sorted edits. */
  method ScanNeighbours(sorted: seq<Edit>) returns (unique: seq<Edit>, invalid: int)
    requires Sorted(sorted) && sorted != []
    ensures unique == WithoutRepeats(sorted)
    ensures forall e :: e in unique <==> e in sorted
    ensures Sorted(unique) && Distinct(unique)
    ensures invalid < 0 <==> NeighboursFit(sorted)
    ensures invalid >= 0 ==> OverlapAt(sorted, invalid)
  {
    hide Sorted, WithoutRepeats, Distinct, NeighboursFit, FitUpTo, OverlapAt;
    unique := [sorted[0]];
    invalid := -1;
    ScanStart(sorted);
    for i := 1 to |sorted|
      invariant unique == WithoutRepeats(sorted[..i])
      invariant -1 <= invalid < i
      invariant if invalid < 0 then FitUpTo(sorted, i) else OverlapAt(sorted, invalid)
    {
      var prev, cur := sorted[i - 1], sorted[i];
      WithoutRepeatsNext(sorted, i);
      FitNext(sorted, i);
      if prev != cur {
        unique := unique + [cur];
        if prev.end > cur.start {
          invalid := i;
        }
      }
    }
    ScanEnd(sorted, invalid);
  }

  lemma ScanStart(sorted: seq<Edit>)
    requires sorted != []
    ensures WithoutRepeats(sorted[..1]) == [sorted[0]] && FitUpTo(sorted, 1)
  {
    assert sorted[..1] == [sorted[0]];
  }

  lemma ScanEnd(sorted: seq<Edit>, invalid: int)
    requires Sorted(sorted) && sorted != []
    requires if invalid < 0 then FitUpTo(sorted, |sorted|) else OverlapAt(sorted, invalid)
    ensures var unique := WithoutRepeats(sorted[..|sorted|]);
            && unique == WithoutRepeats(sorted) && Sorted(unique) && Distinct(unique)
            && (forall e :: e in unique <==> e in sorted)
    ensures (invalid < 0 <==> NeighboursFit(sorted)) && (invalid >= 0 ==> OverlapAt(sorted, invalid))
  {
    assert sorted[..|sorted|] == sorted;
    FitMeans(sorted, invalid);
    WithoutRepeatsFacts(sorted);
    hide Sorted, WithoutRepeats, Distinct, NeighboursFit, FitUpTo, OverlapAt;
  }

  ghost predicate FitUpTo(sorted: seq<Edit>, i: nat) {
    i <= |sorted| && NeighboursFit(sorted[..i])
  }

  ghost predicate OverlapAt(sorted: seq<Edit>, i: int) {
    1 <= i < |sorted| && sorted[i - 1] != sorted[i] && sorted[i - 1].end > sorted[i].start
  }

  lemma FitNext(sorted: seq<Edit>, i: nat)
    requires 1 <= i < |sorted|
    ensures sorted[i - 1] != sorted[i] && sorted[i - 1].end > sorted[i].start ==> OverlapAt(sorted, i)
    ensures FitUpTo(sorted, i) && (sorted[i - 1] == sorted[i] || sorted[i - 1].end <= sorted[i].start) ==> FitUpTo(sorted, i + 1)
  {
    var a, b := sorted[..i], sorted[..i + 1];
    assert b == a + [sorted[i]];
  }

  lemma FitMeans(sorted: seq<Edit>, invalid: int)
    requires sorted != [] && if invalid < 0 then FitUpTo(sorted, |sorted|) else OverlapAt(sorted, invalid)
    ensures invalid < 0 <==> NeighboursFit(sorted)
    ensures invalid >= 0 ==> OverlapAt(sorted, invalid)
  {
    assert sorted[..|sorted|] == sorted;
  }

  ghost predicate Distinct(edits: seq<Edit>) {
    forall i :: 1 <= i < |edits| ==> edits[i - 1] != edits[i]
  }

  lemma {:induction false} WithoutRepeatsFacts(edits: seq<Edit>)
    requires Sorted(edits) && edits != []
    ensures var r := WithoutRepeats(edits);
            && (forall e :: e in r <==> e in edits)
            && Sorted(r) && Distinct(r) && r != [] && r[|r| - 1] == edits[|edits| - 1]
  {
    if |edits| > 1 {
      var init, last := edits[..|edits| - 1], edits[|edits| - 1];
      WithoutRepeatsFacts(init);
      assert edits == init + [last];
      var r := WithoutRepeats(init);
      hide Before;
      if init[|init| - 1] != last {
        forall y | y in r
          ensures !Before(last, y)
        {
          assert y in init;
        }
        SortedSnoc(r, last);
        hide Sorted;
      } else {
        assert last in init && r + [] == r;
      }
    }
  }

  // ----- Which linters' edits go into a file

  type EditsByLinter = map<string, seq<Edit>>

  /** Every edit of `a` can be applied together with every edit of `b`. */
  ghost predicate Fits(a: seq<Edit>, b: seq<Edit>) {
    forall x, y :: x in a && y in b ==> Compatible(x, y)
  }

  lemma FitsIsCompatible(a: seq<Edit>, b: seq<Edit>)
    ensures AllCompatible(a) <==> Fits(a, a)
    ensures AllCompatible(a + b) <==> Fits(a, a) && Fits(b, b) && Fits(a, b)
  {
    MembersCompatible(a);
    MembersCompatible(a + b);
    assert forall x :: x in a + b <==> x in a || x in b;
    assert Fits(a, b) <==> Fits(b, a);
  }

  lemma MembersCompatible(a: seq<Edit>)
    ensures AllCompatible(a) <==> Fits(a, a)
  {
    if Fits(a, a) {
      assert forall i :: 0 <= i < |a| ==> a[i] in a;
    }
  }

  ghost predicate SameEdits(m: EditsByLinter, n: EditsByLinter) {
    m.Keys == n.Keys && forall l, e :: l in m ==> (e in m[l] <==> e in n[l])
  }

  ghost predicate AllWellFormed(m: EditsByLinter) {
    forall l :: l in m ==> WellFormed(m[l])
  }

  /** The keys of a map in some order. */
  method Keys<V>(m: map<string, V>) returns (keys: seq<string>)
    ensures forall k :: k in keys <==> k in m
    ensures forall i, j :: 0 <= i < j < |keys| ==> keys[i] != keys[j]
  {
    keys := [];
    var left := m.Keys;
    while left != {}
      invariant left <= m.Keys && forall k :: k in keys <==> k in m.Keys - left
      invariant forall i, j :: 0 <= i < j < |keys| ==> keys[i] != keys[j]
      decreases left
    {
      var k :| k in left;
      assert k !in keys;
      ghost var before, rest := keys, left;
      keys := keys + [k];
      left := left - {k};
      assert forall x: string :: x in keys <==> x in before || x == k;
      assert forall x: string :: x in m.Keys - left <==> x in m.Keys - rest || x == k;
    }
  }

  /** Exclude the linters whose own edits conflict. Validating sorts their
      edits in place. */
  method SelfCheck(m: EditsByLinter, linters: seq<string>) returns (sorted: EditsByLinter, excluded: set<string>)
    requires AllWellFormed(m) && forall l :: l in linters <==> l in m
    ensures SameEdits(m, sorted) && AllWellFormed(sorted)
    ensures forall l :: l in excluded <==> l in m && !Fits(m[l], m[l])
  {
    sorted, excluded := m, {};
    hide SameEdits, AllWellFormed, Fits, AllCompatible, WellFormed, Sorted;
    SameAtFirst(m);
    for i := 0 to |linters|
      invariant SameEdits(m, sorted) && AllWellFormed(sorted)
      invariant forall l :: l in excluded <==> l in linters[..i] && !Fits(m[l], m[l])
    {
      var linter := linters[i];
      assert linters[..i + 1] == linters[..i] + [linter];
      SelfFits(m, sorted, linter);
      var edits, _, invalid := ValidateEdits(sorted[linter]);
      SameAfterSort(m, sorted, linter);
      sorted := sorted[linter := edits];
      if invalid > 0 {
        excluded := excluded + {linter};
      }
    }
    assert linters[..|linters|] == linters;
  }

  lemma SameAtFirst(m: EditsByLinter)
    ensures SameEdits(m, m)
  {
  }

  lemma SelfFits(m: EditsByLinter, sorted: EditsByLinter, l: string)
    requires SameEdits(m, sorted) && AllWellFormed(sorted) && l in m
    ensures l in sorted && WellFormed(sorted[l]) && (AllCompatible(sorted[l]) <==> Fits(m[l], m[l]))
  {
    FitsIsCompatible(sorted[l], []);
    hide AllCompatible, WellFormed;
  }

  lemma SameAfterSort(m: EditsByLinter, sorted: EditsByLinter, l: string)
    requires SameEdits(m, sorted) && AllWellFormed(sorted) && l in sorted
    ensures SameEdits(m, sorted[l := SortEdits(sorted[l])]) && AllWellFormed(sorted[l := SortEdits(sorted[l])])
  {
    SortedFacts(sorted[l]);
    hide SortEdits;
  }

  /** The linters not yet excluded have no conflict of their own. */
  ghost predicate OthersFit(m: EditsByLinter, excluded: set<string>) {
    forall l :: l in m && l !in excluded ==> Fits(m[l], m[l])
  }

  /** Of two remaining linters whose edits conflict, exclude the one that comes
      first in the alphabet. */
  method CheckPair(m: EditsByLinter, a: string, b: string, excluded: set<string>) returns (r: set<string>)
    requires AllWellFormed(m) && a in m && b in m && a != b && OthersFit(m, excluded)
    ensures a in r || b in r || Fits(m[a], m[b])
    ensures r == if a in excluded || b in excluded || Fits(m[a], m[b]) then excluded
                 else excluded + {if Less(a, b) then a else b}
  {
    hide WellFormed, Fits, AllCompatible, Sorted, NeighboursFit, Less;
    r := excluded;
    LessTotal(a, b);
    var x, y := if Less(b, a) then b else a, if Less(b, a) then a else b;
    if x in excluded || y in excluded {
      return;
    }
    WellFormedConcat(m[x], m[y]);
    var _, _, invalid := ValidateEdits(m[x] + m[y]);
    FitsIsCompatible(m[x], m[y]);
    FitsSymmetric(m[x], m[y]);
    if invalid > 0 {
      r := r + {x};
    }
  }

  ghost function Names(order: seq<string>): set<string> { set l | l in order }

  /** When `l` was excluded, with `gone` excluded before, it conflicted with a
      linter that was still there and is later in the alphabet. */
  ghost predicate Justified(m: EditsByLinter, gone: set<string>, l: string) {
    l in m && l !in gone && exists y :: y in m && y !in gone && Less(l, y) && !Fits(m[l], m[y])
  }

  /** Each of the linters in `order` was excluded for such a conflict in turn. */
  ghost predicate InTurn(m: EditsByLinter, excluded: set<string>, order: seq<string>) {
    forall i :: 0 <= i < |order| ==> Justified(m, excluded + Names(order[..i]), order[i])
  }

  method CheckInTurn(m: EditsByLinter, a: string, b: string, ghost excluded: set<string>, before: set<string>, ghost turns: seq<string>)
      returns (r: set<string>, ghost order: seq<string>)
    requires AllWellFormed(m) && a in m && b in m && a != b && OthersFit(m, excluded)
    requires before == excluded + Names(turns) && InTurn(m, excluded, turns)
    ensures before <= r && r == excluded + Names(order) && InTurn(m, excluded, order)
    ensures a in r || b in r || Fits(m[a], m[b])
  {
    hide WellFormed, Less;
    r := CheckPair(m, a, b, before);
    order := turns;
    if r != before {
      var x, y := if Less(a, b) then a else b, if Less(a, b) then b else a;
      LessTotal(a, b);
      FitsSymmetric(m[a], m[b]);
      hide Fits;
      order := turns + [x];
      assert Justified(m, before, x);
      InTurnNext(m, excluded, turns, x);
    }
  }

  lemma InTurnNext(m: EditsByLinter, excluded: set<string>, turns: seq<string>, x: string)
    requires InTurn(m, excluded, turns) && Justified(m, excluded + Names(turns), x)
    ensures InTurn(m, excluded, turns + [x]) && Names(turns + [x]) == Names(turns) + {x}
  {
    hide Justified;
    var order := turns + [x];
    forall i | 0 <= i < |order|
      ensures Justified(m, excluded + Names(order[..i]), order[i])
    {
      assert i < |turns| ==> order[..i] == turns[..i];
      assert i == |turns| ==> order[..i] == turns;
    }
  }

  method PairCheck(m: EditsByLinter, linters: seq<string>, excluded: set<string>) returns (r: set<string>, ghost order: seq<string>)
    requires AllWellFormed(m) && OthersFit(m, excluded)
    requires forall l :: l in linters <==> l in m
    requires forall i, j :: 0 <= i < j < |linters| ==> linters[i] != linters[j]
    ensures r == excluded + Names(order) && InTurn(m, excluded, order)
    ensures forall x, y :: x in m && y in m && x !in r && y !in r ==> Fits(m[x], m[y])
  {
    hide WellFormed, Fits, Less;
    r, order := excluded, [];
    for j := 0 to |linters|
      invariant r == excluded + Names(order) && InTurn(m, excluded, order)
      invariant forall i, k :: 0 <= k < i < j && linters[i] !in r && linters[k] !in r ==>
        Fits(m[linters[i]], m[linters[k]])
    {
      for k := 0 to j
        invariant r == excluded + Names(order) && InTurn(m, excluded, order)
        invariant forall i, k :: 0 <= k < i < j && linters[i] !in r && linters[k] !in r ==>
          Fits(m[linters[i]], m[linters[k]])
        invariant forall i :: 0 <= i < k && linters[j] !in r && linters[i] !in r ==>
          Fits(m[linters[j]], m[linters[i]])
      {
        r, order := CheckInTurn(m, linters[j], linters[k], excluded, r, order);
      }
    }
    forall x, y | x in m && y in m && x !in r && y !in r
      ensures Fits(m[x], m[y])
    {
      var i :| 0 <= i < |linters| && linters[i] == x;
      var k :| 0 <= k < |linters| && linters[k] == y;
      FitsSymmetric(m[x], m[y]);
    }
  }

  lemma FitsSymmetric(a: seq<Edit>, b: seq<Edit>)
    ensures Fits(a, b) <==> Fits(b, a)
  {
  }

  /** All edits of the linters that are not excluded, in some order of the linters. */
  method Collect(m: EditsByLinter, excluded: set<string>) returns (edits: seq<Edit>)
    requires AllWellFormed(m)
    ensures WellFormed(edits)
    ensures forall e :: e in edits <==> exists l :: l in m && l !in excluded && e in m[l]
  {
    hide WellFormed;
    var linters := Keys(m);
    edits := [];
    NoEditsWellFormed();
    for i := 0 to |linters|
      invariant WellFormed(edits)
      invariant forall e :: e in edits <==> exists k :: 0 <= k < i && linters[k] !in excluded && e in m[linters[k]]
    {
      if linters[i] !in excluded {
        WellFormedConcat(edits, m[linters[i]]);
        edits := edits + m[linters[i]];
      }
    }
    forall e
      ensures e in edits <==> exists l :: l in m && l !in excluded && e in m[l]
    {
      if l :| l in m && l !in excluded && e in m[l] {
        var k :| 0 <= k < |linters| && linters[k] == l;
      }
    }
  }

  lemma NoEditsWellFormed()
    ensures WellFormed([])
  {
  }

  lemma WellFormedConcat(a: seq<Edit>, b: seq<Edit>)
    requires WellFormed(a) && WellFormed(b)
    ensures WellFormed(a + b)
  {
  }

  /** The edits chosen for one file. They are the edits of the linters that
      were not excluded, all of them and no others; every two of them are
      compatible; and a linter is excluded only if its own edits conflict or
      it loses to a linter later in the alphabet. */
  method SelectEdits(m: EditsByLinter) returns (edits: seq<Edit>, excluded: set<string>, ghost order: seq<string>)
    requires AllWellFormed(m)
    ensures forall e :: e in edits <==> exists l :: l in m && l !in excluded && e in m[l]
    ensures AllCompatible(edits)
    ensures Sorted(edits) && WellFormed(edits) && Chained(edits)
    ensures Distinct(edits)
    ensures excluded == SelfConflicting(m) + Names(order) && InTurn(m, SelfConflicting(m), order)
  {
    hide WellFormed, Fits, InTurn, Distinct, Sorted;
    var linters := Keys(m);
    var sorted, conflicted := SelfCheck(m, linters);
    SameFits(m, sorted);
    excluded, order := PairCheck(sorted, linters, conflicted);
    assert conflicted == SelfConflicting(m);
    SameTurns(m, sorted, conflicted, order);
    var all := Collect(sorted, excluded);
    UnionFits(sorted, excluded, all);
    var _, unique, invalid := ValidateEdits(all);
    edits := unique;
    CompatibleMembers(all, edits);
    forall e
      ensures e in edits <==> exists l :: l in m && l !in excluded && e in m[l]
    {
      if l :| l in m && l !in excluded && e in m[l] {
        assert e in sorted[l];
      }
    }
  }

  /** The linters whose own edits conflict. */
  ghost function SelfConflicting(m: EditsByLinter): set<string> { set l | l in m && !Fits(m[l], m[l]) }

  lemma SameTurns(m: EditsByLinter, n: EditsByLinter, excluded: set<string>, order: seq<string>)
    requires SameEdits(m, n) && InTurn(n, excluded, order)
    ensures InTurn(m, excluded, order)
  {
    SameFits(m, n);
    hide Fits, Less, Names;
  }

  lemma SameFits(m: EditsByLinter, n: EditsByLinter)
    requires SameEdits(m, n)
    ensures forall x, y :: x in m && y in m ==> (Fits(m[x], m[y]) <==> Fits(n[x], n[y]))
  {
    forall x, y | x in m && y in m
      ensures Fits(m[x], m[y]) <==> Fits(n[x], n[y])
    {
    }
  }

  /** Pairwise fitting linters fit all together. */
  lemma UnionFits(m: EditsByLinter, excluded: set<string>, all: seq<Edit>)
    requires forall x, y :: x in m && y in m && x !in excluded && y !in excluded ==> Fits(m[x], m[y])
    requires forall e :: e in all <==> exists l :: l in m && l !in excluded && e in m[l]
    ensures AllCompatible(all)
  {
    forall a, b | a in all && b in all
      ensures Compatible(a, b)
    {
      var x :| x in m && x !in excluded && a in m[x];
      var y :| y in m && y !in excluded && b in m[y];
      assert Fits(m[x], m[y]);
    }
    MembersCompatible(all);
  }

  // ----- Applying edits to a text

  ghost predicate InBounds(src: string, edits: seq<Edit>) {
    forall i :: 0 <= i < |edits| ==> 0 <= edits[i].start <= edits[i].end <= |src|
  }

  function Splice(src: string, e: Edit): string
    requires 0 <= e.start <= e.end <= |src|
  {
    src[..e.start] + e.text + src[e.end..]
  }

  /** One edit after the other, from the last to the first. */
  ghost function Sequential(src: string, edits: seq<Edit>): string
    requires InBounds(src, edits) && Chained(edits)
    decreases |edits|
  {
    if edits == [] then src
    else
      var init, last := edits[..|edits| - 1], edits[|edits| - 1];
      LeftOfLast(edits);
      Sequential(Splice(src, last), init)
  }

  lemma {:induction false} LeftOfLast(edits: seq<Edit>)
    requires edits != [] && Chained(edits) && WellFormed(edits)
    ensures Chained(edits[..|edits| - 1])
    ensures forall i :: 0 <= i < |edits| - 1 ==> edits[i].end <= edits[|edits| - 1].start
    decreases |edits|
  {
    if |edits| > 1 {
      var init := edits[..|edits| - 1];
      LeftOfLast(init);
      assert forall i :: 0 <= i < |init| ==> init[i] == edits[i];
    }
  }

  ghost function End(edits: seq<Edit>): int {
    if edits == [] then 0 else edits[|edits| - 1].end
  }

  /** The output of `Apply` up to the end of the last edit. */
  ghost function Built(src: string, edits: seq<Edit>): string
    requires InBounds(src, edits) && Chained(edits)
  {
    if edits == [] then []
    else
      var init, last := edits[..|edits| - 1], edits[|edits| - 1];
      LeftOfLast(edits);
      Built(src, init) + src[End(init)..last.start] + last.text
  }

  lemma SamePart(a: string, b: string, n: int, i: int, j: int)
    requires 0 <= i <= j <= n <= |a| && n <= |b| && a[..n] == b[..n]
    ensures a[i..j] == b[i..j]
  {
    assert a[i..j] == a[..n][i..j];
    assert b[i..j] == b[..n][i..j];
  }

  lemma {:induction false} BuiltFromPrefix(src: string, other: string, edits: seq<Edit>)
    requires InBounds(src, edits) && InBounds(other, edits) && Chained(edits)
    requires src[..End(edits)] == other[..End(edits)]
    ensures Built(src, edits) == Built(other, edits)
  {
    if edits != [] {
      var init, last := edits[..|edits| - 1], edits[|edits| - 1];
      LeftOfLast(edits);
      SamePart(src, other, End(edits), 0, End(init));
      assert src[..End(init)] == src[0..End(init)] && other[..End(init)] == other[0..End(init)];
      BuiltFromPrefix(src, other, init);
      SamePart(src, other, End(edits), End(init), last.start);
    }
  }

  /** Applying no edit changes nothing; applying edits replaces the range of the
      last one by its text, and then applies the others. */
  lemma SequentialMeans(src: string, init: seq<Edit>, last: Edit)
    requires InBounds(src, init + [last]) && Chained(init + [last]) && 0 <= last.start <= last.end <= |src|
    ensures InBounds(src[..last.start] + last.text + src[last.end..], init) && Chained(init)
    ensures Sequential(src, init + [last]) == Sequential(src[..last.start] + last.text + src[last.end..], init)
    ensures Sequential(src, []) == src
  {
    var edits := init + [last];
    assert edits[..|edits| - 1] == init;
    LeftOfLast(edits);
  }

  /** Applying all edits in one pass is applying them one after the other. */
  lemma {:induction false} OnePassIsSequential(src: string, edits: seq<Edit>)
    requires InBounds(src, edits) && Chained(edits)
    ensures 0 <= End(edits) <= |src| && Built(src, edits) + src[End(edits)..] == Sequential(src, edits)
    decreases |edits|
  {
    if edits != [] {
      var init, last := edits[..|edits| - 1], edits[|edits| - 1];
      LeftOfLast(edits);
      var after := Splice(src, last);
      OnePassIsSequential(after, init);
      assert after[..End(init)] == src[..End(init)];
      BuiltFromPrefix(src, after, init);
      assert after[End(init)..] == src[End(init)..last.start] + last.text + src[last.end..];
    }
  }

  /** `Apply` succeeds exactly when the sorted edits lie within the text and
      do not overlap, and then gives what applying them one by one gives. */
  method Apply(src: string, edits: seq<Edit>) returns (r: Option<string>)
    requires Sorted(edits)
    ensures r.Some? <==> InBounds(src, edits) && Chained(edits)
    ensures r.Some? ==> r.value == Sequential(src, edits)
  {
    hide Sequential, Built, Sorted;
    var ok := Validate(src, edits);
    if !ok {
      return None;
    }
    var out := BuildOutput(src, edits);
    OnePassIsSequential(src, edits);
    var lastEnd := if edits == [] then 0 else edits[|edits| - 1].end;
    r := Some(out + src[lastEnd..]);
  }

  method Validate(src: string, edits: seq<Edit>) returns (ok: bool)
    ensures ok <==> InBounds(src, edits) && Chained(edits)
  {
    var lastEnd := 0;
    for i := 0 to |edits|
      invariant forall k :: 0 <= k < i ==> 0 <= edits[k].start <= edits[k].end <= |src|
      invariant forall k :: 1 <= k < i ==> edits[k - 1].end <= edits[k].start
      invariant lastEnd == if i == 0 then 0 else edits[i - 1].end
    {
      var edit := edits[i];
      if !(0 <= edit.start <= edit.end <= |src|) {
        return false;
      }
      if edit.start < lastEnd {
        return false;
      }
      lastEnd := edit.end;
    }
    ok := true;
  }

  lemma PrefixApplies(src: string, edits: seq<Edit>, i: nat)
    requires InBounds(src, edits) && Chained(edits) && i <= |edits|
    ensures InBounds(src, edits[..i]) && Chained(edits[..i])
  {
  }

  lemma BuiltNext(src: string, edits: seq<Edit>, i: nat)
    requires InBounds(src, edits) && Chained(edits) && i < |edits|
    ensures InBounds(src, edits[..i]) && Chained(edits[..i]) && InBounds(src, edits[..i + 1]) && Chained(edits[..i + 1])
    ensures 0 <= End(edits[..i]) <= edits[i].start <= edits[i].end <= |src| && End(edits[..i + 1]) == edits[i].end
    ensures Built(src, edits[..i + 1]) == Built(src, edits[..i]) + src[End(edits[..i])..edits[i].start] + edits[i].text
  {
    PrefixApplies(src, edits, i);
    PrefixApplies(src, edits, i + 1);
    assert edits[..i + 1][..i] == edits[..i] && edits[..i + 1][i] == edits[i];
    LeftOfLast(edits[..i + 1]);
    hide Chained;
  }

  method BuildOutput(src: string, edits: seq<Edit>) returns (out: string)
    requires InBounds(src, edits) && Chained(edits)
    ensures out == Built(src, edits)
  {
    out := [];
    var lastEnd := 0;
    assert edits[..0] == [];
    assert Built(src, []) == [] && End([]) == 0;
    hide Built, End;
    for i := 0 to |edits|
      invariant Chained(edits[..i]) && InBounds(src, edits[..i])
      invariant lastEnd == End(edits[..i]) && 0 <= lastEnd <= |src|
      invariant out == Built(src, edits[..i])
    {
      BuiltNext(src, edits, i);
      if lastEnd < edits[i].start {
        out := out + src[lastEnd..edits[i].start];
      }
      out := out + edits[i].text;
      lastEnd := edits[i].end;
    }
    assert edits[..|edits|] == edits;
  }

  /** The edits chosen for a file can be applied to it exactly when each lies
      within the file; conflicts never get in the way. */
  method FixFile(src: string, m: EditsByLinter)
      returns (r: Option<string>, edits: seq<Edit>, excluded: set<string>, ghost order: seq<string>)
    requires AllWellFormed(m)
    ensures forall e :: e in edits <==> exists l :: l in m && l !in excluded && e in m[l]
    ensures AllCompatible(edits)
    ensures r.Some? <==> forall e :: e in edits ==> 0 <= e.start && e.end <= |src|
    ensures r.Some? ==> InBounds(src, edits) && Chained(edits) && r.value == Sequential(src, edits)
    ensures excluded == SelfConflicting(m) + Names(order) && InTurn(m, SelfConflicting(m), order)
  {
    hide Sequential, Fits, InTurn;
    edits, excluded, order := SelectEdits(m);
    r := Apply(src, edits);
    BoundsOfMembers(src, edits);
  }

  lemma BoundsOfMembers(src: string, edits: seq<Edit>)
    requires WellFormed(edits)
    ensures InBounds(src, edits) <==> forall e :: e in edits ==> 0 <= e.start && e.end <= |src|
  {
    if forall e :: e in edits ==> 0 <= e.start && e.end <= |src| {
      assert forall i :: 0 <= i < |edits| ==> edits[i] in edits;
    }
  }
}
