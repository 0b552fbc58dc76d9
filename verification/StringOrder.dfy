/** The order of strings that `strings.Compare` and `<` use. */
module StringOrder {

  predicate Less(a: string, b: string) {
    if b == [] then false
    else if a == [] then true
    else a[0] < b[0] || (a[0] == b[0] && Less(a[1..], b[1..]))
  }

  /** `a` and `b` agree up to `i`, where `a` ends or has the smaller character. */
  ghost predicate SmallerAt(a: string, b: string, i: nat) {
    && i <= |a| && i < |b| && a[..i] == b[..i]
    && (i == |a| || a[i] < b[i])
  }

  lemma {:induction false} LessMeans(a: string, b: string)
    ensures Less(a, b) <==> exists i: nat :: SmallerAt(a, b, i)
  {
    if Less(a, b) {
      if a == [] || a[0] < b[0] {
        assert SmallerAt(a, b, 0);
      } else {
        LessMeans(a[1..], b[1..]);
        var i: nat :| SmallerAt(a[1..], b[1..], i);
        assert a[..i + 1] == [a[0]] + a[1..][..i] && b[..i + 1] == [b[0]] + b[1..][..i];
        assert SmallerAt(a, b, i + 1);
      }
    }
    if i: nat :| SmallerAt(a, b, i) {
      if i > 0 {
        assert a[0] == a[..i][0] == b[..i][0] == b[0];
        assert a[1..][..i - 1] == a[..i][1..] && b[1..][..i - 1] == b[..i][1..];
        assert SmallerAt(a[1..], b[1..], i - 1);
        LessMeans(a[1..], b[1..]);
      }
    }
  }

  lemma {:induction false} LessTransitive(a: string, b: string, c: string)
    requires Less(a, b) && Less(b, c)
    ensures Less(a, c)
  {
    if a != [] && a[0] == b[0] == c[0] {
      LessTransitive(a[1..], b[1..], c[1..]);
    }
  }

  lemma {:induction false} LessTotal(a: string, b: string)
    ensures Less(a, b) || a == b || Less(b, a)
    ensures !(Less(a, b) && Less(b, a))
  {
    if a != [] && b != [] && a[0] == b[0] {
      LessTotal(a[1..], b[1..]);
      assert a == [a[0]] + a[1..] && b == [b[0]] + b[1..];
    }
  }
}

/** Sorted lists of the elements of a set, as `slices.Sorted(maps.Keys(m))`
    yields them. */
module SortedStrings {
  import opened StringOrder

  ghost predicate Sorted(l: seq<string>) {
    forall i, j :: 0 <= i < j < |l| ==> Less(l[i], l[j])
  }

  ghost function Elements(l: seq<string>): set<string> { set x | x in l }

  /** A strictly sorted list is determined by its elements. */
  lemma {:induction false} SortedUnique(a: seq<string>, b: seq<string>)
    requires Sorted(a) && Sorted(b) && Elements(a) == Elements(b)
    ensures a == b
  {
    assert b != [] ==> b[0] in Elements(a);
    if a != [] {
      assert a[0] in Elements(a) && a[0] in b;
      assert b != [] && b[0] in Elements(b) && b[0] in a;
      LessTotal(a[0], b[0]);
      LessTotal(a[0], a[0]);
      assert a[0] == b[0];
      SortedTail(a);
      SortedTail(b);
      SortedUnique(a[1..], b[1..]);
    }
  }

  lemma SortedTail(a: seq<string>)
    requires Sorted(a) && a != []
    ensures Sorted(a[1..]) && Elements(a[1..]) == Elements(a) - {a[0]}
  {
    assert a == [a[0]] + a[1..];
    forall x | x in a[1..]
      ensures x != a[0]
    {
      LessTotal(a[0], a[0]);
    }
  }

  lemma Prepended(x: string, l: seq<string>)
    requires Sorted(l) && forall y :: y in Elements(l) ==> Less(x, y)
    ensures Sorted([x] + l) && Elements([x] + l) == Elements(l) + {x}
  {
    assert forall i :: 0 <= i < |l| ==> l[i] in Elements(l);
  }

  lemma AllAbove(x: string, l: seq<string>)
    requires Sorted(l) && l != [] && (x == l[0] || Less(x, l[0]))
    ensures forall y :: y in Elements(l[1..]) ==> Less(x, y)
  {
    forall i | 1 <= i < |l|
      ensures Less(x, l[i])
    {
      if x != l[0] {
        LessTransitive(x, l[0], l[i]);
      }
    }
  }

  function Insert(l: seq<string>, x: string): (r: seq<string>)
    requires Sorted(l) && x !in Elements(l)
    ensures Sorted(r) && Elements(r) == Elements(l) + {x}
  {
    if l == [] then [x]
    else
      LessTotal(x, l[0]);
      SortedTail(l);
      assert l[0] in Elements(l);
      if Less(x, l[0]) then
        AllAbove(x, l);
        Prepended(x, l);
        [x] + l
      else
        AllAbove(l[0], l);
        Prepended(l[0], Insert(l[1..], x));
        [l[0]] + Insert(l[1..], x)
  }

  /** The strictly sorted list of the elements of `s`. */
  ghost function SortedSeq(s: set<string>): (r: seq<string>)
    ensures Sorted(r) && Elements(r) == s
  {
    if s == {} then []
    else
      var x :| x in s;
      Insert(SortedSeq(s - {x}), x)
  }

  method SortedKeys(s: set<string>) returns (l: seq<string>)
    ensures l == SortedSeq(s)
  {
    l := [];
    var left := s;
    while left != {}
      invariant left <= s && Sorted(l) && Elements(l) == s - left
      decreases left
    {
      var x :| x in left;
      assert x !in Elements(l);
      l := Insert(l, x);
      left := left - {x};
    }
    SortedUnique(l, SortedSeq(s));
  }
}
