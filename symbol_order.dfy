/**
 * Python's `sorted(set(xs))` on strings: the strictly increasing list, in
 * code-point lexicographic order, of the distinct elements of `xs`.
 */
module SymbolOrder {

  /** Python's `a < b` on `str`: lexicographic by code point, a proper prefix is smaller. */
  predicate Less(a: string, b: string)
  {
    |b| > 0 && (|a| == 0 || a[0] < b[0] || (a[0] == b[0] && Less(a[1..], b[1..])))
  }

  lemma {:induction false} LessIrreflexive(a: string)
    ensures !Less(a, a)
  {
    if |a| > 0 {
      LessIrreflexive(a[1..]);
    }
  }

  lemma {:induction false} LessTransitive(a: string, b: string, c: string)
    requires Less(a, b) && Less(b, c)
    ensures Less(a, c)
  {
    if |a| > 0 && a[0] == b[0] && b[0] == c[0] {
      LessTransitive(a[1..], b[1..], c[1..]);
    }
  }

  lemma {:induction false} LessTotal(a: string, b: string)
    requires a != b
    ensures Less(a, b) || Less(b, a)
  {
    if |a| > 0 && |b| > 0 && a[0] == b[0] {
      assert a == [a[0]] + a[1..] && b == [b[0]] + b[1..];
      LessTotal(a[1..], b[1..]);
    }
  }

  predicate StrictlySorted(s: seq<string>)
  {
    forall i, j :: 0 <= i < j < |s| ==> Less(s[i], s[j])
  }

  function Elements(s: seq<string>): set<string>
  {
    set x | x in s
  }

  /** Inserts `x` into a strictly sorted list, keeping it strictly sorted and dropping a duplicate. */
  function Insert(x: string, s: seq<string>): (r: seq<string>)
    requires StrictlySorted(s)
    ensures StrictlySorted(r)
    ensures Elements(r) == Elements(s) + {x}
    ensures r != []
    ensures r[0] == x || (s != [] && r[0] == s[0])
  {
    if s == [] then [x]
    else if x == s[0] then s
    else if Less(x, s[0]) then
      assert forall j :: 0 < j < |s| ==> Less(x, s[j]) by {
        forall j | 0 < j < |s| ensures Less(x, s[j]) { LessTransitive(x, s[0], s[j]); }
      }
      [x] + s
    else
      LessTotal(x, s[0]);
      var rest := Insert(x, s[1..]);
      assert Elements(s) == {s[0]} + Elements(s[1..]) by { assert s == [s[0]] + s[1..]; }
      assert forall j :: 0 <= j < |rest| ==> Less(s[0], rest[j]) by {
        assert Less(s[0], rest[0]);
        forall j | 0 < j < |rest| ensures Less(s[0], rest[j]) { LessTransitive(s[0], rest[0], rest[j]); }
      }
      assert Elements([s[0]] + rest) == {s[0]} + Elements(rest);
      [s[0]] + rest
  }

  /** `sorted(set(xs))`. */
  function SortedSet(xs: seq<string>): (r: seq<string>)
    ensures StrictlySorted(r)
    ensures Elements(r) == Elements(xs)
  {
    if xs == [] then []
    else
      var r := Insert(xs[0], SortedSet(xs[1..]));
      assert Elements(xs) == {xs[0]} + Elements(xs[1..]) by { assert xs == [xs[0]] + xs[1..]; }
      r
  }

  lemma LessAsymmetric(a: string, b: string)
    ensures !(Less(a, b) && Less(b, a))
  {
    if Less(a, b) && Less(b, a) {
      LessTransitive(a, b, a);
      LessIrreflexive(a);
    }
  }

  /** The head of a strictly sorted list lies below every other element. */
  lemma HeadIsLeast(a: seq<string>, x: string)
    requires StrictlySorted(a) && x in Elements(a)
    ensures x == a[0] || Less(a[0], x)
  {
  }

  lemma ElementsEmpty(a: seq<string>)
    ensures Elements(a) == {} <==> a == []
  {
    if a != [] {
      assert a[0] in Elements(a);
    }
  }

  /** A strictly sorted list is determined by its set of elements. */
  lemma {:induction false} StrictlySortedUnique(a: seq<string>, b: seq<string>)
    requires StrictlySorted(a) && StrictlySorted(b)
    requires Elements(a) == Elements(b)
    ensures a == b
  {
    if a == [] || b == [] {
      ElementsEmpty(a);
      ElementsEmpty(b);
    } else {
      HeadIsLeast(a, b[0]);
      HeadIsLeast(b, a[0]);
      LessAsymmetric(a[0], b[0]);
      assert a[0] == b[0];
      assert Elements(a[1..]) == Elements(a) - {a[0]} by {
        assert a == [a[0]] + a[1..];
        LessIrreflexive(a[0]);
      }
      assert Elements(b[1..]) == Elements(b) - {b[0]} by {
        assert b == [b[0]] + b[1..];
        LessIrreflexive(b[0]);
      }
      StrictlySortedUnique(a[1..], b[1..]);
      assert a == [a[0]] + a[1..] && b == [b[0]] + b[1..];
    }
  }

  /** Duplicating or reordering elements does not change `sorted(set(xs))`. */
  lemma SortedSetDependsOnlyOnElements(xs: seq<string>, ys: seq<string>)
    requires Elements(xs) == Elements(ys)
    ensures SortedSet(xs) == SortedSet(ys)
  {
    StrictlySortedUnique(SortedSet(xs), SortedSet(ys));
  }

  /** A list that is already strictly sorted is its own `sorted(set(...))`. */
  lemma SortedSetOfSorted(xs: seq<string>)
    requires StrictlySorted(xs)
    ensures SortedSet(xs) == xs
  {
    StrictlySortedUnique(SortedSet(xs), xs);
  }
}
