/** Option and the LINQ operators the generators use on sequences: `Where`,
    `Select`, `FirstOrDefault`/`Any` and `Distinct`. */
module Collections {

  datatype Option<+T> = None | Some(value: T)

  /** `s.Where(p)`: the elements satisfying `p`, in their order. */
  function Filter<T>(s: seq<T>, p: T -> bool): (r: seq<T>)
    ensures |r| <= |s|
    ensures forall i :: 0 <= i < |r| ==> r[i] in s && p(r[i])
    ensures forall i :: 0 <= i < |s| && p(s[i]) ==> s[i] in r
  {
    if s == [] then [] else (if p(s[0]) then [s[0]] else []) + Filter(s[1..], p)
  }

  /** `s.Select(f)`. */
  function MapSeq<T, U>(s: seq<T>, f: T -> U): (r: seq<U>)
    ensures |r| == |s|
    ensures forall i :: 0 <= i < |s| ==> r[i] == f(s[i])
  {
    if s == [] then [] else [f(s[0])] + MapSeq(s[1..], f)
  }

  /** Filtering a concatenation filters each part: the order of what is
      kept is the order of the input. */
  lemma {:induction false} FilterAppend<T>(a: seq<T>, b: seq<T>, p: T -> bool)
    ensures Filter(a + b, p) == Filter(a, p) + Filter(b, p)
    decreases |a|
  {
    if a == [] {
      assert a + b == b;
    } else {
      assert (a + b)[1..] == a[1..] + b;
      FilterAppend(a[1..], b, p);
    }
  }

  /** What a filter keeps and what its complement keeps together make up the input. */
  lemma {:induction false} FilterPartition<T>(s: seq<T>, p: T -> bool)
    ensures |Filter(s, p)| + |Filter(s, x => !p(x))| == |s|
    ensures multiset(Filter(s, p)) + multiset(Filter(s, x => !p(x))) == multiset(s)
    decreases |s|
  {
    if s != [] {
      FilterPartition(s[1..], p);
      assert s == [s[0]] + s[1..];
    }
  }

  /** `s.Select(f).Where(x => x is not null)`: the present results, in order. */
  function SelectPresent<T, U>(s: seq<T>, f: T -> Option<U>): (r: seq<U>)
    ensures |r| <= |s|
    ensures forall i :: 0 <= i < |r| ==> exists k :: 0 <= k < |s| && f(s[k]) == Some(r[i])
    ensures forall k :: 0 <= k < |s| && f(s[k]).Some? ==> f(s[k]).value in r
  {
    if s == [] then []
    else
      var rest := SelectPresent(s[1..], f);
      assert forall k :: 0 <= k < |s[1..]| ==> s[1..][k] == s[k + 1];
      var r := (if f(s[0]).Some? then [f(s[0]).value] else []) + rest;
      assert forall i :: 0 <= i < |r| && (f(s[0]).None? || i > 0) ==> r[i] == rest[if f(s[0]).Some? then i - 1 else i];
      r
  }

  /** `SelectPresent` keeps the order of its input: on a concatenation it
      is the results of the first part followed by those of the second. */
  lemma {:induction false} SelectPresentAppend<T, U>(a: seq<T>, b: seq<T>, f: T -> Option<U>)
    ensures SelectPresent(a + b, f) == SelectPresent(a, f) + SelectPresent(b, f)
    decreases |a|
  {
    if a == [] {
      assert a + b == b;
    } else {
      assert (a + b)[0] == a[0] && (a + b)[1..] == a[1..] + b;
      SelectPresentAppend(a[1..], b, f);
    }
  }

  /** `FirstOrDefault(p)` as an index: the first position whose element satisfies `p`. */
  function FirstIndex<T>(s: seq<T>, p: T -> bool): (r: Option<nat>)
    ensures r.Some? ==> r.value < |s| && p(s[r.value]) && forall j :: 0 <= j < r.value ==> !p(s[j])
    ensures r.None? ==> forall j :: 0 <= j < |s| ==> !p(s[j])
  {
    if s == [] then None
    else if p(s[0]) then Some(0)
    else match FirstIndex(s[1..], p)
      case None => None
      case Some(k) => Some(k + 1)
  }

  predicate NoDuplicates<T(==)>(s: seq<T>) {
    forall i, j :: 0 <= i < j < |s| ==> s[i] != s[j]
  }

  /** `s.Distinct()`: each element at its first occurrence, the later
      occurrences dropped. */
  function Distinct<T(==)>(s: seq<T>): (r: seq<T>)
    ensures forall i :: 0 <= i < |r| ==> r[i] in s
    ensures forall i :: 0 <= i < |s| ==> s[i] in r
    ensures NoDuplicates(r)
    decreases |s|
  {
    if s == [] then []
    else
      var init, last := s[..|s| - 1], s[|s| - 1];
      assert s == init + [last];
      var rest := Distinct(init);
      if last in init then rest else rest + [last]
  }

  /** The position of the first occurrence of `x` in `s`. */
  function FirstOccurrence<T(==)>(s: seq<T>, x: T): (k: nat)
    requires x in s
    ensures k < |s| && s[k] == x && x !in s[..k]
  {
    if s[0] == x then 0
    else
      var k := FirstOccurrence(s[1..], x);
      assert s[..k + 1] == [s[0]] + s[1..][..k];
      k + 1
  }

  /** Distinct keeps the input's order: of two elements of the result, the
      one that comes first is the one whose first occurrence comes first. */
  lemma {:induction false} DistinctKeepsFirstOccurrenceOrder<T>(s: seq<T>, i: nat, j: nat)
    requires i < j < |Distinct(s)|
    ensures FirstOccurrence(s, Distinct(s)[i]) < FirstOccurrence(s, Distinct(s)[j])
    decreases |s|
  {
    var init, last := s[..|s| - 1], s[|s| - 1];
    assert s == init + [last];
    var r := Distinct(s);
    var a, b := r[i], r[j];
    if last in init || j < |Distinct(init)| {
      DistinctKeepsFirstOccurrenceOrder(init, i, j);
      FirstOccurrenceInPrefix(init, last, a);
      FirstOccurrenceInPrefix(init, last, b);
    } else {
      assert b == last && b !in init;
      assert a in init;
      FirstOccurrenceInPrefix(init, last, a);
      assert last !in s[..|init|];
    }
  }

  /** Extending a sequence at the end does not move a first occurrence. */
  lemma FirstOccurrenceInPrefix<T>(init: seq<T>, last: T, x: T)
    requires x in init
    ensures FirstOccurrence(init + [last], x) == FirstOccurrence(init, x)
  {
    var s := init + [last];
    var k, k' := FirstOccurrence(init, x), FirstOccurrence(s, x);
    assert s[k] == x;
  }

  /** Distinct changes nothing on a sequence that has no duplicates, so
      applying it twice is applying it once. */
  lemma {:induction false} DistinctOfDistinct<T>(s: seq<T>)
    requires NoDuplicates(s)
    ensures Distinct(s) == s
    decreases |s|
  {
    if s != [] {
      var init := s[..|s| - 1];
      assert s == init + [s[|s| - 1]];
      assert NoDuplicates(init);
      DistinctOfDistinct(init);
    }
  }
}
