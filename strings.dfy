/** The few operations on .NET strings that the generators use, with ordinal
    (character-by-character) comparison. */
module Strings {

  predicate StartsWith(s: string, prefix: string) {
    |prefix| <= |s| && s[..|prefix|] == prefix
  }

  predicate EndsWith(s: string, suffix: string) {
    |suffix| <= |s| && s[|s| - |suffix|..] == suffix
  }

  /** `s` with one trailing `suffix` removed when it has one, as
      `s.EndsWith(x) ? s.Substring(0, s.Length - x.Length) : s`. */
  function TrimSuffix(s: string, suffix: string): (r: string)
    ensures EndsWith(s, suffix) ==> r + suffix == s
    ensures !EndsWith(s, suffix) ==> r == s
  {
    if EndsWith(s, suffix) then s[..|s| - |suffix|] else s
  }

  /** `string.Join(sep, parts)`. */
  function Join(sep: string, parts: seq<string>): (r: string)
    ensures |parts| == 0 ==> r == ""
    ensures |parts| == 1 ==> r == parts[0]
  {
    if |parts| == 0 then ""
    else if |parts| == 1 then parts[0]
    else parts[0] + sep + Join(sep, parts[1..])
  }

  /** `s.IndexOf(c)`: the index of the first `c`, or -1. */
  function IndexOf(s: string, c: char): (i: int)
    ensures -1 <= i < |s|
    ensures i == -1 <==> c !in s
    ensures i >= 0 ==> s[i] == c && c !in s[..i]
  {
    if s == [] then -1
    else if s[0] == c then 0
    else
      var k := IndexOf(s[1..], c);
      assert s[1..][..k + 1] == s[1..k + 2] && s[..k + 2] == [s[0]] + s[1..k + 2] by {
        if k >= 0 { assert s[..k + 2] == [s[0]] + s[1..][..k + 1]; }
      }
      if k < 0 then -1 else k + 1
  }

  /** `s.Split(c)[0]`: the text in front of the first `c`, or all of `s`. */
  function TextBefore(s: string, c: char): (r: string)
    ensures StartsWith(s, r)
    ensures c !in r
    ensures |r| < |s| ==> s[|r|] == c
  {
    var k := IndexOf(s, c);
    if k < 0 then s else s[..k]
  }

  /** `s.Split(new[] { sep }, StringSplitOptions.RemoveEmptyEntries)`: the
      maximal runs of characters other than `sep`, in order. */
  function Split(s: string, sep: char): (parts: seq<string>)
    ensures forall i :: 0 <= i < |parts| ==> parts[i] != "" && sep !in parts[i]
    decreases |s|
  {
    if s == [] then []
    else if s[0] == sep then Split(s[1..], sep)
    else
      var k := IndexOf(s, sep);
      var end := if k < 0 then |s| else k;
      [s[..end]] + Split(s[end..], sep)
  }

  /** Splitting undoes joining: pieces that are non-empty and free of the
      separator come back unchanged from `Split(Join(sep, pieces))`. */
  lemma {:induction false} SplitJoin(parts: seq<string>, sep: char)
    requires forall i :: 0 <= i < |parts| ==> parts[i] != "" && sep !in parts[i]
    ensures Split(Join([sep], parts), sep) == parts
    decreases |parts|
  {
    if |parts| == 1 {
      SplitWord(parts[0], sep);
    } else if |parts| > 1 {
      var rest := Join([sep], parts[1..]);
      assert Join([sep], parts) == parts[0] + [sep] + rest;
      SplitAtSeparator(parts[0], rest, sep);
      SplitWord(parts[0], sep);
      SplitJoin(parts[1..], sep);
      assert parts == [parts[0]] + parts[1..];
    }
  }

  /** A separator run splits the text in two: the parts of `a + [sep] + b`
      are the parts of `a` followed by the parts of `b`. With `SplitWord`
      this fixes `Split` on every input, so leading, trailing and repeated
      separators yield no empty part. */
  lemma {:induction false} SplitAtSeparator(a: string, b: string, sep: char)
    ensures Split(a + [sep] + b, sep) == Split(a, sep) + Split(b, sep)
    decreases |a|, 1
  {
    var s := a + [sep] + b;
    if a == [] {
      assert s == [sep] + b && s[1..] == b;
    } else if a[0] == sep {
      assert s[0] == sep && s[1..] == a[1..] + [sep] + b;
      SplitAtSeparator(a[1..], b, sep);
    } else if sep in a {
      SplitWordThenSeparator(a, b, sep);
    } else {
      SplitWordAtSeparator(a, b, sep);
    }
  }

  /** The case of `SplitAtSeparator` where `a` starts with a word followed by a separator. */
  lemma {:induction false} SplitWordThenSeparator(a: string, b: string, sep: char)
    requires a != [] && a[0] != sep && sep in a
    ensures Split(a + [sep] + b, sep) == Split(a, sep) + Split(b, sep)
    decreases |a|, 0
  {
    var s := a + [sep] + b;
    var ka := IndexOf(a, sep);
    assert s[..ka] == a[..ka];
    IndexOfFirst(s, sep, ka);
    assert Split(s, sep) == [a[..ka]] + Split(s[ka..], sep);
    assert s[ka..] == a[ka..] + [sep] + b;
    SplitAtSeparator(a[ka..], b, sep);
  }

  /** The case of `SplitAtSeparator` where `a` is a single word. */
  lemma SplitWordAtSeparator(a: string, b: string, sep: char)
    requires a != [] && sep !in a
    ensures Split(a + [sep] + b, sep) == Split(a, sep) + Split(b, sep)
  {
    var s := a + [sep] + b;
    assert s[..|a|] == a;
    IndexOfFirst(s, sep, |a|);
    assert s[|a|..] == [sep] + b;
    assert ([sep] + b)[1..] == b;
    SplitWord(a, sep);
  }

  /** Text without a separator splits into itself alone. */
  lemma SplitWord(s: string, sep: char)
    requires s != [] && sep !in s
    ensures Split(s, sep) == [s]
  {
    assert IndexOf(s, sep) == -1;
    assert s[..|s|] == s && s[|s|..] == [];
  }

  /** The first occurrence found by `IndexOf` is the one at `k` when `s[k]` is
      the separator and none comes before it. */
  lemma IndexOfFirst(s: string, c: char, k: nat)
    requires k < |s| && s[k] == c && c !in s[..k]
    ensures IndexOf(s, c) == k
  {
  }

  /** `s.Replace(pattern, replacement)`: every non-overlapping occurrence of
      `pattern`, from left to right, replaced. */
  function ReplaceAll(s: string, pattern: string, replacement: string): (r: string)
    requires pattern != ""
    decreases |s|
  {
    if |s| < |pattern| then s
    else if s[..|pattern|] == pattern then replacement + ReplaceAll(s[|pattern|..], pattern, replacement)
    else [s[0]] + ReplaceAll(s[1..], pattern, replacement)
  }

  /** Replacing a single character works one character at a time. */
  lemma ReplaceCharStep(s: string, c: char, replacement: string)
    requires s != []
    ensures ReplaceAll(s, [c], replacement)
         == (if s[0] == c then replacement else [s[0]]) + ReplaceAll(s[1..], [c], replacement)
  {
    assert s[..1] == [s[0]];
  }

  /** A replacement of one character, where that character is missing, changes nothing. */
  lemma {:induction false} ReplaceCharAbsent(s: string, c: char, replacement: string)
    requires c !in s
    ensures ReplaceAll(s, [c], replacement) == s
    decreases |s|
  {
    if s != [] {
      ReplaceCharStep(s, c, replacement);
      ReplaceCharAbsent(s[1..], c, replacement);
    }
  }
}
