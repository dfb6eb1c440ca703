/** Literal replace-all on strings: every occurrence of a non-empty target,
    found left to right without overlap, is replaced in a single pass. */
module Strings {

  /** `t` occurs in `s` at position `i`. */
  predicate OccursAt(s: string, t: string, i: int)
  {
    0 <= i && i + |t| <= |s| && s[i..i + |t|] == t
  }

  predicate Occurs(s: string, t: string)
  {
    exists i | 0 <= i <= |s| :: OccursAt(s, t, i)
  }

  function ReplaceAll(s: string, target: string, replacement: string): (r: string)
    requires |target| > 0
    decreases |s|
    ensures |replacement| <= |target| ==> |r| <= |s|
    ensures |replacement| == |target| ==> |r| == |s|
  {
    if |s| < |target| then s
    else if s[..|target|] == target then replacement + ReplaceAll(s[|target|..], target, replacement)
    else [s[0]] + ReplaceAll(s[1..], target, replacement)
  }

  /** A string without the target comes back unchanged. */
  lemma {:induction false} ReplaceAllWithoutOccurrence(s: string, target: string, replacement: string)
    requires |target| > 0
    requires !Occurs(s, target)
    ensures ReplaceAll(s, target, replacement) == s
    decreases |s|
  {
    if |s| >= |target| {
      assert !OccursAt(s, target, 0);
      assert s[..|target|] != target;
      if Occurs(s[1..], target) {
        var j :| 0 <= j <= |s[1..]| && OccursAt(s[1..], target, j);
        assert s[1..][j..j + |target|] == s[j + 1..j + 1 + |target|];
        assert OccursAt(s, target, j + 1);
      }
      ReplaceAllWithoutOccurrence(s[1..], target, replacement);
    }
  }

  /** Where the target occurs and the replacement is shorter, the result is
      strictly shorter: an occurrence is always replaced. */
  lemma {:induction false} ReplaceAllShortensWhenOccurs(s: string, target: string, replacement: string)
    requires |target| > 0 && |replacement| < |target|
    requires Occurs(s, target)
    ensures |ReplaceAll(s, target, replacement)| < |s|
    decreases |s|
  {
    var i :| 0 <= i <= |s| && OccursAt(s, target, i);
    assert |s| >= |target|;
    if s[..|target|] != target {
      assert i != 0;
      assert s[1..][i - 1..i - 1 + |target|] == s[i..i + |target|];
      assert OccursAt(s[1..], target, i - 1);
      ReplaceAllShortensWhenOccurs(s[1..], target, replacement);
    }
  }

  /** Text in which no occurrence of the target starts is copied unchanged in
      front of the replaced rest. */
  lemma {:induction false} ReplaceAllCopiesPrefix(a: string, b: string, target: string, replacement: string)
    requires |target| > 0
    requires forall j | 0 <= j < |a| :: !OccursAt(a + b, target, j)
    ensures ReplaceAll(a + b, target, replacement) == a + ReplaceAll(b, target, replacement)
    decreases |a|
  {
    var s := a + b;
    if |a| == 0 {
      assert s == b;
    } else if |s| < |target| {
      assert ReplaceAll(b, target, replacement) == b;
    } else {
      assert !OccursAt(s, target, 0);
      assert s[1..] == a[1..] + b;
      forall j | 0 <= j < |a[1..]|
        ensures !OccursAt(a[1..] + b, target, j)
      {
        assert !OccursAt(s, target, j + 1);
        if j + |target| <= |s[1..]| {
          assert s[1..][j..j + |target|] == s[j + 1..j + 1 + |target|];
        }
      }
      ReplaceAllCopiesPrefix(a[1..], b, target, replacement);
      assert a == [a[0]] + a[1..];
    }
  }

  /** The leftmost occurrence is the first one replaced: everything in front
      of it is kept, the occurrence becomes the replacement, and the scan
      resumes right after it. */
  lemma ReplaceAllFirstOccurrence(a: string, b: string, target: string, replacement: string)
    requires |target| > 0
    requires forall j | 0 <= j < |a| :: !OccursAt(a + target + b, target, j)
    ensures ReplaceAll(a + target + b, target, replacement) == a + replacement + ReplaceAll(b, target, replacement)
  {
    assert a + target + b == a + (target + b);
    ReplaceAllCopiesPrefix(a, target + b, target, replacement);
    ReplaceAllLeading(b, target, replacement);
  }

  /** No occurrence can start at a character that differs from the target's
      first character. */
  lemma NoOccurrenceWithoutFirstCharacter(a: string, b: string, target: string)
    requires |target| > 0
    requires forall i | 0 <= i < |a| :: a[i] != target[0]
    ensures forall j | 0 <= j < |a| :: !OccursAt(a + b, target, j)
  {
    forall j | 0 <= j < |a|
      ensures !OccursAt(a + b, target, j)
    {
      assert (a + b)[j] == a[j];
    }
  }

  /** Replacing the target by itself is the identity. */
  lemma {:induction false} ReplaceAllBySelf(s: string, target: string)
    requires |target| > 0
    ensures ReplaceAll(s, target, target) == s
    decreases |s|
  {
    if |s| >= |target| {
      if s[..|target|] == target {
        ReplaceAllBySelf(s[|target|..], target);
        assert s == s[..|target|] + s[|target|..];
      } else {
        ReplaceAllBySelf(s[1..], target);
        assert s == [s[0]] + s[1..];
      }
    }
  }

  /** A leading occurrence is replaced, and the scan goes on after it. */
  lemma ReplaceAllLeading(s: string, target: string, replacement: string)
    requires |target| > 0
    ensures ReplaceAll(target + s, target, replacement) == replacement + ReplaceAll(s, target, replacement)
  {
    assert (target + s)[..|target|] == target;
    assert (target + s)[|target|..] == s;
  }

  /** One pass only: removing the occurrences can splice a new one together,
      and that one stays. */
  lemma ReplaceAllIsSinglePass()
    ensures ReplaceAll("aa\\\\", "a\\", "") == "a\\"
    ensures Occurs("a\\", "a\\")
  {
    assert OccursAt("a\\", "a\\", 0);
  }
}
