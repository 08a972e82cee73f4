/**
 * The matrix-free "Levenshtein distance at most one" test shared by both guardrail
 * implementations, against the textbook recursive distance.
 */
module EditDistance {
  import opened Common

  /** The textbook distance: delete, insert or substitute, each at cost one. */
  function Levenshtein(a: string, b: string): nat
    decreases |a| + |b|
  {
    if a == [] then |b|
    else if b == [] then |a|
    else
      Min(Levenshtein(a[1..], b[1..]) + (if a[0] == b[0] then 0 else 1),
          Min(Levenshtein(a[1..], b), Levenshtein(a, b[1..])) + 1)
  }

  /** The number of positions at which two strings of one length differ. */
  function Mismatches(a: string, b: string): nat
    requires |a| == |b|
  {
    if a == [] then 0 else (if a[0] == b[0] then 0 else 1) + Mismatches(a[1..], b[1..])
  }

  /** The length of the longest common prefix. */
  function CommonPrefix(a: string, b: string): (n: nat)
    ensures n <= |a| && n <= |b|
  {
    if a == [] || b == [] || a[0] != b[0] then 0 else 1 + CommonPrefix(a[1..], b[1..])
  }

  /** The longer string is the shorter one with one character dropped after the common prefix. */
  predicate OneInsertion(short: string, long: string)
    requires |long| == |short| + 1
  {
    var prefix := CommonPrefix(short, long);
    short[prefix..] == long[prefix + 1..]
  }

  /** The branches of the source's test, as one expression. */
  predicate WithinEditDistance1(a: string, b: string) {
    if a == b then true
    else if |a| == |b| then Mismatches(a, b) == 1
    else if |b| == |a| + 1 then OneInsertion(a, b)
    else if |a| == |b| + 1 then OneInsertion(b, a)
    else false
  }

  lemma {:induction false} DistanceZeroIsEquality(a: string, b: string)
    ensures Levenshtein(a, b) == 0 <==> a == b
    decreases |a| + |b|
  {
    if a == [] || b == [] {
    } else {
      DistanceZeroIsEquality(a[1..], b[1..]);
      assert a == b <==> a[0] == b[0] && a[1..] == b[1..];
    }
  }

  lemma {:induction false} DistanceIsSymmetric(a: string, b: string)
    ensures Levenshtein(a, b) == Levenshtein(b, a)
    decreases |a| + |b|
  {
    if a == [] || b == [] {
    } else {
      DistanceIsSymmetric(a[1..], b[1..]);
      DistanceIsSymmetric(a[1..], b);
      DistanceIsSymmetric(a, b[1..]);
    }
  }

  lemma {:induction false} DistanceBoundsLengths(a: string, b: string)
    ensures |a| - |b| <= Levenshtein(a, b)
    ensures |b| - |a| <= Levenshtein(a, b)
    decreases |a| + |b|
  {
    if a == [] || b == [] {
    } else {
      DistanceBoundsLengths(a[1..], b[1..]);
      DistanceBoundsLengths(a[1..], b);
      DistanceBoundsLengths(a, b[1..]);
    }
  }

  /** Distance at most one, peeled one character at a time. */
  lemma {:induction false} DistanceOneStep(a: string, b: string)
    requires a != [] && b != []
    ensures a[0] == b[0] ==> (Levenshtein(a, b) <= 1 <==> Levenshtein(a[1..], b[1..]) <= 1)
    ensures a[0] != b[0] ==>
              (Levenshtein(a, b) <= 1 <==> a[1..] == b[1..] || a[1..] == b || a == b[1..])
  {
    DistanceZeroIsEquality(a[1..], b[1..]);
    DistanceZeroIsEquality(a[1..], b);
    DistanceZeroIsEquality(a, b[1..]);
    if a[1..] == b {
      DroppingTheHead(b);
      DistanceIsSymmetric(b, b[1..]);
    }
    if a == b[1..] {
      DroppingTheHead(a);
      DistanceIsSymmetric(a, a[1..]);
    }
  }

  lemma {:induction false} DroppingTheHead(s: string)
    requires s != []
    ensures Levenshtein(s, s[1..]) <= 1
  {
    DistanceZeroIsEquality(s[1..], s[1..]);
  }

  lemma {:induction false} MismatchesZeroIsEquality(a: string, b: string)
    requires |a| == |b|
    ensures Mismatches(a, b) == 0 <==> a == b
  {
    if a == [] {
    } else {
      MismatchesZeroIsEquality(a[1..], b[1..]);
      assert a == b <==> a[0] == b[0] && a[1..] == b[1..];
    }
  }

  lemma {:induction false} EqualLengthCase(a: string, b: string)
    requires |a| == |b|
    ensures Levenshtein(a, b) <= 1 <==> Mismatches(a, b) <= 1
  {
    if a == [] {
    } else {
      DistanceOneStep(a, b);
      EqualLengthCase(a[1..], b[1..]);
      MismatchesZeroIsEquality(a[1..], b[1..]);
    }
  }

  lemma {:induction false} InsertionCase(short: string, long: string)
    requires |long| == |short| + 1
    ensures Levenshtein(short, long) <= 1 <==> OneInsertion(short, long)
  {
    if short == [] {
      assert long[1..] == [];
    } else {
      DistanceOneStep(short, long);
      if short[0] == long[0] {
        InsertionCase(short[1..], long[1..]);
        var prefix := CommonPrefix(short[1..], long[1..]);
        assert short[1..][prefix..] == short[prefix + 1..];
        assert long[1..][prefix + 1..] == long[prefix + 2..];
      } else {
        assert short[0..] == short;
      }
    }
  }

  /** The branchy test decides exactly "Levenshtein distance at most one", for all strings. */
  lemma WithinIsLevenshtein(a: string, b: string)
    ensures WithinEditDistance1(a, b) <==> Levenshtein(a, b) <= 1
  {
    DistanceZeroIsEquality(a, b);
    DistanceBoundsLengths(a, b);
    if |a| == |b| {
      EqualLengthCase(a, b);
      MismatchesZeroIsEquality(a, b);
    } else if |b| == |a| + 1 {
      InsertionCase(a, b);
    } else if |a| == |b| + 1 {
      InsertionCase(b, a);
      DistanceIsSymmetric(a, b);
    }
  }

  lemma {:induction false} MismatchesSplit(a: string, b: string, i: nat)
    requires i < |a| == |b|
    ensures Mismatches(a[..i + 1], b[..i + 1])
         == Mismatches(a[..i], b[..i]) + (if a[i] == b[i] then 0 else 1)
  {
    if i == 0 {
    } else {
      MismatchesSplit(a[1..], b[1..], i - 1);
      assert a[..i + 1][1..] == a[1..][..i] && b[..i + 1][1..] == b[1..][..i];
      assert a[..i][1..] == a[1..][..i - 1] && b[..i][1..] == b[1..][..i - 1];
    }
  }

  lemma {:induction false} CommonPrefixFound(a: string, b: string, n: nat)
    requires n <= |a| && n <= |b| && a[..n] == b[..n]
    requires n == |a| || n == |b| || a[n] != b[n]
    ensures CommonPrefix(a, b) == n
  {
    if n == 0 {
    } else {
      assert a[0] == a[..n][0] == b[..n][0] == b[0];
      assert a[1..][..n - 1] == a[..n][1..] == b[..n][1..] == b[1..][..n - 1];
      CommonPrefixFound(a[1..], b[1..], n - 1);
    }
  }

  /** The loop itself: early exits, the argument swap, and the greedy prefix scan. */
  method ComputeWithinEditDistance1(first: string, second: string) returns (within: bool)
    ensures within <==> Levenshtein(first, second) <= 1
  {
    WithinIsLevenshtein(first, second);
    var a, b := first, second;
    if a == b {
      return true;
    }
    if |a| - |b| > 1 || |b| - |a| > 1 {
      return false;
    }
    if |a| == |b| {
      var diffs := 0;
      for i := 0 to |a|
        invariant diffs == Mismatches(a[..i], b[..i])
      {
        MismatchesSplit(a, b, i);
        diffs := diffs + if a[i] != b[i] then 1 else 0;
      }
      assert a[..|a|] == a && b[..|b|] == b;
      return diffs == 1;
    }
    if |a| > |b| {
      a, b := b, a;
    }
    var prefix := 0;
    while prefix < |a| && a[prefix] == b[prefix]
      invariant prefix <= |a|
      invariant a[..prefix] == b[..prefix]
    {
      prefix := prefix + 1;
    }
    CommonPrefixFound(a, b, prefix);
    within := a[prefix..] == b[prefix + 1..];
  }
}
