/** The ordering Go's `sort` package uses on strings, `sort.SearchStrings`,
    and the excluded-path test both request handlers build on it. */
module Search {

  /** Go's `a < b` on strings, which is byte-wise lexicographic order, stated
      on characters. For valid UTF-8 the two coincide, since UTF-8 byte order
      is code-point order. */
  predicate Less(a: string, b: string)
    decreases |a|
  {
    if |a| == 0 then |b| > 0
    else if |b| == 0 then false
    else if a[0] != b[0] then a[0] < b[0]
    else Less(a[1..], b[1..])
  }

  lemma {:induction false} LessIrreflexive(a: string)
    ensures !Less(a, a)
    decreases |a|
  {
    if |a| > 0 {
      LessIrreflexive(a[1..]);
    }
  }

  lemma {:induction false} LessTransitive(a: string, b: string, c: string)
    requires Less(a, b) && Less(b, c)
    ensures Less(a, c)
    decreases |a|
  {
    if |a| > 0 && a[0] == b[0] && b[0] == c[0] {
      LessTransitive(a[1..], b[1..], c[1..]);
    }
  }

  lemma {:induction false} LessTrichotomous(a: string, b: string)
    ensures Less(a, b) || a == b || Less(b, a)
    decreases |a|
  {
    if |a| > 0 && |b| > 0 && a[0] == b[0] {
      LessTrichotomous(a[1..], b[1..]);
      if a[1..] == b[1..] {
        assert a == [a[0]] + a[1..] && b == [b[0]] + b[1..];
      }
    }
  }

  /** What `sort.Sort(sort.StringSlice(xs))` establishes: no element is
      smaller than one before it. */
  predicate Sorted(xs: seq<string>)
  {
    forall i, j :: 0 <= i < j < |xs| ==> !Less(xs[j], xs[i])
  }

  /** In a sorted list, an index whose predecessor is below `x` and which is
      itself not below `x` splits the list into the part below `x` and the rest. */
  lemma LowerBound(a: seq<string>, x: string, i: nat)
    requires Sorted(a) && i <= |a|
    requires i > 0 ==> Less(a[i - 1], x)
    requires i < |a| ==> !Less(a[i], x)
    ensures forall k :: 0 <= k < i ==> Less(a[k], x)
    ensures forall k :: i <= k < |a| ==> !Less(a[k], x)
  {
    forall k | 0 <= k < i
      ensures Less(a[k], x)
    {
      if k < i - 1 {
        LessTrichotomous(a[k], a[i - 1]);
        if a[k] != a[i - 1] {
          LessTransitive(a[k], a[i - 1], x);
        }
      }
    }
    forall k | i <= k < |a|
      ensures !Less(a[k], x)
    {
      if k > i && Less(a[k], x) {
        LessTrichotomous(a[i], a[k]);
        if a[i] != a[k] {
          LessTransitive(a[i], a[k], x);
        }
      }
    }
  }

  /** `sort.SearchStrings(a, x)`: the binary search of `sort.Search` for the
      first index whose element is not below `x`. Without sortedness it still
      returns a boundary between an element below `x` and one that is not. */
  method SearchStrings(a: seq<string>, x: string) returns (i: nat)
    ensures i <= |a|
    ensures i > 0 ==> Less(a[i - 1], x)
    ensures i < |a| ==> !Less(a[i], x)
    ensures Sorted(a) ==> forall k :: 0 <= k < i ==> Less(a[k], x)
    ensures Sorted(a) ==> forall k :: i <= k < |a| ==> !Less(a[k], x)
  {
    i := 0;
    var j := |a|;
    while i < j
      invariant 0 <= i <= j <= |a|
      invariant i > 0 ==> Less(a[i - 1], x)
      invariant j < |a| ==> !Less(a[j], x)
    {
      var h := (i + j) / 2;
      if Less(a[h], x) {
        i := h + 1;
      } else {
        j := h;
      }
    }
    if Sorted(a) {
      LowerBound(a, x, i);
    }
  }

  /** The excluded-path test of both request handlers:
      `i := sort.SearchStrings(paths, path); i < len(paths) && path == paths[i]`.
      It never reports a path that is not in the list, and on a sorted list it
      reports exactly the paths in it. */
  method IsExcluded(paths: seq<string>, path: string) returns (excluded: bool)
    ensures excluded ==> path in paths
    ensures Sorted(paths) ==> (excluded <==> path in paths)
  {
    var i := SearchStrings(paths, path);
    excluded := i < |paths| && path == paths[i];
    if Sorted(paths) && path in paths {
      var k :| 0 <= k < |paths| && paths[k] == path;
      if k < i {
        LessIrreflexive(path);
      } else {
        LessTrichotomous(paths[i], path);
      }
    }
  }
}
