/** The Ruby `String` and `Array` operations event resolution relies on. */
module RubyOps {
  import opened Wrappers

  /** `s.split("/", 2)` when `s` contains a slash: the text before the first `/`
      and the whole remainder after it; None when `s` has no slash. */
  function SplitAtFirstSlash(s: string): (r: Option<(string, string)>)
    ensures r.None? <==> '/' !in s
    ensures r.Some? ==> s == r.value.0 + "/" + r.value.1 && '/' !in r.value.0
  {
    if s == [] then None
    else if s[0] == '/' then Some(([], s[1..]))
    else match SplitAtFirstSlash(s[1..])
      case None => None
      case Some((prefix, rest)) => Some(([s[0]] + prefix, rest))
  }

  /** The split is the only way to write `s` as a slash-free prefix, a `/`, and a remainder. */
  lemma {:induction false} SplitAtFirstSlashUnique(s: string, prefix: string, rest: string)
    requires s == prefix + "/" + rest && '/' !in prefix
    ensures SplitAtFirstSlash(s) == Some((prefix, rest))
  {
    if prefix == [] {
      assert s[0] == '/' && s[1..] == rest;
    } else {
      assert s[0] == prefix[0] && s[0] != '/';
      assert s[1..] == prefix[1..] + "/" + rest;
      SplitAtFirstSlashUnique(s[1..], prefix[1..], rest);
      assert [s[0]] + prefix[1..] == prefix;
    }
  }

  /** `a.first`: the first element, or None (`nil`) for an empty array. */
  function First<T>(a: seq<T>): (r: Option<T>)
    ensures r.None? <==> a == []
    ensures r.Some? ==> r.value == a[0]
  {
    if a == [] then None else Some(a[0])
  }

  /** `a - b`: the elements of `a` that do not occur in `b`. The order of its
      head, which is all `first` reads, is stated by `DifferenceHead`. */
  function Difference<T(==,!new)>(a: seq<T>, b: seq<T>): (r: seq<T>)
    ensures forall x :: x in r <==> x in a && x !in b
    ensures |r| <= |a|
  {
    if a == [] then []
    else (if a[0] in b then [] else [a[0]]) + Difference(a[1..], b)
  }

  /** `i` is the position of the first element of `a` that is not in `b`. */
  ghost predicate FirstMissingAt<T>(a: seq<T>, b: seq<T>, i: int)
  {
    && 0 <= i < |a|
    && a[i] !in b
    && forall j :: 0 <= j < i ==> a[j] in b
  }

  /** `a - b` is empty exactly when every element of `a` occurs in `b`. */
  lemma DifferenceEmpty<T(!new)>(a: seq<T>, b: seq<T>)
    ensures Difference(a, b) == [] <==> forall j :: 0 <= j < |a| ==> a[j] in b
  {
    if Difference(a, b) != [] {
      assert Difference(a, b)[0] in Difference(a, b);
    }
  }

  /** The head of `a - b` is the first element of `a`, in `a`'s order, missing from `b`. */
  lemma {:induction false} DifferenceHead<T(!new)>(a: seq<T>, b: seq<T>)
    requires Difference(a, b) != []
    ensures exists i :: FirstMissingAt(a, b, i) && Difference(a, b)[0] == a[i]
  {
    if a[0] in b {
      assert Difference(a, b) == Difference(a[1..], b);
      DifferenceHead(a[1..], b);
      var i :| FirstMissingAt(a[1..], b, i) && Difference(a[1..], b)[0] == a[1..][i];
      forall j | 0 <= j < i + 1 ensures a[j] in b {
        if j > 0 { assert a[j] == a[1..][j - 1]; }
      }
      assert FirstMissingAt(a, b, i + 1);
    } else {
      assert Difference(a, b)[0] == a[0];
      assert FirstMissingAt(a, b, 0);
    }
  }

  /** Removing nothing leaves the array as it was. */
  lemma {:induction false} DifferenceNothing<T(!new)>(a: seq<T>)
    ensures Difference(a, []) == a
  {
    if a != [] {
      DifferenceNothing(a[1..]);
      assert a == [a[0]] + a[1..];
    }
  }
}
