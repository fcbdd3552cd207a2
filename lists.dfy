/** Facts about integer sequences shared by the catalog and the progress model. */
module Lists {

  /** No value occurs twice in `xs`. */
  ghost predicate NoDuplicates(xs: seq<int>)
  {
    forall i, j :: 0 <= i < j < |xs| ==> xs[i] != xs[j]
  }

  /** `a` is obtained from `b` by deleting zero or more elements, keeping the order of the rest. */
  ghost predicate IsSubsequence(a: seq<int>, b: seq<int>)
    decreases |b|
  {
    if a == [] then true
    else if b == [] then false
    else (a[0] == b[0] && IsSubsequence(a[1..], b[1..])) || IsSubsequence(a, b[1..])
  }

  /** A subsequence never holds more copies of a value than the sequence it was taken from. */
  lemma {:induction false} SubsequenceMultiset(a: seq<int>, b: seq<int>)
    requires IsSubsequence(a, b)
    ensures multiset(a) <= multiset(b)
    decreases |b|
  {
    if a != [] {
      assert b == [b[0]] + b[1..];
      if a[0] == b[0] && IsSubsequence(a[1..], b[1..]) {
        SubsequenceMultiset(a[1..], b[1..]);
        assert a == [a[0]] + a[1..];
      } else {
        SubsequenceMultiset(a, b[1..]);
      }
    }
  }

  /** The position of the first occurrence of `x` in `ys`. */
  function IndexOf(ys: seq<int>, x: int): (k: nat)
    requires x in ys
    ensures k < |ys| && ys[k] == x
    ensures x !in ys[..k]
  {
    if ys[0] == x then 0 else 1 + IndexOf(ys[1..], x)
  }

  /** A duplicate-free sequence whose values all occur in `ys` is no longer than `ys`. */
  lemma {:induction false} BoundedByContainer(xs: seq<int>, ys: seq<int>)
    requires NoDuplicates(xs)
    requires forall x :: x in xs ==> x in ys
    ensures |xs| <= |ys|
    decreases |ys|
  {
    if xs != [] {
      var k := IndexOf(ys, xs[0]);
      var rest, others := xs[1..], ys[..k] + ys[k + 1..];
      assert NoDuplicates(rest) by {
        forall i, j | 0 <= i < j < |rest| ensures rest[i] != rest[j] {
          assert rest[i] == xs[i + 1] && rest[j] == xs[j + 1];
        }
      }
      forall x | x in rest ensures x in others {
        var i :| 0 <= i < |rest| && rest[i] == x;
        assert x == xs[i + 1] != xs[0];
        var j := IndexOf(ys, x);
        if j < k {
          assert others[j] == x;
        } else {
          assert others[j - 1] == x;
        }
      }
      BoundedByContainer(rest, others);
    }
  }

  /** A non-empty set has a member. */
  lemma NonEmptyHasMember(a: set<int>)
    requires a != {}
    ensures exists x :: x in a
  {
    if forall x :: x !in a {
      assert false;
    }
  }
}
