/**
 The progress store: for each phase number, the list of step numbers the user
 has marked complete. The store is replaced as a whole on every change; the
 toggle is a pure function from the old store to the new one.
 */
module Progress {
  import opened Lists

  /** Phase number to the completed step numbers of that phase, in the order they were marked. */
  type State = map<int, seq<int>>

  /** The completed steps recorded for phase `p`; a phase with no entry reads as none. */
  function Completed(s: State, p: int): (r: seq<int>)
    ensures p !in s ==> r == []
  {
    if p in s then s[p] else []
  }

  /** `xs` without any occurrence of `n`: the list filter that un-marks a step. */
  function Remove(xs: seq<int>, n: int): (r: seq<int>)
    ensures multiset(r) == multiset(xs)[n := 0]
    ensures forall x :: x in r <==> x in xs && x != n
  {
    if xs == [] then []
    else
      assert xs == [xs[0]] + xs[1..];
      (if xs[0] == n then [] else [xs[0]]) + Remove(xs[1..], n)
  }

  /** Flipping step `n` of phase `p`: un-mark it when it is recorded, otherwise append it. */
  function Toggle(s: State, p: int, n: int): (r: State)
    ensures r.Keys == s.Keys + {p}
    ensures forall q :: q in s && q != p ==> r[q] == s[q]
    ensures n in r[p] <==> n !in Completed(s, p)
  {
    var steps := Completed(s, p);
    if n in steps then s[p := Remove(steps, n)] else s[p := steps + [n]]
  }

  /** Every other phase reads as before, and every other step of phase `p` keeps its state. */
  lemma ToggleFrame(s: State, p: int, n: int)
    ensures forall q :: q != p ==> Completed(Toggle(s, p, n), q) == Completed(s, q)
    ensures forall x :: x != n ==> (x in Completed(Toggle(s, p, n), p) <==> x in Completed(s, p))
  {
  }

  /** Marking an absent step appends it, so the steps marked earlier keep their order. */
  lemma ToggleAppends(s: State, p: int, n: int)
    requires n !in Completed(s, p)
    ensures Completed(Toggle(s, p, n), p) == Completed(s, p) + [n]
  {
  }

  /** Removing `n` keeps every other element, in its original order. */
  lemma {:induction false} RemoveIsSubsequence(xs: seq<int>, n: int)
    ensures IsSubsequence(Remove(xs, n), xs)
  {
    if xs != [] {
      RemoveIsSubsequence(xs[1..], n);
      var rest := Remove(xs[1..], n);
      if xs[0] != n {
        assert Remove(xs, n) == [xs[0]] + rest;
        assert ([xs[0]] + rest)[1..] == rest;
      } else {
        assert Remove(xs, n) == rest;
        if rest != [] {
          assert IsSubsequence(rest, xs[1..]);
        }
      }
    }
  }

  /**
   A subsequence of `xs` that holds every element other than `n` as often as
   `xs` does, and no `n`, is `Remove(xs, n)`: the removal is pinned down by
   order and contents alone.
   */
  lemma {:induction false} RemoveUnique(xs: seq<int>, n: int, r: seq<int>)
    requires IsSubsequence(r, xs)
    requires multiset(r) == multiset(xs)[n := 0]
    ensures r == Remove(xs, n)
    decreases |xs|
  {
    if xs == [] {
      assert |multiset(r)| == 0;
    } else if r == [] {
      EmptyRemainder(xs, n);
      RemoveUnique(xs[1..], n, r);
    } else if xs[0] == n {
      assert r[0] in multiset(r);
      assert IsSubsequence(r, xs[1..]);
      assert multiset(xs[1..])[n := 0] == multiset(xs)[n := 0] by {
        assert xs == [xs[0]] + xs[1..];
      }
      RemoveUnique(xs[1..], n, r);
    } else if r[0] == xs[0] && IsSubsequence(r[1..], xs[1..]) {
      KeptHead(xs, n, r);
      RemoveUnique(xs[1..], n, r[1..]);
    } else {
      assert IsSubsequence(r, xs[1..]);
      assert xs == [xs[0]] + xs[1..];
      SubsequenceMultiset(r, xs[1..]);
      assert false;
    }
  }

  /** When nothing but `n` occurs in `xs`, its head is `n` and its tail holds nothing but `n`. */
  lemma EmptyRemainder(xs: seq<int>, n: int)
    requires xs != [] && multiset(xs)[n := 0] == multiset{}
    ensures xs[0] == n
    ensures multiset(xs[1..])[n := 0] == multiset{}
  {
    assert xs == [xs[0]] + xs[1..];
    forall y | y != n ensures multiset(xs[1..])[y] == 0 {
      assert multiset(xs[1..])[y] <= multiset(xs)[y];
      assert multiset(xs)[n := 0][y] == 0;
    }
  }

  /** A kept head other than `n` accounts for the heads of both sequences. */
  lemma KeptHead(xs: seq<int>, n: int, r: seq<int>)
    requires xs != [] && r != [] && r[0] == xs[0] != n
    requires multiset(r) == multiset(xs)[n := 0]
    ensures multiset(r[1..]) == multiset(xs[1..])[n := 0]
  {
    var x := xs[0];
    assert r == [x] + r[1..];
    assert xs == [x] + xs[1..];
    forall y ensures multiset(r[1..])[y] == multiset(xs[1..])[n := 0][y] {
      assert multiset(r)[y] == multiset(r[1..])[y] + (if y == x then 1 else 0);
      assert multiset(xs)[y] == multiset(xs[1..])[y] + (if y == x then 1 else 0);
    }
  }

  /**
   Un-marking a recorded step removes every occurrence of `n` and keeps the
   other elements, in their order and with their multiplicities.
   */
  lemma ToggleRemovesAll(s: State, p: int, n: int)
    requires n in Completed(s, p)
    ensures n !in Completed(Toggle(s, p, n), p)
    ensures IsSubsequence(Completed(Toggle(s, p, n), p), Completed(s, p))
    ensures multiset(Completed(Toggle(s, p, n), p)) == multiset(Completed(s, p))[n := 0]
  {
    RemoveIsSubsequence(Completed(s, p), n);
  }

  /** Removing an element cannot create a duplicate. */
  lemma {:induction false} RemoveNoDuplicates(xs: seq<int>, n: int)
    requires NoDuplicates(xs)
    ensures NoDuplicates(Remove(xs, n))
  {
    var r := Remove(xs, n);
    forall i, j | 0 <= i < j < |r| ensures r[i] != r[j] {
      if r[i] == r[j] {
        var y := r[i];
        DuplicateCount(r, i, j);
        NoDuplicatesCount(xs, y);
        assert false;
      }
    }
  }

  /** A value at two positions occurs at least twice. */
  lemma DuplicateCount(xs: seq<int>, i: int, j: int)
    requires 0 <= i < j < |xs| && xs[i] == xs[j]
    ensures multiset(xs)[xs[i]] >= 2
  {
    assert xs == xs[..i] + [xs[i]] + xs[i + 1..j] + [xs[j]] + xs[j + 1..];
  }

  /** In a duplicate-free sequence every value occurs at most once. */
  lemma {:induction false} NoDuplicatesCount(xs: seq<int>, y: int)
    requires NoDuplicates(xs)
    ensures multiset(xs)[y] <= 1
  {
    if xs != [] {
      var rest := xs[1..];
      assert xs == [xs[0]] + rest;
      assert NoDuplicates(rest) by {
        forall i, j | 0 <= i < j < |rest| ensures rest[i] != rest[j] {
          assert rest[i] == xs[i + 1] && rest[j] == xs[j + 1];
        }
      }
      NoDuplicatesCount(rest, y);
      if xs[0] == y {
        assert y !in rest by {
          forall k | 0 <= k < |rest| ensures rest[k] != y {
            assert rest[k] == xs[k + 1];
          }
        }
      }
    }
  }

  /** A phase whose list has no duplicates still has none after a toggle. */
  lemma ToggleKeepsNoDuplicates(s: State, p: int, n: int)
    requires NoDuplicates(Completed(s, p))
    ensures NoDuplicates(Completed(Toggle(s, p, n), p))
  {
    if n in Completed(s, p) {
      RemoveNoDuplicates(Completed(s, p), n);
    }
  }

  /** Removing a value that does not occur changes nothing. */
  lemma {:induction false} RemoveAbsent(xs: seq<int>, n: int)
    requires n !in xs
    ensures Remove(xs, n) == xs
  {
    if xs != [] {
      RemoveAbsent(xs[1..], n);
      assert xs == [xs[0]] + xs[1..];
    }
  }

  /** Toggling twice marks the same steps of phase `p` as before, and leaves every other phase alone. */
  lemma ToggleTwiceSameSteps(s: State, p: int, n: int)
    ensures forall x :: x in Completed(Toggle(Toggle(s, p, n), p, n), p) <==> x in Completed(s, p)
    ensures forall q :: q != p ==> Completed(Toggle(Toggle(s, p, n), p, n), q) == Completed(s, q)
  {
  }

  /** Toggling an absent step twice gives back the phase's list exactly. */
  lemma ToggleTwiceAbsent(s: State, p: int, n: int)
    requires n !in Completed(s, p)
    ensures Completed(Toggle(Toggle(s, p, n), p, n), p) == Completed(s, p)
    ensures p in s ==> Toggle(Toggle(s, p, n), p, n) == s
    ensures p !in s ==> Toggle(Toggle(s, p, n), p, n) == s[p := []]
  {
    var xs := Completed(s, p);
    RemoveAbsent(xs, n);
    RemoveAppend(xs, n);
  }

  /** Removing `n` from a list ending in `n` is removing it from the rest. */
  lemma {:induction false} RemoveAppend(xs: seq<int>, n: int)
    ensures Remove(xs + [n], n) == Remove(xs, n)
  {
    if xs == [] {
      assert [n][1..] == [];
    } else {
      assert (xs + [n])[1..] == xs[1..] + [n];
      RemoveAppend(xs[1..], n);
    }
  }

  /** Toggling a recorded step twice moves it to the end of the phase's list. */
  lemma ToggleTwicePresent(s: State, p: int, n: int)
    requires n in Completed(s, p)
    ensures Completed(Toggle(Toggle(s, p, n), p, n), p) == Remove(Completed(s, p), n) + [n]
  {
  }

  /**
   Toggling twice need not give back the same store: a phase with no entry
   comes back as an entry with no steps, and a recorded step moves to the end.
   */
  lemma ToggleTwiceNotIdentity()
    ensures Toggle(Toggle(map[], 1, 1), 1, 1) == map[1 := []] != map[]
    ensures Toggle(Toggle(map[1 := [1, 2]], 1, 1), 1, 1) == map[1 := [2, 1]]
  {
    var empty: State := map[];
    var first := Toggle(empty, 1, 1);
    assert first[1] == [1] && first.Keys == {1};
    assert Remove([1], 1) == [] by {
      assert [1][1..] == [];
    }
    var second := Toggle(first, 1, 1);
    assert second[1] == [] && second.Keys == {1};
    assert second == map[1 := []];
    assert 1 in second;

    var start: State := map[1 := [1, 2]];
    assert Remove([1, 2], 1) == [2] by {
      assert [1, 2][1..] == [2];
      assert Remove([2], 1) == [2];
    }
    var once := Toggle(start, 1, 1);
    assert once[1] == [2] && once.Keys == {1};
    var twice := Toggle(once, 1, 1);
    assert twice[1] == [2, 1] && twice.Keys == {1};
    assert twice == map[1 := [2, 1]];
  }
}
