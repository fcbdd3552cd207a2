/**
 The progress numbers the application derives from the catalog and the store:
 the total step count, the number of completed entries, and the overall
 percentage rounded to a whole number.
 */
module Totals {
  import opened Lists
  import opened Catalog
  import opened Progress

  /** Some phase number with an entry in a non-empty store. */
  ghost function SomeKey(s: State): (k: int)
    requires s != map[]
    ensures k in s
  {
    NonEmptyHasMember(s.Keys);
    var k :| k in s.Keys; k
  }

  /**
   The number of completed entries: the lengths of all lists in the store
   added up, whatever phase they belong to, so entries of phases outside the
   catalog and repeated entries count as well.
   */
  ghost function TotalCompleted(s: State): (r: nat)
    ensures forall p :: p in s ==> |s[p]| <= r
    decreases |s|
  {
    if s == map[] then 0
    else
      var k := SomeKey(s);
      assert (s - {k}).Keys == s.Keys - {k};
      assert forall p :: p in s && p != k ==> p in (s - {k}) && (s - {k})[p] == s[p];
      |s[k]| + TotalCompleted(s - {k})
  }

  /** The total does not depend on which entry is counted first. */
  lemma {:induction false} TotalCompletedSplit(s: State, k: int)
    requires k in s
    ensures TotalCompleted(s) == |s[k]| + TotalCompleted(s - {k})
    decreases |s|
  {
    var j := SomeKey(s);
    if j != k {
      assert (s - {j}).Keys == s.Keys - {j};
      assert (s - {k}).Keys == s.Keys - {k};
      TotalCompletedSplit(s - {j}, k);
      TotalCompletedSplit(s - {k}, j);
      assert s - {j} - {k} == s - {k} - {j};
    }
  }

  /**
   Marking a step adds one entry to the total; un-marking it takes away every
   entry of that step in the phase.
   */
  lemma TotalCompletedToggle(s: State, p: int, n: int)
    ensures n !in Completed(s, p) ==> TotalCompleted(Toggle(s, p, n)) == TotalCompleted(s) + 1
    ensures n in Completed(s, p) ==>
      TotalCompleted(Toggle(s, p, n)) == TotalCompleted(s) - multiset(Completed(s, p))[n]
  {
    var r := Toggle(s, p, n);
    TotalCompletedSplit(r, p);
    assert r - {p} == s - {p};
    if p in s {
      TotalCompletedSplit(s, p);
    } else {
      assert s - {p} == s;
    }
    if n in Completed(s, p) {
      var xs := Completed(s, p);
      assert |Remove(xs, n)| == |multiset(Remove(xs, n))| == |multiset(xs)| - multiset(xs)[n];
    }
  }

  /**
   A store is consistent with catalog `c` when each of its phases is a phase of
   `c`, and each list holds steps declared for that phase, none twice.
   */
  ghost predicate Consistent(c: seq<Phase>, s: State)
  {
    forall p :: p in s ==>
      && p in PhaseNumbers(c)
      && NoDuplicates(s[p])
      && forall x :: x in s[p] ==> x in StepsOf(c, p)
  }

  /** Toggling a declared step of a catalog phase keeps the store consistent. */
  lemma ToggleKeepsConsistent(c: seq<Phase>, s: State, p: int, n: int)
    requires Consistent(c, s)
    requires n in StepsOf(c, p)
    ensures Consistent(c, Toggle(s, p, n))
  {
    ToggleKeepsNoDuplicates(s, p, n);
  }

  /** The store after a run of toggles, applied first to last. */
  ghost function ApplyToggles(s: State, toggles: seq<(int, int)>): (r: State)
    decreases toggles
  {
    if toggles == [] then s else ApplyToggles(Toggle(s, toggles[0].0, toggles[0].1), toggles[1..])
  }

  /**
   Any run of toggles of declared steps (the only toggles the phase cards
   issue) keeps a consistent store consistent; the empty store is one.
   */
  lemma {:induction false} ToggleRunKeepsConsistent(c: seq<Phase>, s: State, toggles: seq<(int, int)>)
    requires Consistent(c, s)
    requires forall i :: 0 <= i < |toggles| ==> toggles[i].1 in StepsOf(c, toggles[i].0)
    ensures Consistent(c, ApplyToggles(s, toggles))
    decreases toggles
  {
    if toggles != [] {
      ToggleKeepsConsistent(c, s, toggles[0].0, toggles[0].1);
      ToggleRunKeepsConsistent(c, Toggle(s, toggles[0].0, toggles[0].1), toggles[1..]);
    }
  }

  /**
   The toggle a roadmap card issues for its own phase and one of its steps
   targets a step the catalog declares for that phase.
   */
  lemma CardTogglesDeclared(j: int, k: int)
    requires 0 <= j < |Roadmap| && 0 <= k < |Roadmap[j].steps|
    ensures Roadmap[j].steps[k].number in StepsOf(Roadmap, Roadmap[j].number)
  {
    RoadmapPhaseSteps(j);
  }

  /** A consistent store never counts more completed entries than the catalog has steps. */
  lemma {:induction false} ConsistentBound(c: seq<Phase>, s: State)
    requires Consistent(c, s)
    ensures TotalCompleted(s) <= TotalSteps(c)
  {
    if c == [] {
      assert s == map[] by {
        if s != map[] {
          var k := SomeKey(s);
          assert false;
        }
      }
    } else {
      var p := c[0].number;
      var rest := s - {p};
      assert PhaseNumbers(c) == [p] + PhaseNumbers(c[1..]);
      assert Consistent(c[1..], rest) by {
        forall q | q in rest
          ensures q in PhaseNumbers(c[1..]) && StepsOf(c[1..], q) == StepsOf(c, q)
        {
        }
      }
      ConsistentBound(c[1..], rest);
      if p in s {
        BoundedByContainer(s[p], StepNumbers(c[0]));
        TotalCompletedSplit(s, p);
      } else {
        assert rest == s;
      }
    }
  }

  /**
   The overall percentage: 100 * completed / total rounded to the nearest
   whole number, halves rounding up.
   */
  function OverallProgress(completed: nat, total: int): (r: int)
    requires total > 0
    ensures 2 * total * r - total <= 200 * completed < 2 * total * r + total
    ensures 0 <= r
    ensures completed <= total ==> r <= 100
  {
    RoundingBracket(completed, total);
    (200 * completed + total) / (2 * total)
  }

  /** The arithmetic behind the rounding: the quotient brackets 100 * completed / total. */
  lemma RoundingBracket(completed: nat, total: int)
    requires total > 0
    ensures var q := (200 * completed + total) / (2 * total);
      && 2 * total * q - total <= 200 * completed < 2 * total * q + total
      && 0 <= q
      && (completed <= total ==> q <= 100)
  {
    var a, b := 200 * completed + total, 2 * total;
    QuotientBracket(a, b);
    var q := a / b;
    if completed <= total {
      assert a < b * 101;
      QuotientBelow(a, b, q, 101);
    }
  }

  /** Euclidean division: b * (a / b) <= a < b * (a / b) + b, and a / b is not negative when a is not. */
  lemma QuotientBracket(a: int, b: int)
    requires a >= 0 && b > 0
    ensures b * (a / b) <= a < b * (a / b) + b
    ensures a / b >= 0
  {
  }

  /** A multiple of b that stays below b * m has a factor below m. */
  lemma QuotientBelow(a: int, b: int, q: int, m: int)
    requires b > 0 && b * q <= a < b * m
    ensures q < m
  {
  }

  /**
   Fifteen steps never give an exact half of a percent, so rounding halves up
   or down makes no difference: the result is strictly the nearest integer.
   */
  lemma FifteenStepsHaveNoTies(completed: nat)
    ensures 30 * OverallProgress(completed, 15) - 15 < 200 * completed
  {
  }

  /** The percentages the application shows for the roadmap: none done, two done, all done. */
  lemma ProgressExamples()
    ensures OverallProgress(0, 15) == 0
    ensures OverallProgress(2, 15) == 13
    ensures OverallProgress(15, 15) == 100
  {
  }

  /** For a consistent store the overall percentage lies between 0 and 100. */
  lemma ConsistentProgressInRange(s: State)
    requires Consistent(Roadmap, s)
    ensures 0 <= OverallProgress(TotalCompleted(s), TotalSteps(Roadmap)) <= 100
  {
    RoadmapTotalSteps();
    ConsistentBound(Roadmap, s);
  }

  /**
   Stored entries are counted as they are: repeated entries and phases the
   catalog does not have add to the total, which can then pass 100 percent.
   */
  lemma StaleEntriesCount()
    ensures TotalCompleted(map[1 := [1, 1], 9 := [7]]) == 3
    ensures var stale: State := map[9 := [1, 2, 3, 4, 5, 6, 7, 8, 9, 10, 11, 12, 13, 14, 15, 16]];
      OverallProgress(TotalCompleted(stale), TotalSteps(Roadmap)) > 100
  {
    var s: State := map[1 := [1, 1], 9 := [7]];
    TotalCompletedSplit(s, 1);
    var rest := s - {1};
    assert rest == map[9 := [7]];
    TotalCompletedSplit(rest, 9);
    assert rest - {9} == map[];

    var stale: State := map[9 := [1, 2, 3, 4, 5, 6, 7, 8, 9, 10, 11, 12, 13, 14, 15, 16]];
    TotalCompletedSplit(stale, 9);
    assert stale - {9} == map[];
    RoadmapTotalSteps();
  }

  /** Marking steps 1 and 2 of phase 1 from scratch: phase 1 lists [1, 2] and the roadmap reads 13 percent. */
  lemma TwoStepsScenario()
    ensures Completed(Toggle(Toggle(map[], 1, 1), 1, 2), 1) == [1, 2]
    ensures OverallProgress(TotalCompleted(Toggle(Toggle(map[], 1, 1), 1, 2)), TotalSteps(Roadmap)) == 13
  {
  }

  /** Toggling step 1 of phase 1 twice from scratch leaves phase 1 empty and the roadmap at 0 percent. */
  lemma ToggleBackScenario()
    ensures Completed(Toggle(Toggle(map[], 1, 1), 1, 1), 1) == []
    ensures OverallProgress(TotalCompleted(Toggle(Toggle(map[], 1, 1), 1, 1)), TotalSteps(Roadmap)) == 0
  {
    var empty: State := map[];
    TotalCompletedToggle(empty, 1, 1);
    var first := Toggle(empty, 1, 1);
    assert first[1] == [1];
    TotalCompletedToggle(first, 1, 1);
    assert multiset(Completed(first, 1))[1] == 1;
    ToggleTwiceNotIdentity();
    RoadmapTotalSteps();
  }
}
