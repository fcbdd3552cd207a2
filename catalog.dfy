/**
 The static curriculum: five phases of three steps each. Only the phase and
 step numbers take part in the logic. The colour tag is kept for the catalog's
 shape but only selects display classes. Titles, subtitles and step
 descriptions are display text and are not modelled.
 */
module Catalog {
  import opened Lists

  /** The closed set of colour tags a phase may carry. */
  datatype Color = Blue | Green | Purple | Orange | Red

  datatype Step = Step(number: int)

  datatype Phase = Phase(number: int, color: Color, steps: seq<Step>)

  /** The roadmap as the application defines it; it is never changed at run time. */
  const Roadmap: seq<Phase> := [
    Phase(1, Blue, [Step(1), Step(2), Step(3)]),
    Phase(2, Green, [Step(4), Step(5), Step(6)]),
    Phase(3, Purple, [Step(7), Step(8), Step(9)]),
    Phase(4, Orange, [Step(10), Step(11), Step(12)]),
    Phase(5, Red, [Step(13), Step(14), Step(15)])
  ]

  /** The step numbers of one phase, in display order. */
  function StepNumbers(ph: Phase): (r: seq<int>)
    ensures |r| == |ph.steps|
    ensures forall i :: 0 <= i < |r| ==> r[i] == ph.steps[i].number
  {
    seq(|ph.steps|, i requires 0 <= i < |ph.steps| => ph.steps[i].number)
  }

  /** The phase numbers of a catalog, in display order. */
  function PhaseNumbers(c: seq<Phase>): (r: seq<int>)
    ensures |r| == |c|
    ensures forall i :: 0 <= i < |r| ==> r[i] == c[i].number
  {
    if c == [] then [] else [c[0].number] + PhaseNumbers(c[1..])
  }

  /** Every step number of the catalog, phase after phase. */
  function AllStepNumbers(c: seq<Phase>): (r: seq<int>)
  {
    if c == [] then [] else StepNumbers(c[0]) + AllStepNumbers(c[1..])
  }

  /**
   The total step count: the sum of the step counts of all phases, as the
   application's reduction over the catalog computes it.
   */
  function TotalSteps(c: seq<Phase>): (r: nat)
    ensures r == |AllStepNumbers(c)|
  {
    if c == [] then 0 else |c[0].steps| + TotalSteps(c[1..])
  }

  /** The step numbers declared for phase `p`: those of the first phase numbered `p`, or none. */
  function StepsOf(c: seq<Phase>, p: int): (r: seq<int>)
    ensures p !in PhaseNumbers(c) ==> r == []
  {
    if c == [] then []
    else if c[0].number == p then StepNumbers(c[0])
    else StepsOf(c[1..], p)
  }

  /** Phase numbers are unique in the catalog, and step numbers are unique within each phase. */
  ghost predicate WellFormed(c: seq<Phase>)
  {
    && NoDuplicates(PhaseNumbers(c))
    && forall i :: 0 <= i < |c| ==> NoDuplicates(StepNumbers(c[i]))
  }

  /** The roadmap has phases 1 to 5, in that order, with three steps each. */
  lemma RoadmapPhases()
    ensures |Roadmap| == 5
    ensures forall i :: 0 <= i < |Roadmap| ==> |Roadmap[i].steps| == 3
    ensures PhaseNumbers(Roadmap) == [1, 2, 3, 4, 5]
  {
  }

  /** Phase `i` of the roadmap (counting from 0) holds steps 3i+1, 3i+2 and 3i+3. */
  lemma RoadmapPhaseSteps(i: int)
    requires 0 <= i < |Roadmap|
    ensures StepNumbers(Roadmap[i]) == [3 * i + 1, 3 * i + 2, 3 * i + 3]
  {
  }

  /**
   When phase `i` of `c` holds steps 3(b+i)+1 to 3(b+i)+3, the catalog's steps
   read phase after phase are 3b+1, 3b+2, ... up to 3(b+|c|).
   */
  lemma {:induction false} ConsecutiveSteps(c: seq<Phase>, b: int)
    requires forall i :: 0 <= i < |c| ==> StepNumbers(c[i]) == [3 * (b + i) + 1, 3 * (b + i) + 2, 3 * (b + i) + 3]
    ensures |AllStepNumbers(c)| == 3 * |c|
    ensures forall k :: 0 <= k < 3 * |c| ==> AllStepNumbers(c)[k] == 3 * b + k + 1
  {
    if c != [] {
      var rest := c[1..];
      forall i | 0 <= i < |rest|
        ensures StepNumbers(rest[i]) == [3 * (b + 1 + i) + 1, 3 * (b + 1 + i) + 2, 3 * (b + 1 + i) + 3]
      {
        assert rest[i] == c[i + 1];
      }
      ConsecutiveSteps(rest, b + 1);
      assert StepNumbers(c[0]) == [3 * b + 1, 3 * b + 2, 3 * b + 3];
      forall k | 3 <= k < 3 * |c| ensures AllStepNumbers(c)[k] == 3 * b + k + 1 {
        assert AllStepNumbers(c)[k] == AllStepNumbers(rest)[k - 3];
      }
    }
  }

  /** Read phase after phase, the roadmap's step numbers run from 1 to 15. */
  lemma RoadmapStepNumbers()
    ensures |AllStepNumbers(Roadmap)| == 15
    ensures forall k :: 0 <= k < 15 ==> AllStepNumbers(Roadmap)[k] == k + 1
  {
    forall i | 0 <= i < |Roadmap|
      ensures StepNumbers(Roadmap[i]) == [3 * (0 + i) + 1, 3 * (0 + i) + 2, 3 * (0 + i) + 3]
    {
      RoadmapPhaseSteps(i);
    }
    ConsecutiveSteps(Roadmap, 0);
  }

  /** The roadmap's phase numbers are unique, and so are the step numbers of each phase. */
  lemma RoadmapWellFormed()
    ensures WellFormed(Roadmap)
  {
    RoadmapPhases();
    forall i | 0 <= i < |Roadmap| ensures NoDuplicates(StepNumbers(Roadmap[i])) {
      RoadmapPhaseSteps(i);
    }
  }

  /** The roadmap has fifteen steps in all. */
  lemma RoadmapTotalSteps()
    ensures TotalSteps(Roadmap) == 15
  {
  }
}
