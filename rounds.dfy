/** The round limit and the area-selection rule of the quiz flow: each new
    question draws one region that has not been asked yet, until the round
    limit is reached or the region pool is exhausted. */
module Rounds {

  /** The number of questions in one game. */
  const MaxQuestions: nat := 25

  /** Region identifiers (the keys of the loaded geo-feature list). */
  type AreaId = string

  datatype Option<T> = None | Some(value: T)

  /** The regions of `regions` not yet in `used`, in list order
      (the `filter` over the region list). */
  function AvailableAreas(regions: seq<AreaId>, used: set<AreaId>): (r: seq<AreaId>)
    ensures |r| <= |regions|
    ensures forall id :: id in r <==> id in regions && id !in used
  {
    if regions == [] then []
    else
      var rest := AvailableAreas(regions[1..], used);
      if regions[0] in used then rest else [regions[0]] + rest
  }

  /** `Math.floor(Math.random() * n)` for a draw `random` in [0, 1):
      always a valid index into a list of `n` elements. */
  function RandomIndex(random: real, n: nat): (i: nat)
    requires 0.0 <= random < 1.0 && n > 0
    ensures i < n
    ensures i as real <= random * n as real < i as real + 1.0
  {
    assert random * n as real < n as real;
    (random * n as real).Floor
  }

  /** The game is over when no region list is loaded, when the round limit
      is reached, or when every region has been asked. */
  predicate GameIsOver(regionList: Option<seq<AreaId>>, used: set<AreaId>)
  {
    || regionList.None?
    || |used| >= MaxQuestions
    || AvailableAreas(regionList.value, used) == []
  }

  /** The pool is exhausted exactly when every listed region has been used. */
  lemma PoolExhaustedIffAllUsed(regions: seq<AreaId>, used: set<AreaId>)
    ensures AvailableAreas(regions, used) == [] <==> (forall id :: id in regions ==> id in used)
  {
  }

  /** The round controller's selection state. */
  class QuizFlow {
    /** The loaded region ids, `None` before the geo data is loaded. */
    const regionList: Option<seq<AreaId>>
    var usedAreas: set<AreaId>
    var currentArea: Option<AreaId>

    ghost predicate Valid()
      reads this
    {
      && |usedAreas| <= MaxQuestions
      && (regionList.None? ==> usedAreas == {})
      && (regionList.Some? ==> forall id :: id in usedAreas ==> id in regionList.value)
    }

    constructor (regionList: Option<seq<AreaId>>)
      ensures Valid()
      ensures this.regionList == regionList
      ensures usedAreas == {} && currentArea == None
    {
      this.regionList := regionList;
      usedAreas := {};
      currentArea := None;
    }

    /** Start the next question, or report game over with `None`. The random
        draw is the parameter `random`, a value in [0, 1). */
    method StartNewQuestion(random: real) returns (next: Option<AreaId>)
      requires Valid()
      requires 0.0 <= random < 1.0
      modifies this
      ensures Valid()
      ensures next.None? <==> GameIsOver(regionList, old(usedAreas))
      ensures next.None? ==> usedAreas == old(usedAreas) && currentArea == old(currentArea)
      ensures next.Some? ==>
                var available := AvailableAreas(regionList.value, old(usedAreas));
                && next.value == available[RandomIndex(random, |available|)]
                && next.value in regionList.value
                && next.value !in old(usedAreas)
                && usedAreas == old(usedAreas) + {next.value}
                && |usedAreas| == |old(usedAreas)| + 1
                && currentArea == next
    {
      if regionList.None? || |usedAreas| >= MaxQuestions {
        next := None;
        return;
      }
      var availableAreas := AvailableAreas(regionList.value, usedAreas);
      if |availableAreas| == 0 {
        next := None;
        return;
      }
      var randomIndex := RandomIndex(random, |availableAreas|);
      var area := availableAreas[randomIndex];
      assert area in availableAreas;
      currentArea := Some(area);
      usedAreas := usedAreas + {area};
      next := currentArea;
    }

    /** `restartGame`'s part of the selection state: forget every used
        region (the current area is left as it was). */
    method Restart()
      requires Valid()
      modifies this`usedAreas
      ensures Valid()
      ensures usedAreas == {}
    {
      usedAreas := {};
    }
  }
}
