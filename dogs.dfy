/**
 * The dog-age exercises under the dashboard: `checkDogs`, which corrects
 * Julia's list in place and reports each dog as adult or puppy, and the
 * dog-to-human age mapping with its adult filter shared by `calcAvgHumanAge`
 * and `calcAvgHumanAgeNew`.
 */
module Dogs {
  import opened Wrappers
  import opened Arrays

  /** A JavaScript array of dog ages, passed by reference and resized in place. */
  class AgeList {
    var ages: seq<int>

    constructor (ages: seq<int>)
      ensures this.ages == ages
    {
      this.ages := ages;
    }
  }

  /**
   * Julia's corrected list: `splice(0, 1)` drops the first dog, then
   * `splice(-2)` drops the last two (or whatever is left, when fewer remain).
   */
  function Corrected(ages: seq<int>): (r: seq<int>)
    ensures |ages| >= 3 ==> r == ages[1..|ages| - 2]
    ensures |ages| < 3 ==> r == []
  {
    Splice(Splice(ages, 0, Some(1)), -2, None)
  }

  /** What is logged for the dog at 0-based position `index`: adult from 3 years on, puppy below. */
  datatype Verdict = Adult(number: nat, age: int) | Puppy(number: nat)

  function VerdictFor(index: nat, age: int): (v: Verdict)
    ensures v.number == index + 1
    ensures v.Adult? <==> age >= 3
    ensures v.Adult? ==> v.age == age
  {
    if age >= 3 then Adult(index + 1, age) else Puppy(index + 1)
  }

  /**
   * `checkDogs`: Julia's own array is corrected in place (the caller sees the
   * change), then Julia's corrected dogs and Kate's dogs are reported in order.
   * Kate's ages are read after the correction, so if both arguments are the
   * same array her dogs are the corrected ones too.
   */
  method CheckDogs(julia: AgeList, kate: AgeList) returns (report: seq<Verdict>)
    modifies julia
    ensures julia.ages == Corrected(old(julia.ages))
    ensures kate != julia ==> kate.ages == old(kate.ages)
    ensures |report| == |julia.ages| + |kate.ages|
    ensures forall i :: 0 <= i < |report| ==> report[i] == VerdictFor(i, (julia.ages + kate.ages)[i])
  {
    julia.ages := Splice(julia.ages, 0, Some(1));
    julia.ages := Splice(julia.ages, -2, None);
    var dogAges := julia.ages + kate.ages;
    report := [];
    for i := 0 to |dogAges|
      invariant |report| == i
      invariant forall k :: 0 <= k < i ==> report[k] == VerdictFor(k, dogAges[k])
    {
      report := report + [VerdictFor(i, dogAges[i])];
    }
  }

  /**
   * The human age of a dog: twice its age up to 2 years, 16 plus four times it
   * after that. A dog counts as adult (human age at least 18) exactly when it is
   * older than 2, and older dogs have strictly greater human ages.
   */
  function HumanAge(dogAge: int): (h: int)
    ensures h >= 18 <==> dogAge > 2
    ensures dogAge >= 0 ==> h >= 0
  {
    if dogAge <= 2 then 2 * dogAge else 16 + dogAge * 4
  }

  lemma HumanAgeIncreasing(a: int, b: int)
    requires a < b
    ensures HumanAge(a) < HumanAge(b)
  {
  }

  predicate IsAdultAge(humanAge: int) { humanAge >= 18 }

  predicate OlderThanTwo(dogAge: int) { dogAge > 2 }

  /** `dogAges.map(HumanAge).filter(h => h >= 18)`: the averages are taken over this list. */
  function AdultHumanAges(dogAges: seq<int>): (r: seq<int>)
    ensures |r| <= |dogAges|
    ensures forall i :: 0 <= i < |r| ==> r[i] >= 18
  {
    Filter(Map(dogAges, HumanAge), IsAdultAge)
  }

  /** Filtering after the mapping keeps exactly the dogs older than 2: the same as filtering them first. */
  lemma {:induction false} AdultsAreOlderDogs(dogAges: seq<int>)
    ensures AdultHumanAges(dogAges) == Map(Filter(dogAges, OlderThanTwo), HumanAge)
  {
    if dogAges != [] {
      var d, t := dogAges[0], dogAges[1..];
      AdultsAreOlderDogs(t);
      var humans := Map(dogAges, HumanAge);
      assert humans[0] == HumanAge(d);
      assert humans[1..] == Map(t, HumanAge);
      if OlderThanTwo(d) {
        var rest := Filter(t, OlderThanTwo);
        assert Filter(dogAges, OlderThanTwo) == [d] + rest;
        assert Filter(humans, IsAdultAge) == [HumanAge(d)] + Filter(Map(t, HumanAge), IsAdultAge);
        assert Map([d] + rest, HumanAge) == [HumanAge(d)] + Map(rest, HumanAge);
      } else {
        assert Filter(dogAges, OlderThanTwo) == Filter(t, OlderThanTwo);
        assert Filter(humans, IsAdultAge) == Filter(Map(t, HumanAge), IsAdultAge);
      }
    }
  }
}
