/** A model of the file (`Model` in instructions.py:159-185): its steps, the
    step `1` lines currently append to, and the cameras stored under a name. */
module Models {
  import opened Parts
  import opened Cameras

  /** The parts of each step, read through the step objects. */
  function PartsOf(steps: seq<Step>): (r: seq<seq<Part>>)
    reads steps
    ensures |r| == |steps|
    decreases |steps|
  {
    if steps == [] then [] else PartsOf(steps[..|steps| - 1]) + [steps[|steps| - 1].parts]
  }

  /** The k-th entry of `PartsOf` is the k-th step's parts. */
  lemma {:induction false} PartsOfParts(steps: seq<Step>)
    ensures forall k | 0 <= k < |steps| :: PartsOf(steps)[k] == steps[k].parts
    decreases |steps|
  {
    if steps != [] {
      PartsOfParts(steps[..|steps| - 1]);
    }
  }

  class Model {
    const name: string
    const suffix: string
    var steps: seq<Step>
    var currentStep: Step
    var cameras: map<string, Camera>
    /** The model's position in the project's model list. */
    ghost const index: nat

    /** The current step is the last one, and the k-th step object carries
        the id `(index, k)`, so the step objects of a model are distinct from
        each other and from those of every other model. */
    ghost predicate Valid()
      reads this
    {
      && |steps| > 0
      && currentStep == steps[|steps| - 1]
      && (forall k | 0 <= k < |steps| :: steps[k].id == (index, k))
    }

    /** The parts of every step, step after step. */
    function Contents(): seq<seq<Part>>
      reads this, steps
    {
      PartsOf(steps)
    }

    /** `Model(name, suffix)`: no cameras, and the one empty step that its
        `add_step()` call creates. */
    constructor (name: string, suffix: string, ghost index: nat)
      ensures this.name == name && this.suffix == suffix && this.index == index
      ensures Valid() && steps == [currentStep] && fresh(currentStep) && currentStep.parts == []
      ensures Contents() == [[]] && cameras == map[]
    {
      this.name := name;
      this.suffix := suffix;
      this.index := index;
      var s := new Step((index, 0));
      steps := [s];
      currentStep := s;
      cameras := map[];
    }

    /** `add_step`: one more empty step, which becomes the current one. */
    method AddStep()
      requires Valid()
      modifies this
      ensures Valid() && steps == old(steps) + [currentStep] && fresh(currentStep) && currentStep.parts == []
      ensures Contents() == old(Contents()) + [[]]
      ensures cameras == old(cameras)
    {
      var s := new Step((index, |steps|));
      steps := steps + [s];
      currentStep := s;
    }

    /** `add_part`: the part goes at the end of the current step; no other
        step changes, and the model's parts gain exactly this one at the end. */
    method AddPart(p: Part)
      requires Valid()
      modifies currentStep
      ensures Valid() && currentStep.parts == old(currentStep.parts) + [p]
      ensures Contents() == old(Contents())[|steps| - 1 := old(Contents())[|steps| - 1] + [p]]
      ensures Flat(Contents()) == old(Flat(Contents())) + [p]
    {
      currentStep.AddPart(p);
      FlatExtendLast(old(Contents()), p);
    }

    /** `unique_parts`: the union over the steps of their unique-parts sets,
        which is the unique-parts set of all the model's parts. */
    function UniqueParts(ignore: seq<string>): (r: set<PartKey>)
      requires Valid()
      reads this, steps
      ensures r == UniqueOf(Flat(Contents()), ignore)
    {
      PartsOfParts(steps);
      UnionOverSteps(Contents(), ignore);
      set k, key | 0 <= k < |steps| && key in UniqueOf(steps[k].parts, ignore) :: key
    }

    /** `num_parts`: the Counters of the steps added up, which is the Counter
        of all the model's parts. */
    method NumParts(ignore: seq<string>) returns (c: multiset<PartKey>)
      requires Valid()
      ensures c == CountOf(Flat(Contents()), ignore)
    {
      var contents := Contents();
      PartsOfParts(steps);
      c := multiset{};
      for k := 0 to |steps|
        invariant c == CountOf(Flat(contents[..k]), ignore)
      {
        var counts := steps[k].NumParts(ignore);
        assert contents[..k + 1] == contents[..k] + [contents[k]];
        FlatAppend(contents[..k], contents[k]);
        CountAppend(Flat(contents[..k]), contents[k], ignore);
        c := c + counts;
      }
      assert contents[..|steps|] == contents;
    }
  }
}
