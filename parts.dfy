/** Parts, steps and the part inventories of a step or of a sequence of steps
    (`Part`, `Step`, `Step.unique_parts`, `Step.num_parts` in instructions.py). */
module Parts {
  import opened Text

  /** One placed piece, as built from a `1` line: the identifier, the colour
      token, the transformation (the line's middle tokens joined by spaces)
      and the four-character file suffix. */
  datatype Part = Part(part: string, colour: string, transformation: string, suffix: string) {

    /** `Part.tostring`: the `1` line that places this part. */
    function ToString(): string {
      Join(["1", colour, transformation, part + suffix])
    }

    /** `Part.filename` */
    function Filename(): string {
      part + suffix
    }
  }

  /** Defaults of `Part.__init__`: the identity transformation and `.DAT`. */
  const DefaultTransformation: string := "0 0 0 1 0 0 0 1 0 0 0 1"
  const DefaultSuffix: string := ".DAT"

  /** `Part(part, colour)` with the constructor's default arguments. */
  function NewPart(part: string, colour: string): Part {
    Part(part, colour, DefaultTransformation, DefaultSuffix)
  }

  /** Splitting a part's file name the way the parser splits the last token of
      a `1` line gives back the identifier and the suffix, whenever the suffix
      has the four characters the parser cuts off; a default part always does. */
  lemma FilenameSplits(p: Part)
    requires |p.suffix| == 4
    ensures DropSuffix(p.Filename()) == p.part && Suffix(p.Filename()) == p.suffix
    ensures DropSuffix(NewPart(p.part, p.colour).Filename()) == p.part
  {
    assert |DefaultSuffix| == 4;
    assert p.Filename()[..|p.part|] == p.part;
    assert NewPart(p.part, p.colour).Filename()[..|p.part|] == p.part;
  }

  // ---------------------------------------------------------------------------
  // Inventories

  /** What the inventories count a part by: `(p.part, p.colour)`, with the
      identifier in its original casing. */
  type PartKey = (string, string)

  function Key(p: Part): PartKey {
    (p.part, p.colour)
  }

  /** The exclusion test `p.part.upper() not in ignore`. */
  predicate Counted(p: Part, ignore: seq<string>) {
    Upper(p.part) !in ignore
  }

  /** The parts that survive the exclusion test, in order. */
  function Kept(parts: seq<Part>, ignore: seq<string>): seq<Part>
    decreases |parts|
  {
    if parts == [] then []
    else
      var last := parts[|parts| - 1];
      Kept(parts[..|parts| - 1], ignore) + (if Counted(last, ignore) then [last] else [])
  }

  function Keys(parts: seq<Part>): seq<PartKey> {
    seq(|parts|, i requires 0 <= i < |parts| => Key(parts[i]))
  }

  /** The set `unique_parts` returns: the distinct keys of the counted parts. */
  function UniqueOf(parts: seq<Part>, ignore: seq<string>): set<PartKey> {
    set p | p in parts && Counted(p, ignore) :: Key(p)
  }

  /** The Counter `num_parts` returns, as a multiset: every counted part
      contributes its key once. */
  function CountOf(parts: seq<Part>, ignore: seq<string>): multiset<PartKey> {
    multiset(Keys(Kept(parts, ignore)))
  }

  /** All the parts of a sequence of steps, in step order. */
  function Flat(steps: seq<seq<Part>>): seq<Part>
    decreases |steps|
  {
    if steps == [] then [] else Flat(steps[..|steps| - 1]) + steps[|steps| - 1]
  }

  lemma FlatAppend(steps: seq<seq<Part>>, t: seq<Part>)
    ensures Flat(steps + [t]) == Flat(steps) + t
  {
    assert (steps + [t])[..|steps|] == steps;
  }

  /** Appending a part to the last step appends it to the flattened parts. */
  lemma FlatExtendLast(steps: seq<seq<Part>>, p: Part)
    requires |steps| > 0
    ensures Flat(steps[|steps| - 1 := steps[|steps| - 1] + [p]]) == Flat(steps) + [p]
  {
    var n := |steps| - 1;
    assert steps[n := steps[n] + [p]][..n] == steps[..n];
  }

  lemma {:induction false} KeptMembers(parts: seq<Part>, ignore: seq<string>)
    ensures forall p :: p in Kept(parts, ignore) <==> p in parts && Counted(p, ignore)
    decreases |parts|
  {
    if parts != [] {
      var init := parts[..|parts| - 1];
      KeptMembers(init, ignore);
      assert parts == init + [parts[|parts| - 1]];
    }
  }

  lemma {:induction false} KeptAppend(a: seq<Part>, b: seq<Part>, ignore: seq<string>)
    ensures Kept(a + b, ignore) == Kept(a, ignore) + Kept(b, ignore)
    decreases |b|
  {
    if b == [] {
      assert a + b == a;
    } else {
      var init := b[..|b| - 1];
      assert (a + b)[..|a + b| - 1] == a + init;
      KeptAppend(a, init, ignore);
    }
  }

  lemma KeysAppend(a: seq<Part>, b: seq<Part>)
    ensures Keys(a + b) == Keys(a) + Keys(b)
  {
  }

  /** The key set of `num_parts(ignore)` is `unique_parts(ignore)`, and its
      counts add up to the number of parts the exclusion test keeps. */
  lemma CountMatchesUnique(parts: seq<Part>, ignore: seq<string>)
    ensures forall k :: k in CountOf(parts, ignore) <==> k in UniqueOf(parts, ignore)
    ensures |CountOf(parts, ignore)| == |Kept(parts, ignore)|
  {
    var kept := Kept(parts, ignore);
    KeptMembers(parts, ignore);
    forall k ensures k in CountOf(parts, ignore) <==> k in UniqueOf(parts, ignore) {
      if k in CountOf(parts, ignore) {
        assert k in Keys(kept);
        var i :| 0 <= i < |kept| && Keys(kept)[i] == k;
        assert kept[i] in kept;
      }
      if k in UniqueOf(parts, ignore) {
        var p :| p in parts && Counted(p, ignore) && Key(p) == k;
        assert p in kept;
        var i :| 0 <= i < |kept| && kept[i] == p;
        assert Keys(kept)[i] == k;
      }
    }
  }

  /** Counting a longer sequence of parts adds the counts of the extra parts. */
  lemma CountAppend(a: seq<Part>, b: seq<Part>, ignore: seq<string>)
    ensures CountOf(a + b, ignore) == CountOf(a, ignore) + CountOf(b, ignore)
  {
    KeptAppend(a, b, ignore);
    KeysAppend(Kept(a, ignore), Kept(b, ignore));
  }

  lemma UniqueAppend(a: seq<Part>, b: seq<Part>, ignore: seq<string>)
    ensures UniqueOf(a + b, ignore) == UniqueOf(a, ignore) + UniqueOf(b, ignore)
  {
    assert forall p :: p in a + b <==> p in a || p in b;
  }

  lemma {:induction false} FlatMembers(steps: seq<seq<Part>>)
    ensures forall p :: p in Flat(steps) <==> exists i :: 0 <= i < |steps| && p in steps[i]
    decreases |steps|
  {
    if steps != [] {
      var init := steps[..|steps| - 1];
      FlatMembers(init);
      forall p | p in Flat(steps) ensures exists i :: 0 <= i < |steps| && p in steps[i] {
        if p in Flat(init) {
          var i :| 0 <= i < |init| && p in init[i];
          assert p in steps[i];
        }
      }
      forall p, i | 0 <= i < |steps| && p in steps[i] ensures p in Flat(steps) {
        if i < |init| {
          assert p in init[i];
        }
      }
    }
  }

  /** `set.union` over the steps' `unique_parts` is the unique-parts set of
      all the parts of those steps. */
  lemma UnionOverSteps(steps: seq<seq<Part>>, ignore: seq<string>)
    ensures (set i, k | 0 <= i < |steps| && k in UniqueOf(steps[i], ignore) :: k)
         == UniqueOf(Flat(steps), ignore)
  {
    FlatMembers(steps);
    var union := set i, k | 0 <= i < |steps| && k in UniqueOf(steps[i], ignore) :: k;
    forall k | k in UniqueOf(Flat(steps), ignore) ensures k in union {
      var p :| p in Flat(steps) && Counted(p, ignore) && Key(p) == k;
      var i :| 0 <= i < |steps| && p in steps[i];
      assert k in UniqueOf(steps[i], ignore);
    }
  }

  /** One step: its parts, appended in place as the parser reads `1` lines. */
  class Step {
    var parts: seq<Part>
    /** Which model the step belongs to and where in it: the index of the
        model in the project and of the step in the model. Proofs use it to
        tell step objects apart. */
    ghost const id: (nat, nat)

    /** `Step()` starts with no parts. */
    constructor (ghost id: (nat, nat))
      ensures parts == [] && this.id == id
    {
      parts := [];
      this.id := id;
    }

    /** `Step.add_part` */
    method AddPart(p: Part)
      modifies this
      ensures parts == old(parts) + [p]
    {
      parts := parts + [p];
    }

    /** `Step.unique_parts`: fills a set, one part at a time. */
    method UniqueParts(ignore: seq<string>) returns (pset: set<PartKey>)
      ensures pset == UniqueOf(parts, ignore)
    {
      pset := {};
      for i := 0 to |parts|
        invariant pset == UniqueOf(parts[..i], ignore)
      {
        var p := parts[i];
        UniqueAppend(parts[..i], [p], ignore);
        assert parts[..i + 1] == parts[..i] + [p];
        assert UniqueOf([p], ignore) == if Counted(p, ignore) then {Key(p)} else {};
        if Upper(p.part) !in ignore {
          pset := pset + {(p.part, p.colour)};
        }
      }
      assert parts[..|parts|] == parts;
    }

    /** `Step.num_parts`: fills a Counter, one part at a time. */
    method NumParts(ignore: seq<string>) returns (c: multiset<PartKey>)
      ensures c == CountOf(parts, ignore)
    {
      c := multiset{};
      for i := 0 to |parts|
        invariant c == CountOf(parts[..i], ignore)
      {
        var p := parts[i];
        CountAppend(parts[..i], [p], ignore);
        assert parts[..i + 1] == parts[..i] + [p];
        if Upper(p.part) !in ignore {
          c := c + multiset{(p.part, p.colour)};
        }
      }
      assert parts[..|parts|] == parts;
    }
  }
}
