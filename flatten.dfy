/** The instruction order of a project (`Project.model_steps` and
    `Project.steps`, instructions.py:276-290), as functions of the parsed
    project.

    The expansion is depth first from the first model. Before a step is
    emitted, every part of it that names a model not yet expanded expands
    that model in place; the set of models already expanded (`stepped`) is
    shared by the whole traversal, so no model is expanded twice, whatever
    the references between models. Models are named by their index in the
    model list, and `stepped` is a set of indices. */
module Flatten {
  import opened Text
  import opened Parts
  import opened Parser
  import ParserFacts

  /** One yielded triple `(sn, model, s)`: the step number, the model's index
      and the parts of the step. */
  datatype Entry = Entry(step: nat, model: nat, parts: seq<Part>)

  /** What every parsed project satisfies: `model_dict` points at models, and
      every name in `model_names` is a key of `model_dict`. */
  predicate WellFormed(p: ProjectValue) {
    && (forall k | k in p.dict :: p.dict[k] < |p.models|)
    && (forall i | 0 <= i < |p.names| :: p.names[i] in p.dict)
  }

  /** The indices below `n`. */
  function Below(n: nat): (r: set<nat>)
    ensures forall i: nat :: i in r <==> i < n
  {
    if n == 0 then {} else Below(n - 1) + {n - 1}
  }

  /** The indices of all models. */
  function Indices(p: ProjectValue): set<nat> {
    Below(|p.models|)
  }

  /** The model a part stands for: `model_dict[name]` when the part's
      uppercased name is one of `model_names`. */
  function Target(p: ProjectValue, q: Part): (r: Option<nat>)
    requires WellFormed(p)
    ensures r.Some? ==> r.value < |p.models|
  {
    var name := Upper(q.part);
    if name in p.names then Some(p.dict[name]) else None
  }

  /** A step refers to model `t` through one of its parts. */
  predicate Refers(p: ProjectValue, e: Entry, t: nat)
    requires WellFormed(p)
  {
    exists k | 0 <= k < |e.parts| :: Target(p, e.parts[k]) == Some(t)
  }

  // ---------------------------------------------------------------------------
  // Counting the models not yet expanded

  lemma {:induction false} SubsetCard(a: set<nat>, b: set<nat>)
    requires a <= b
    ensures |a| <= |b|
    decreases |a|
  {
    if a != {} {
      var x :| x in a;
      SubsetCard(a - {x}, b - {x});
    }
  }

  /** Expanding more models never leaves more of them to expand. */
  lemma Remaining(all: set<nat>, v: set<nat>, w: set<nat>)
    requires v <= w
    ensures |all - w| <= |all - v|
  {
    SubsetCard(all - w, all - v);
  }

  /** Marking one more model as expanded leaves fewer to expand. */
  lemma RemainingShrinks(all: set<nat>, v: set<nat>, m: nat)
    requires m in all && m !in v
    ensures |all - (v + {m})| < |all - v|
  {
    assert all - v == (all - (v + {m})) + {m};
  }

  /** Once a model not counted in `v` is marked, fewer are left to expand. */
  lemma Fewer(all: set<nat>, v: set<nat>, m: nat, w: set<nat>)
    requires m in all && m !in v && m in w && v <= w
    ensures |all - w| < |all - v|
  {
    RemainingShrinks(all, v, m);
    Remaining(all, v + {m}, w);
  }

  /** Concatenation regrouped. */
  lemma Regroup(a: seq<Entry>, b: seq<Entry>, c: seq<Entry>)
    ensures a + (b + c) == a + b + c
  {
  }

  // ---------------------------------------------------------------------------
  // The expansion

  /** `model_steps(models[mi])` entered with `stepped == v`: the triples it
      yields, and `stepped` when it is done. */
  function Expand(p: ProjectValue, mi: nat, v: set<nat>): (r: (seq<Entry>, set<nat>))
    requires WellFormed(p) && mi < |p.models| && mi !in v && v <= Indices(p)
    ensures v + {mi} <= r.1 <= Indices(p)
    decreases |Indices(p) - v|, 0, 0
  {
    RemainingShrinks(Indices(p), v, mi);
    ExpandSteps(p, mi, 0, v + {mi})
  }

  /** The loop over the steps of model `mi` from step `sn` on. */
  function ExpandSteps(p: ProjectValue, mi: nat, sn: nat, v: set<nat>): (r: (seq<Entry>, set<nat>))
    requires WellFormed(p) && mi < |p.models| && mi in v && v <= Indices(p)
    requires sn <= |p.models[mi].steps|
    ensures v <= r.1 <= Indices(p)
    decreases |Indices(p) - v|, 2, |p.models[mi].steps| - sn
  {
    if sn == |p.models[mi].steps| then ([], v)
    else
      var pre := ExpandParts(p, mi, sn, 0, v);
      Remaining(Indices(p), v, pre.1);
      var post := ExpandSteps(p, mi, sn + 1, pre.1);
      (pre.0 + [Entry(sn, mi, p.models[mi].steps[sn])] + post.0, post.1)
  }

  /** The loop over the parts of step `sn` of model `mi` from part `pi` on:
      the blocks of the submodels it expands. */
  function ExpandParts(p: ProjectValue, mi: nat, sn: nat, pi: nat, v: set<nat>): (r: (seq<Entry>, set<nat>))
    requires WellFormed(p) && mi < |p.models| && mi in v && v <= Indices(p)
    requires sn < |p.models[mi].steps| && pi <= |p.models[mi].steps[sn]|
    ensures v <= r.1 <= Indices(p)
    decreases |Indices(p) - v|, 1, |p.models[mi].steps[sn]| - pi
  {
    var parts := p.models[mi].steps[sn];
    if pi == |parts| then ([], v)
    else
      var t := Target(p, parts[pi]);
      if t.Some? && t.value !in v then
        var sub := Expand(p, t.value, v);
        Remaining(Indices(p), v, sub.1);
        var rest := ExpandParts(p, mi, sn, pi + 1, sub.1);
        (sub.0 + rest.0, rest.1)
      else
        ExpandParts(p, mi, sn, pi + 1, v)
  }

  /** `steps()`: `stepped` is reset and the first model expanded; a project
      without models raises IndexError on `models[0]` (None here). */
  function Steps(p: ProjectValue): Option<seq<Entry>>
    requires WellFormed(p)
  {
    if |p.models| == 0 then None else Some(Expand(p, 0, {}).0)
  }

  // ---------------------------------------------------------------------------
  // What a model contributes

  /** The entries of model `m`, in the order they were yielded. */
  function Of(out: seq<Entry>, m: nat): seq<Entry>
    decreases |out|
  {
    if out == [] then []
    else Of(out[..|out| - 1], m) + (if out[|out| - 1].model == m then [out[|out| - 1]] else [])
  }

  lemma {:induction false} OfAppend(a: seq<Entry>, b: seq<Entry>, m: nat)
    ensures Of(a + b, m) == Of(a, m) + Of(b, m)
    decreases |b|
  {
    if b == [] {
      assert a + b == a;
    } else {
      assert (a + b)[..|a + b| - 1] == a + b[..|b| - 1];
      OfAppend(a, b[..|b| - 1], m);
    }
  }

  lemma {:induction false} OfMembers(out: seq<Entry>, m: nat)
    ensures forall e :: e in Of(out, m) <==> e in out && e.model == m
    decreases |out|
  {
    if out != [] {
      OfMembers(out[..|out| - 1], m);
      assert out == out[..|out| - 1] + [out[|out| - 1]];
    }
  }

  /** Model `m`'s steps from `sn` on, each once, in increasing order. */
  function StepsFrom(p: ProjectValue, m: nat, sn: nat): seq<Entry>
    requires m < |p.models| && sn <= |p.models[m].steps|
    decreases |p.models[m].steps| - sn
  {
    if sn == |p.models[m].steps| then []
    else [Entry(sn, m, p.models[m].steps[sn])] + StepsFrom(p, m, sn + 1)
  }

  /** Model `m`'s whole step sequence. */
  function AllSteps(p: ProjectValue, m: nat): seq<Entry>
    requires m < |p.models|
  {
    StepsFrom(p, m, 0)
  }

  /** `StepsFrom` lists step `sn + k` at position `k`, with that step's parts. */
  lemma {:induction false} StepsFromShape(p: ProjectValue, m: nat, sn: nat)
    requires m < |p.models| && sn <= |p.models[m].steps|
    ensures |StepsFrom(p, m, sn)| == |p.models[m].steps| - sn
    ensures forall k | 0 <= k < |StepsFrom(p, m, sn)| ::
              StepsFrom(p, m, sn)[k] == Entry(sn + k, m, p.models[m].steps[sn + k])
    decreases |p.models[m].steps| - sn
  {
    if sn < |p.models[m].steps| {
      StepsFromShape(p, m, sn + 1);
    }
  }

  /** The entries of each model are exactly its whole step sequence when
      the model was expanded by this call, and none otherwise. */
  lemma {:induction false} ExpandOf(p: ProjectValue, mi: nat, v: set<nat>, m: nat)
    requires WellFormed(p) && mi < |p.models| && mi !in v && v <= Indices(p)
    ensures var r := Expand(p, mi, v);
      Of(r.0, m) == if m in r.1 - v then AllSteps(p, m) else []
    decreases |Indices(p) - v|, 0, 0
  {
    RemainingShrinks(Indices(p), v, mi);
    ExpandStepsOf(p, mi, 0, v + {mi}, m);
  }

  lemma {:induction false} ExpandStepsOf(p: ProjectValue, mi: nat, sn: nat, v: set<nat>, m: nat)
    requires WellFormed(p) && mi < |p.models| && mi in v && v <= Indices(p)
    requires sn <= |p.models[mi].steps|
    ensures var r := ExpandSteps(p, mi, sn, v);
      Of(r.0, m) == (if m == mi then StepsFrom(p, mi, sn) else [])
                    + (if m in r.1 - v then AllSteps(p, m) else [])
    decreases |Indices(p) - v|, 2, |p.models[mi].steps| - sn
  {
    if sn < |p.models[mi].steps| {
      var e := Entry(sn, mi, p.models[mi].steps[sn]);
      var pre := ExpandParts(p, mi, sn, 0, v);
      Remaining(Indices(p), v, pre.1);
      var post := ExpandSteps(p, mi, sn + 1, pre.1);
      ExpandPartsOf(p, mi, sn, 0, v, m);
      ExpandStepsOf(p, mi, sn + 1, pre.1, m);
      OfAppend(pre.0 + [e], post.0, m);
      OfAppend(pre.0, [e], m);
      assert Of([e], m) == if m == mi then [e] else [] by {
        assert [e][..0] == [];
      }
      var r := ExpandSteps(p, mi, sn, v);
      assert r == (pre.0 + [e] + post.0, post.1);
      assert Of(r.0, m) == Of(pre.0, m) + Of([e], m) + Of(post.0, m);
      if m == mi {
        assert m !in pre.1 - v && m !in post.1 - pre.1 && m !in r.1 - v;
        assert Of(r.0, m) == [e] + StepsFrom(p, mi, sn + 1);
      } else if m in pre.1 - v {
        assert m !in post.1 - pre.1 && m in r.1 - v;
        assert Of(r.0, m) == AllSteps(p, m);
      } else {
        assert m in r.1 - v <==> m in post.1 - pre.1;
        assert Of(r.0, m) == Of(post.0, m);
      }
    }
  }

  lemma {:induction false} ExpandPartsOf(p: ProjectValue, mi: nat, sn: nat, pi: nat, v: set<nat>, m: nat)
    requires WellFormed(p) && mi < |p.models| && mi in v && v <= Indices(p)
    requires sn < |p.models[mi].steps| && pi <= |p.models[mi].steps[sn]|
    ensures var r := ExpandParts(p, mi, sn, pi, v);
      Of(r.0, m) == if m in r.1 - v then AllSteps(p, m) else []
    decreases |Indices(p) - v|, 1, |p.models[mi].steps[sn]| - pi
  {
    var parts := p.models[mi].steps[sn];
    if pi < |parts| {
      var t := Target(p, parts[pi]);
      if t.Some? && t.value !in v {
        var sub := Expand(p, t.value, v);
        Remaining(Indices(p), v, sub.1);
        ExpandOf(p, t.value, v, m);
        ExpandPartsOf(p, mi, sn, pi + 1, sub.1, m);
        OfAppend(sub.0, ExpandParts(p, mi, sn, pi + 1, sub.1).0, m);
      } else {
        ExpandPartsOf(p, mi, sn, pi + 1, v, m);
      }
    }
  }

  // ---------------------------------------------------------------------------
  // References

  /** Every model a yielded step refers to has been expanded by the time the
      call returns (by this call or before it). */
  lemma {:induction false} ExpandClosed(p: ProjectValue, mi: nat, v: set<nat>)
    requires WellFormed(p) && mi < |p.models| && mi !in v && v <= Indices(p)
    ensures var r := Expand(p, mi, v);
      forall e, t: nat | e in r.0 && Refers(p, e, t) :: t in r.1
    decreases |Indices(p) - v|, 0, 0
  {
    RemainingShrinks(Indices(p), v, mi);
    ExpandStepsClosed(p, mi, 0, v + {mi});
  }

  lemma {:induction false} ExpandStepsClosed(p: ProjectValue, mi: nat, sn: nat, v: set<nat>)
    requires WellFormed(p) && mi < |p.models| && mi in v && v <= Indices(p)
    requires sn <= |p.models[mi].steps|
    ensures var r := ExpandSteps(p, mi, sn, v);
      forall e, t: nat | e in r.0 && Refers(p, e, t) :: t in r.1
    decreases |Indices(p) - v|, 2, |p.models[mi].steps| - sn
  {
    if sn < |p.models[mi].steps| {
      var e := Entry(sn, mi, p.models[mi].steps[sn]);
      var pre := ExpandParts(p, mi, sn, 0, v);
      Remaining(Indices(p), v, pre.1);
      var post := ExpandSteps(p, mi, sn + 1, pre.1);
      ExpandPartsClosed(p, mi, sn, 0, v);
      ExpandStepsClosed(p, mi, sn + 1, pre.1);
      assert pre.0 + [e] + post.0 == ExpandSteps(p, mi, sn, v).0;
    }
  }

  lemma {:induction false} ExpandPartsClosed(p: ProjectValue, mi: nat, sn: nat, pi: nat, v: set<nat>)
    requires WellFormed(p) && mi < |p.models| && mi in v && v <= Indices(p)
    requires sn < |p.models[mi].steps| && pi <= |p.models[mi].steps[sn]|
    ensures var r := ExpandParts(p, mi, sn, pi, v);
      && (forall e, t: nat | e in r.0 && Refers(p, e, t) :: t in r.1)
      && (forall k | pi <= k < |p.models[mi].steps[sn]| ::
            Target(p, p.models[mi].steps[sn][k]).Some? ==> Target(p, p.models[mi].steps[sn][k]).value in r.1)
    decreases |Indices(p) - v|, 1, |p.models[mi].steps[sn]| - pi
  {
    var parts := p.models[mi].steps[sn];
    if pi < |parts| {
      var t := Target(p, parts[pi]);
      if t.Some? && t.value !in v {
        var sub := Expand(p, t.value, v);
        Remaining(Indices(p), v, sub.1);
        ExpandClosed(p, t.value, v);
        ExpandPartsClosed(p, mi, sn, pi + 1, sub.1);
      } else {
        ExpandPartsClosed(p, mi, sn, pi + 1, v);
      }
    }
  }

  // ---------------------------------------------------------------------------
  // Blocks before the steps that call for them

  /** Some yielded step refers to model `t`, and all of `t`'s steps were
      yielded before it. */
  predicate Introduced(p: ProjectValue, out: seq<Entry>, t: nat)
    requires WellFormed(p)
  {
    && t < |p.models|
    && exists j | 0 <= j < |out| :: Refers(p, out[j], t) && Of(out[..j], t) == AllSteps(p, t)
  }

  /** Every model in `s` was introduced in `out`. */
  predicate AllIntroduced(p: ProjectValue, out: seq<Entry>, s: set<nat>)
    requires WellFormed(p)
  {
    forall t: nat | t in s :: Introduced(p, out, t)
  }

  lemma IntroducedBefore(p: ProjectValue, a: seq<Entry>, b: seq<Entry>, t: nat)
    requires WellFormed(p) && t < |p.models| && Introduced(p, a, t)
    ensures Introduced(p, a + b, t)
  {
    var j :| 0 <= j < |a| && Refers(p, a[j], t) && Of(a[..j], t) == AllSteps(p, t);
    assert (a + b)[j] == a[j] && (a + b)[..j] == a[..j];
  }

  lemma IntroducedAfter(p: ProjectValue, a: seq<Entry>, b: seq<Entry>, t: nat)
    requires WellFormed(p) && t < |p.models| && Introduced(p, b, t) && Of(a, t) == []
    ensures Introduced(p, a + b, t)
  {
    var j :| 0 <= j < |b| && Refers(p, b[j], t) && Of(b[..j], t) == AllSteps(p, t);
    assert (a + b)[|a| + j] == b[j] && (a + b)[..|a| + j] == a + b[..j];
    OfAppend(a, b[..j], t);
  }

  /** Every model this call expanded, other than the one it started from, was
      emitted whole before a step that refers to it. */
  lemma {:induction false} ExpandIntroduces(p: ProjectValue, mi: nat, v: set<nat>)
    requires WellFormed(p) && mi < |p.models| && mi !in v && v <= Indices(p)
    ensures var r := Expand(p, mi, v);
      AllIntroduced(p, r.0, r.1 - v - {mi})
    decreases |Indices(p) - v|, 0, 0
  {
    RemainingShrinks(Indices(p), v, mi);
    ExpandStepsIntroduces(p, mi, 0, v + {mi});
    assert Expand(p, mi, v).1 - v - {mi} == ExpandSteps(p, mi, 0, v + {mi}).1 - (v + {mi});
  }

  lemma {:induction false} ExpandStepsIntroduces(p: ProjectValue, mi: nat, sn: nat, v: set<nat>)
    requires WellFormed(p) && mi < |p.models| && mi in v && v <= Indices(p)
    requires sn <= |p.models[mi].steps|
    ensures var r := ExpandSteps(p, mi, sn, v);
      AllIntroduced(p, r.0, r.1 - v)
    decreases |Indices(p) - v|, 2, |p.models[mi].steps| - sn
  {
    if sn < |p.models[mi].steps| {
      var parts := p.models[mi].steps[sn];
      var e := Entry(sn, mi, parts);
      var pre := ExpandParts(p, mi, sn, 0, v);
      Remaining(Indices(p), v, pre.1);
      var post := ExpandSteps(p, mi, sn + 1, pre.1);
      var out := pre.0 + [e] + post.0;
      assert out == ExpandSteps(p, mi, sn, v).0;
      ExpandPartsIntroduces(p, mi, sn, 0, v);
      ExpandStepsIntroduces(p, mi, sn + 1, pre.1);
      forall t: nat | t in post.1 - v
        ensures Introduced(p, out, t)
      {
        if t !in pre.1 {
          ExpandPartsOf(p, mi, sn, 0, v, t);
        }
        StepIntroduces(p, pre.0, e, post.0, t);
      }
    }
  }

  /** Around one step `e`: a model introduced before it, emitted whole
      before it and referred to by it, or not emitted before it and
      introduced after it, is introduced in the whole sequence. */
  lemma StepIntroduces(p: ProjectValue, pre: seq<Entry>, e: Entry, post: seq<Entry>, t: nat)
    requires WellFormed(p) && t < |p.models| && e.model != t
    requires || Introduced(p, pre, t)
             || (Of(pre, t) == AllSteps(p, t) && exists k | 0 <= k < |e.parts| :: Target(p, e.parts[k]) == Some(t))
             || (Of(pre, t) == [] && Introduced(p, post, t))
    ensures Introduced(p, pre + [e] + post, t)
  {
    if Introduced(p, pre, t) {
      IntroducedBefore(p, pre, [e] + post, t);
      assert pre + ([e] + post) == pre + [e] + post;
    } else if Of(pre, t) == AllSteps(p, t) && exists k | 0 <= k < |e.parts| :: Target(p, e.parts[k]) == Some(t) {
      IntroducedAtStep(p, pre, e, post, t);
    } else {
      IntroducedAfterStep(p, pre, e, post, t);
    }
  }

  /** A model whose whole step sequence was yielded right before a step that
      refers to it is introduced by that step. */
  lemma IntroducedAtStep(p: ProjectValue, pre: seq<Entry>, e: Entry, post: seq<Entry>, t: nat)
    requires WellFormed(p) && t < |p.models| && Refers(p, e, t) && Of(pre, t) == AllSteps(p, t)
    ensures Introduced(p, pre + [e] + post, t)
  {
    var out := pre + [e] + post;
    assert out[|pre|] == e && out[..|pre|] == pre;
  }

  /** A model introduced after a step of another model, and not yielded
      before that step, is introduced in the whole sequence. */
  lemma IntroducedAfterStep(p: ProjectValue, pre: seq<Entry>, e: Entry, post: seq<Entry>, t: nat)
    requires WellFormed(p) && t < |p.models| && Introduced(p, post, t) && Of(pre, t) == [] && e.model != t
    ensures Introduced(p, pre + [e] + post, t)
  {
    OfAppend(pre, [e], t);
    assert Of([e], t) == [] by { assert [e][..0] == []; }
    IntroducedAfter(p, pre + [e], post, t);
  }

  lemma {:induction false} ExpandPartsIntroduces(p: ProjectValue, mi: nat, sn: nat, pi: nat, v: set<nat>)
    requires WellFormed(p) && mi < |p.models| && mi in v && v <= Indices(p)
    requires sn < |p.models[mi].steps| && pi <= |p.models[mi].steps[sn]|
    ensures var r := ExpandParts(p, mi, sn, pi, v);
      forall t: nat | t in r.1 - v ::
        || Introduced(p, r.0, t)
        || (&& Of(r.0, t) == AllSteps(p, t)
            && exists k | pi <= k < |p.models[mi].steps[sn]| :: Target(p, p.models[mi].steps[sn][k]) == Some(t))
    decreases |Indices(p) - v|, 1, |p.models[mi].steps[sn]| - pi
  {
    var parts := p.models[mi].steps[sn];
    if pi < |parts| {
      var t0 := Target(p, parts[pi]);
      if t0.Some? && t0.value !in v {
        var sub := Expand(p, t0.value, v);
        Remaining(Indices(p), v, sub.1);
        var rest := ExpandParts(p, mi, sn, pi + 1, sub.1);
        var out := sub.0 + rest.0;
        ExpandIntroduces(p, t0.value, v);
        assert AllIntroduced(p, sub.0, sub.1 - v - {t0.value});
        ExpandPartsIntroduces(p, mi, sn, pi + 1, sub.1);
        forall t: nat | t in rest.1 - v
          ensures || Introduced(p, out, t)
                  || (&& Of(out, t) == AllSteps(p, t)
                      && exists k | pi <= k < |parts| :: Target(p, parts[k]) == Some(t))
        {
          OfAppend(sub.0, rest.0, t);
          ExpandPartsOf(p, mi, sn, pi + 1, sub.1, t);
          ExpandOf(p, t0.value, v, t);
          if t == t0.value {
          } else if t in sub.1 {
            assert t in sub.1 - v - {t0.value};
            IntroducedBefore(p, sub.0, rest.0, t);
          } else if Introduced(p, rest.0, t) {
            IntroducedAfter(p, sub.0, rest.0, t);
          }
        }
      } else {
        ExpandPartsIntroduces(p, mi, sn, pi + 1, v);
      }
    }
  }

  // ---------------------------------------------------------------------------
  // The last entry

  /** A model's expansion ends with its own last step. */
  lemma {:induction false} ExpandStepsEndsWithLast(p: ProjectValue, mi: nat, sn: nat, v: set<nat>)
    requires WellFormed(p) && mi < |p.models| && mi in v && v <= Indices(p)
    requires sn < |p.models[mi].steps|
    ensures var out := ExpandSteps(p, mi, sn, v).0;
      var n := |p.models[mi].steps|;
      |out| > 0 && out[|out| - 1] == Entry(n - 1, mi, p.models[mi].steps[n - 1])
    decreases |p.models[mi].steps| - sn
  {
    var pre := ExpandParts(p, mi, sn, 0, v);
    Remaining(Indices(p), v, pre.1);
    if sn + 1 < |p.models[mi].steps| {
      ExpandStepsEndsWithLast(p, mi, sn + 1, pre.1);
    }
  }

  // ---------------------------------------------------------------------------
  // Counting

  /** The entries whose model is below `n`, counted model by model. */
  function SumOf(out: seq<Entry>, n: nat): nat {
    if n == 0 then 0 else SumOf(out, n - 1) + |Of(out, n - 1)|
  }

  /** The total number of steps of the models in `s` below `n`. */
  function StepTotal(p: ProjectValue, s: set<nat>, n: nat): nat
    requires n <= |p.models|
  {
    if n == 0 then 0
    else StepTotal(p, s, n - 1) + (if n - 1 in s then |p.models[n - 1].steps| else 0)
  }

  lemma {:induction false} SumOfAppendOne(out: seq<Entry>, e: Entry, n: nat)
    ensures SumOf(out + [e], n) == SumOf(out, n) + (if e.model < n then 1 else 0)
  {
    if n > 0 {
      SumOfAppendOne(out, e, n - 1);
      assert (out + [e])[..|out|] == out;
    }
  }

  /** When every entry's model is below `n`, counting them model by model
      counts them all. */
  lemma {:induction false} CountByModel(out: seq<Entry>, n: nat)
    requires forall e | e in out :: e.model < n
    ensures |out| == SumOf(out, n)
    decreases |out|
  {
    if out == [] {
      SumOfEmpty(n);
    } else {
      var init := out[..|out| - 1];
      assert out == init + [out[|out| - 1]];
      CountByModel(init, n);
      SumOfAppendOne(init, out[|out| - 1], n);
    }
  }

  lemma {:induction false} SumOfEmpty(n: nat)
    ensures SumOf([], n) == 0
  {
    if n > 0 {
      SumOfEmpty(n - 1);
    }
  }

  lemma {:induction false} SumOfIsStepTotal(p: ProjectValue, out: seq<Entry>, s: set<nat>, n: nat)
    requires n <= |p.models|
    requires forall m: nat | m < n :: |Of(out, m)| == if m in s then |p.models[m].steps| else 0
    ensures SumOf(out, n) == StepTotal(p, s, n)
  {
    if n > 0 {
      SumOfIsStepTotal(p, out, s, n - 1);
    }
  }

  // ---------------------------------------------------------------------------
  // The whole traversal

  /** The set `stepped` holds after `steps()` has run to the end. */
  function Expanded(p: ProjectValue): set<nat>
    requires WellFormed(p) && |p.models| > 0
  {
    Expand(p, 0, {}).1
  }

  /** Each model is expanded at most once: the first model and every model
      expanded yield exactly their whole step sequence, once and in step
      order; the others yield nothing. */
  lemma EachModelOnce(p: ProjectValue, m: nat)
    requires WellFormed(p) && |p.models| > 0 && m < |p.models|
    ensures 0 in Expanded(p)
    ensures Of(Steps(p).value, m) == if m in Expanded(p) then AllSteps(p, m) else []
    ensures |AllSteps(p, m)| == |p.models[m].steps|
    ensures forall k | 0 <= k < |p.models[m].steps| ::
              AllSteps(p, m)[k] == Entry(k, m, p.models[m].steps[k])
  {
    ExpandOf(p, 0, {}, m);
    StepsFromShape(p, m, 0);
  }

  /** Every yielded triple `(sn, m, s)` has `s == m.steps[sn]`, of a model
      that was expanded. */
  lemma EntriesAreSteps(p: ProjectValue)
    requires WellFormed(p) && |p.models| > 0
    ensures forall e | e in Steps(p).value ::
              && e.model in Expanded(p)
              && e.model < |p.models|
              && e.step < |p.models[e.model].steps|
              && e.parts == p.models[e.model].steps[e.step]
  {
    var out := Steps(p).value;
    forall e | e in out
      ensures && e.model in Expanded(p) && e.model < |p.models|
              && e.step < |p.models[e.model].steps|
              && e.parts == p.models[e.model].steps[e.step]
    {
      OfMembers(out, e.model);
      ExpandOf(p, 0, {}, e.model);
      assert e.model in Expanded(p) - {};
      EachModelOnce(p, e.model);
      var k :| 0 <= k < |AllSteps(p, e.model)| && AllSteps(p, e.model)[k] == e;
    }
  }

  /** The number of triples is the sum of the step counts of the expanded
      models. */
  lemma StepCount(p: ProjectValue)
    requires WellFormed(p) && |p.models| > 0
    ensures |Steps(p).value| == StepTotal(p, Expanded(p), |p.models|)
  {
    var out := Steps(p).value;
    EntriesAreSteps(p);
    CountByModel(out, |p.models|);
    forall m: nat | m < |p.models|
      ensures |Of(out, m)| == if m in Expanded(p) then |p.models[m].steps| else 0
    {
      EachModelOnce(p, m);
    }
    SumOfIsStepTotal(p, out, Expanded(p), |p.models|);
  }

  /** Every model a yielded step refers to by name was expanded. */
  lemma ReferencesExpanded(p: ProjectValue)
    requires WellFormed(p) && |p.models| > 0
    ensures forall e, t: nat | e in Steps(p).value && Refers(p, e, t) :: t in Expanded(p)
  {
    ExpandClosed(p, 0, {});
  }

  /** Every submodel that was expanded was emitted whole before a step that
      refers to it; `BlockBeforeEachReference` places the block before every
      step that refers to it and does not lie on a cycle through it. */
  lemma SubmodelBeforeReference(p: ProjectValue)
    requires WellFormed(p) && |p.models| > 0
    ensures AllIntroduced(p, Steps(p).value, Expanded(p) - {0})
  {
    ExpandIntroduces(p, 0, {});
    assert Expanded(p) - {} - {0} == Expanded(p) - {0};
  }

  /** The last triple is the last step of the first model. */
  lemma LastIsRootsLastStep(p: ProjectValue)
    requires WellFormed(p) && |p.models| > 0 && |p.models[0].steps| > 0
    ensures var out := Steps(p).value;
      var n := |p.models[0].steps|;
      |out| > 0 && out[|out| - 1] == Entry(n - 1, 0, p.models[0].steps[n - 1])
  {
    assert {} + {0} == {0};
    ExpandStepsEndsWithLast(p, 0, 0, {0});
  }

  // ---------------------------------------------------------------------------
  // Reachability

  /** Model `b` is named by a part of some step of model `a`. */
  predicate Edge(p: ProjectValue, a: nat, b: nat)
    requires WellFormed(p)
  {
    && a < |p.models|
    && exists sn, k | 0 <= sn < |p.models[a].steps| && 0 <= k < |p.models[a].steps[sn]| ::
         Target(p, p.models[a].steps[sn][k]) == Some(b)
  }

  /** A chain of models, each naming the next. */
  predicate IsPath(p: ProjectValue, path: seq<nat>)
    requires WellFormed(p)
  {
    && |path| > 0
    && (forall i | 0 <= i < |path| :: path[i] < |p.models|)
    && (forall i | 0 <= i < |path| - 1 :: Edge(p, path[i], path[i + 1]))
  }

  /** Model `b` is reached from model `a` through a chain of parts that name
      models (every model reaches itself). */
  ghost predicate Reach(p: ProjectValue, a: nat, b: nat)
    requires WellFormed(p)
  {
    exists path :: IsPath(p, path) && path[0] == a && path[|path| - 1] == b
  }

  /** Model `t` is reached from the first model. */
  ghost predicate Reaches(p: ProjectValue, t: nat)
    requires WellFormed(p)
  {
    Reach(p, 0, t)
  }

  /** The models reachable from the first model. */
  ghost function Reachable(p: ProjectValue): set<nat>
    requires WellFormed(p)
  {
    set t: nat | t < |p.models| && Reaches(p, t)
  }

  /** A set of models that holds every model named by a step of its models. */
  ghost predicate Closed(p: ProjectValue, s: set<nat>)
    requires WellFormed(p)
  {
    forall a: nat, b: nat | a in s && Edge(p, a, b) :: b in s
  }

  /** Expanding from a model of a closed set expands only models of that set. */
  lemma {:induction false} ExpandWithin(p: ProjectValue, mi: nat, v: set<nat>, s: set<nat>)
    requires WellFormed(p) && mi < |p.models| && mi !in v && v <= Indices(p)
    requires Closed(p, s) && mi in s
    ensures Expand(p, mi, v).1 <= v + s
    decreases |Indices(p) - v|, 0, 0
  {
    RemainingShrinks(Indices(p), v, mi);
    ExpandStepsWithin(p, mi, 0, v + {mi}, s);
  }

  lemma {:induction false} ExpandStepsWithin(p: ProjectValue, mi: nat, sn: nat, v: set<nat>, s: set<nat>)
    requires WellFormed(p) && mi < |p.models| && mi in v && v <= Indices(p)
    requires sn <= |p.models[mi].steps|
    requires Closed(p, s) && mi in s
    ensures ExpandSteps(p, mi, sn, v).1 <= v + s
    decreases |Indices(p) - v|, 2, |p.models[mi].steps| - sn
  {
    if sn < |p.models[mi].steps| {
      var pre := ExpandParts(p, mi, sn, 0, v);
      Remaining(Indices(p), v, pre.1);
      ExpandPartsWithin(p, mi, sn, 0, v, s);
      ExpandStepsWithin(p, mi, sn + 1, pre.1, s);
    }
  }

  lemma {:induction false} ExpandPartsWithin(p: ProjectValue, mi: nat, sn: nat, pi: nat, v: set<nat>, s: set<nat>)
    requires WellFormed(p) && mi < |p.models| && mi in v && v <= Indices(p)
    requires sn < |p.models[mi].steps| && pi <= |p.models[mi].steps[sn]|
    requires Closed(p, s) && mi in s
    ensures ExpandParts(p, mi, sn, pi, v).1 <= v + s
    decreases |Indices(p) - v|, 1, |p.models[mi].steps[sn]| - pi
  {
    var parts := p.models[mi].steps[sn];
    if pi < |parts| {
      var t := Target(p, parts[pi]);
      if t.Some? && t.value !in v {
        assert Edge(p, mi, t.value);
        var sub := Expand(p, t.value, v);
        Remaining(Indices(p), v, sub.1);
        ExpandWithin(p, t.value, v, s);
        ExpandPartsWithin(p, mi, sn, pi + 1, sub.1, s);
      } else {
        ExpandPartsWithin(p, mi, sn, pi + 1, v, s);
      }
    }
  }

  /** The models `steps()` expands are closed under naming: a model named by
      a step of an expanded model was expanded too. */
  lemma ExpandedClosed(p: ProjectValue)
    requires WellFormed(p) && |p.models| > 0
    ensures Closed(p, Expanded(p))
  {
    var out := Steps(p).value;
    ReferencesExpanded(p);
    forall a: nat, b: nat | a in Expanded(p) && Edge(p, a, b)
      ensures b in Expanded(p)
    {
      var sn, k :| 0 <= sn < |p.models[a].steps| && 0 <= k < |p.models[a].steps[sn]|
                   && Target(p, p.models[a].steps[sn][k]) == Some(b);
      EachModelOnce(p, a);
      var e := AllSteps(p, a)[sn];
      assert e in Of(out, a);
      OfMembers(out, a);
      assert Refers(p, e, b);
    }
  }

  /** The last model of a path that starts in a closed set is in the set. */
  lemma {:induction false} PathStaysInside(p: ProjectValue, path: seq<nat>, s: set<nat>)
    requires WellFormed(p) && IsPath(p, path) && path[0] in s && Closed(p, s)
    ensures path[|path| - 1] in s
    decreases |path|
  {
    if |path| > 1 {
      var init := path[..|path| - 1];
      assert IsPath(p, init);
      PathStaysInside(p, init, s);
      assert Edge(p, path[|path| - 2], path[|path| - 1]);
    }
  }

  /** The reachable models contain the first model and are closed. */
  lemma ReachableClosed(p: ProjectValue)
    requires WellFormed(p) && |p.models| > 0
    ensures 0 in Reachable(p) && Closed(p, Reachable(p))
  {
    assert IsPath(p, [0]);
    forall a: nat, b: nat | a in Reachable(p) && Edge(p, a, b)
      ensures b in Reachable(p)
    {
      var path :| IsPath(p, path) && path[0] == 0 && path[|path| - 1] == a;
      var longer := path + [b];
      assert IsPath(p, longer);
      assert longer[0] == 0 && longer[|longer| - 1] == b;
    }
  }

  /** `steps()` expands exactly the models reachable from the first one. */
  lemma ExpandedIsReachable(p: ProjectValue)
    requires WellFormed(p) && |p.models| > 0
    ensures Expanded(p) == Reachable(p)
  {
    ReachableClosed(p);
    ExpandWithin(p, 0, {}, Reachable(p));
    ExpandedClosed(p);
    EachModelOnce(p, 0);
    forall t: nat | t in Reachable(p)
      ensures t in Expanded(p)
    {
      var path :| IsPath(p, path) && path[0] == 0 && path[|path| - 1] == t;
      PathStaysInside(p, path, Expanded(p));
    }
  }

  /** The expanded models are the least set that holds the first model and
      every model named by a step of one of its models. */
  lemma ExpandedIsLeastClosed(p: ProjectValue, s: set<nat>)
    requires WellFormed(p) && |p.models| > 0
    ensures 0 in Expanded(p) && Closed(p, Expanded(p))
    ensures 0 in s && Closed(p, s) ==> Expanded(p) <= s
  {
    EachModelOnce(p, 0);
    ExpandedClosed(p);
    if 0 in s && Closed(p, s) {
      ExpandWithin(p, 0, {}, s);
    }
  }

  /** `steps()` visits every model reachable from the first one exactly once,
      yielding its whole step sequence, and yields nothing of the others. */
  lemma VisitsReachableOnce(p: ProjectValue, m: nat)
    requires WellFormed(p) && |p.models| > 0 && m < |p.models|
    ensures Of(Steps(p).value, m) == if Reaches(p, m) then AllSteps(p, m) else []
  {
    EachModelOnce(p, m);
    ExpandedIsReachable(p);
  }

  /** The number of triples is the sum of the step counts of the distinct
      models reachable from the first one. */
  lemma StepCountReachable(p: ProjectValue)
    requires WellFormed(p) && |p.models| > 0
    ensures |Steps(p).value| == StepTotal(p, Reachable(p), |p.models|)
  {
    StepCount(p);
    ExpandedIsReachable(p);
  }

  // ---------------------------------------------------------------------------
  // Every reference after the block

  /** Every model reaches itself. */
  lemma ReachSelf(p: ProjectValue, a: nat)
    requires WellFormed(p) && a < |p.models|
    ensures Reach(p, a, a)
  {
    assert IsPath(p, [a]);
  }

  /** A model reaches whatever the models it names reach. */
  lemma ReachThrough(p: ProjectValue, a: nat, b: nat, c: nat)
    requires WellFormed(p) && Edge(p, a, b) && Reach(p, b, c)
    ensures Reach(p, a, c)
  {
    var path :| IsPath(p, path) && path[0] == b && path[|path| - 1] == c;
    var longer := [a] + path;
    assert IsPath(p, longer);
    assert longer[0] == a && longer[|longer| - 1] == c;
  }

  /** Every entry of `out` belongs to a model `a` reaches. */
  ghost predicate From(p: ProjectValue, a: nat, out: seq<Entry>)
    requires WellFormed(p)
  {
    forall j | 0 <= j < |out| :: Reach(p, a, out[j].model)
  }

  /** Every step in `out` that names a model `t` comes after `t`'s whole block,
      unless `t` was expanded before (it is in `v`), or `t` reaches the step's
      own model, so that the step lies on a cycle through `t`. */
  ghost predicate BlocksFirst(p: ProjectValue, out: seq<Entry>, v: set<nat>)
    requires WellFormed(p)
  {
    forall j, t: nat | 0 <= j < |out| && Refers(p, out[j], t) ::
      t in v || Of(out[..j], t) == AllSteps(p, t) || Reach(p, t, out[j].model)
  }

  lemma {:induction false} OfPrefixEmpty(out: seq<Entry>, j: nat, t: nat)
    requires j <= |out| && Of(out, t) == []
    ensures Of(out[..j], t) == []
  {
    assert out[..j] + out[j..] == out;
    OfAppend(out[..j], out[j..], t);
  }

  /** Two pieces of output, the second produced once `stepped` had grown from
      `v` to `w`: models added in between were emitted whole in the first piece
      and not again, and no other model was emitted in the first piece. */
  lemma BlocksFirstAppend(p: ProjectValue, a: seq<Entry>, b: seq<Entry>, v: set<nat>, w: set<nat>)
    requires WellFormed(p) && v <= w <= Indices(p)
    requires BlocksFirst(p, a, v) && BlocksFirst(p, b, w)
    requires forall t: nat | t in w - v :: Of(a, t) == AllSteps(p, t) && Of(b, t) == []
    requires forall t: nat | t !in w :: Of(a, t) == []
    ensures BlocksFirst(p, a + b, v)
  {
    forall j, t: nat | 0 <= j < |a + b| && Refers(p, (a + b)[j], t)
      ensures t in v || Of((a + b)[..j], t) == AllSteps(p, t) || Reach(p, t, (a + b)[j].model)
    {
      RefersBound(p, (a + b)[j], t);
      if j < |a| {
        BeforePiece(p, a, b, j, t, v);
      } else {
        AfterPiece(p, a, b, j - |a|, t, v, w);
      }
    }
  }

  lemma RefersBound(p: ProjectValue, e: Entry, t: nat)
    requires WellFormed(p) && Refers(p, e, t)
    ensures t < |p.models|
  {
  }

  /** The case of `BlocksFirstAppend` for a step of the first piece. */
  lemma BeforePiece(p: ProjectValue, a: seq<Entry>, b: seq<Entry>, j: nat, t: nat, v: set<nat>)
    requires WellFormed(p) && j < |a| && t < |p.models|
    requires BlocksFirst(p, a, v) && Refers(p, (a + b)[j], t)
    ensures t in v || Of((a + b)[..j], t) == AllSteps(p, t) || Reach(p, t, (a + b)[j].model)
  {
    assert (a + b)[..j] == a[..j] && (a + b)[j] == a[j];
    assert Refers(p, a[j], t);
  }

  /** The case of `BlocksFirstAppend` for a step of the second piece. */
  lemma AfterPiece(p: ProjectValue, a: seq<Entry>, b: seq<Entry>, k: nat, t: nat, v: set<nat>, w: set<nat>)
    requires WellFormed(p) && k < |b| && t < |p.models| && v <= w
    requires BlocksFirst(p, b, w) && Refers(p, (a + b)[|a| + k], t)
    requires t in w - v ==> Of(a, t) == AllSteps(p, t) && Of(b, t) == []
    requires t !in w ==> Of(a, t) == []
    ensures t in v || Of((a + b)[..|a| + k], t) == AllSteps(p, t) || Reach(p, t, (a + b)[|a| + k].model)
  {
    assert (a + b)[..|a| + k] == a + b[..k] && (a + b)[|a| + k] == b[k];
    assert Refers(p, b[k], t);
    OfAppend(a, b[..k], t);
    if t in w - v {
      OfPrefixEmpty(b, k, t);
    }
  }

  lemma FromAppend(p: ProjectValue, a: nat, x: seq<Entry>, y: seq<Entry>)
    requires WellFormed(p) && From(p, a, x) && From(p, a, y)
    ensures From(p, a, x + y)
  {
    forall j | 0 <= j < |x + y|
      ensures Reach(p, a, (x + y)[j].model)
    {
      if j >= |x| {
        assert (x + y)[j] == y[j - |x|];
      }
    }
  }

  /** What a model reaches, every model naming it reaches. */
  lemma FromThrough(p: ProjectValue, a: nat, b: nat, out: seq<Entry>)
    requires WellFormed(p) && Edge(p, a, b) && From(p, b, out)
    ensures From(p, a, out)
  {
    forall j | 0 <= j < |out|
      ensures Reach(p, a, out[j].model)
    {
      ReachThrough(p, a, b, out[j].model);
    }
  }

  /** One step `e` of a model in `v` emitted between the blocks its parts
      expanded (`pre`, which took `stepped` from `v` to `w`) and the rest of
      its model (`post`): every model `e` names is in `w`. */
  lemma StepBlocksFirst(p: ProjectValue, pre: seq<Entry>, e: Entry, post: seq<Entry>, v: set<nat>, w: set<nat>)
    requires WellFormed(p) && e.model in v && v <= w <= Indices(p)
    requires BlocksFirst(p, pre, v) && BlocksFirst(p, post, w)
    requires forall t: nat | Refers(p, e, t) :: t in w
    requires forall t: nat :: Of(pre, t) == if t in w - v then AllSteps(p, t) else []
    requires forall t: nat | t in w && t != e.model :: Of(post, t) == []
    ensures BlocksFirst(p, pre + [e] + post, v)
  {
    forall t: nat
      ensures Of(pre + [e], t) == Of(pre, t) + (if t == e.model then [e] else [])
    {
      OfAppend(pre, [e], t);
      assert [e][..0] == [];
    }
    assert BlocksFirst(p, [e], w) by {
      forall t: nat | Refers(p, [e][0], t)
        ensures t in w
      {
      }
    }
    BlocksFirstAppend(p, pre, [e], v, w);
    BlocksFirstAppend(p, pre + [e], post, v, w);
  }

  /** The block of a submodel `t` named by a model `a` in `v`, expanded while
      `stepped` grew from `v` to `w`, followed by the rest of `a`'s parts. */
  lemma SubmodelBlocksFirst(p: ProjectValue, a: nat, t: nat, sub: seq<Entry>, rest: seq<Entry>, v: set<nat>, w: set<nat>)
    requires WellFormed(p) && Edge(p, a, t) && v <= w <= Indices(p)
    requires From(p, t, sub) && From(p, a, rest)
    requires BlocksFirst(p, sub, v) && BlocksFirst(p, rest, w)
    requires forall m: nat :: Of(sub, m) == if m in w - v then AllSteps(p, m) else []
    requires forall m: nat | m in w :: Of(rest, m) == []
    ensures From(p, a, sub + rest) && BlocksFirst(p, sub + rest, v)
  {
    BlocksFirstAppend(p, sub, rest, v, w);
    FromThrough(p, a, t, sub);
    FromAppend(p, a, sub, rest);
  }

  /** The case of `ExpandPartsBlocksFirst` where part `pi` expands a model. */
  lemma PartExpandsBlocksFirst(p: ProjectValue, mi: nat, sn: nat, pi: nat, v: set<nat>)
    requires WellFormed(p) && mi < |p.models| && mi in v && v <= Indices(p)
    requires sn < |p.models[mi].steps| && pi < |p.models[mi].steps[sn]|
    requires var t0 := Target(p, p.models[mi].steps[sn][pi]); t0.Some? && t0.value !in v
    requires var t0 := Target(p, p.models[mi].steps[sn][pi]).value;
      var sub := Expand(p, t0, v);
      && From(p, t0, sub.0) && BlocksFirst(p, sub.0, v)
      && From(p, mi, ExpandParts(p, mi, sn, pi + 1, sub.1).0)
      && BlocksFirst(p, ExpandParts(p, mi, sn, pi + 1, sub.1).0, sub.1)
    ensures var r := ExpandParts(p, mi, sn, pi, v);
      From(p, mi, r.0) && BlocksFirst(p, r.0, v)
  {
    var t0 := Target(p, p.models[mi].steps[sn][pi]).value;
    assert Edge(p, mi, t0);
    var sub := Expand(p, t0, v);
    var rest := ExpandParts(p, mi, sn, pi + 1, sub.1);
    forall t: nat
      ensures Of(sub.0, t) == if t in sub.1 - v then AllSteps(p, t) else []
      ensures t in sub.1 ==> Of(rest.0, t) == []
    {
      ExpandOf(p, t0, v, t);
      ExpandPartsOf(p, mi, sn, pi + 1, sub.1, t);
    }
    SubmodelBlocksFirst(p, mi, t0, sub.0, rest.0, v, sub.1);
    assert ExpandParts(p, mi, sn, pi, v).0 == sub.0 + rest.0;
  }

  /** The entries that one call yields, and where the steps that name models
      stand against those models' blocks. */
  lemma {:induction false} ExpandBlocksFirst(p: ProjectValue, mi: nat, v: set<nat>)
    requires WellFormed(p) && mi < |p.models| && mi !in v && v <= Indices(p)
    ensures var r := Expand(p, mi, v);
      From(p, mi, r.0) && BlocksFirst(p, r.0, v)
    decreases |Indices(p) - v|, 0, 0
  {
    RemainingShrinks(Indices(p), v, mi);
    ExpandStepsBlocksFirst(p, mi, 0, v + {mi});
    var out := Expand(p, mi, v).0;
    assert out == ExpandSteps(p, mi, 0, v + {mi}).0;
    forall j, t: nat | 0 <= j < |out| && Refers(p, out[j], t)
      ensures t in v || Of(out[..j], t) == AllSteps(p, t) || Reach(p, t, out[j].model)
    {
    }
  }

  lemma {:induction false} ExpandStepsBlocksFirst(p: ProjectValue, mi: nat, sn: nat, v: set<nat>)
    requires WellFormed(p) && mi < |p.models| && mi in v && v <= Indices(p)
    requires sn <= |p.models[mi].steps|
    ensures var r := ExpandSteps(p, mi, sn, v);
      From(p, mi, r.0) && BlocksFirst(p, r.0, v)
    decreases |Indices(p) - v|, 2, |p.models[mi].steps| - sn
  {
    if sn < |p.models[mi].steps| {
      var e := Entry(sn, mi, p.models[mi].steps[sn]);
      var pre := ExpandParts(p, mi, sn, 0, v);
      Remaining(Indices(p), v, pre.1);
      var post := ExpandSteps(p, mi, sn + 1, pre.1);
      assert pre.0 + [e] + post.0 == ExpandSteps(p, mi, sn, v).0;
      ExpandPartsBlocksFirst(p, mi, sn, 0, v);
      ExpandStepsBlocksFirst(p, mi, sn + 1, pre.1);
      ExpandPartsClosed(p, mi, sn, 0, v);
      forall t: nat
        ensures Of(pre.0, t) == if t in pre.1 - v then AllSteps(p, t) else []
        ensures t in pre.1 && t != mi ==> Of(post.0, t) == []
      {
        ExpandPartsOf(p, mi, sn, 0, v, t);
        ExpandStepsOf(p, mi, sn + 1, pre.1, t);
      }
      StepBlocksFirst(p, pre.0, e, post.0, v, pre.1);
      ReachSelf(p, mi);
      assert From(p, mi, [e]);
      FromAppend(p, mi, pre.0, [e]);
      FromAppend(p, mi, pre.0 + [e], post.0);
    }
  }

  lemma {:induction false} ExpandPartsBlocksFirst(p: ProjectValue, mi: nat, sn: nat, pi: nat, v: set<nat>)
    requires WellFormed(p) && mi < |p.models| && mi in v && v <= Indices(p)
    requires sn < |p.models[mi].steps| && pi <= |p.models[mi].steps[sn]|
    ensures var r := ExpandParts(p, mi, sn, pi, v);
      From(p, mi, r.0) && BlocksFirst(p, r.0, v)
    decreases |Indices(p) - v|, 1, |p.models[mi].steps[sn]| - pi
  {
    var parts := p.models[mi].steps[sn];
    if pi < |parts| {
      var t0 := Target(p, parts[pi]);
      if t0.Some? && t0.value !in v {
        var sub := Expand(p, t0.value, v);
        Remaining(Indices(p), v, sub.1);
        ExpandBlocksFirst(p, t0.value, v);
        ExpandPartsBlocksFirst(p, mi, sn, pi + 1, sub.1);
        PartExpandsBlocksFirst(p, mi, sn, pi, v);
      } else {
        ExpandPartsBlocksFirst(p, mi, sn, pi + 1, v);
      }
    }
  }

  /** Every step of `steps()` that names a model comes after that model's
      whole block, unless the named model reaches the step's own model, that
      is, unless the step lies on a cycle through the model it names. */
  lemma BlockBeforeEachReference(p: ProjectValue)
    requires WellFormed(p) && |p.models| > 0
    ensures var out := Steps(p).value;
      forall j, t: nat | 0 <= j < |out| && Refers(p, out[j], t) ::
        Of(out[..j], t) == AllSteps(p, t) || Reach(p, t, out[j].model)
  {
    ExpandBlocksFirst(p, 0, {});
  }

  /** No model reaches a model that names it. */
  ghost predicate Acyclic(p: ProjectValue)
    requires WellFormed(p)
  {
    forall a: nat, b: nat | Reach(p, a, b) :: !Edge(p, b, a)
  }

  /** Without cycles, every step that names a model comes after that model's
      whole block. */
  lemma AcyclicBlockBeforeEachReference(p: ProjectValue)
    requires WellFormed(p) && |p.models| > 0 && Acyclic(p)
    ensures var out := Steps(p).value;
      forall j, t: nat | 0 <= j < |out| && Refers(p, out[j], t) ::
        Of(out[..j], t) == AllSteps(p, t)
  {
    var out := Steps(p).value;
    BlockBeforeEachReference(p);
    EntriesAreSteps(p);
    forall j, t: nat | 0 <= j < |out| && Refers(p, out[j], t)
      ensures Of(out[..j], t) == AllSteps(p, t)
    {
      var e := out[j];
      assert e in out;
      var k :| 0 <= k < |e.parts| && Target(p, e.parts[k]) == Some(t);
      assert Edge(p, e.model, t);
      assert !Reach(p, t, e.model);
    }
  }

  /** A parsed project is well formed, and each of its models has a step. */
  lemma ParsedProjectIsWellFormed(lines: seq<Line>, toReal: RealOf)
    requires Parse(lines, toReal).Ok?
    ensures WellFormed(Parse(lines, toReal).value)
    ensures forall i | 0 <= i < |Parse(lines, toReal).value.models| ::
              |Parse(lines, toReal).value.models[i].steps| > 0
  {
    ParserFacts.DictKeepsLastModel(lines, toReal);
    var p := Parse(lines, toReal).value;
    assert forall i | 0 <= i < |p.names| :: p.names[i] in Names(p.models);
  }
}
