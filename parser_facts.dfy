/** What the parse of a whole file promises, stated against definitions that
    look only at the kinds of the lines (which model a line belongs to is
    decided by the FILE and NOFILE lines before it). */
module ParserFacts {
  import opened Text
  import opened Parts
  import opened Cameras
  import opened Parser

  // ---------------------------------------------------------------------------
  // Reference definitions over the raw lines

  /** The name tokens of the FILE lines, in file order. */
  function FileTokens(lines: seq<Line>): seq<string>
    decreases |lines|
  {
    if lines == [] then []
    else
      var last := lines[|lines| - 1];
      FileTokens(lines[..|lines| - 1]) + (if IsFileLine(last) then [last[2]] else [])
  }

  /** The model the next line belongs to: the one opened by the last FILE line,
      unless a NOFILE line came after it. */
  function Owner(lines: seq<Line>): Option<nat>
    decreases |lines|
  {
    if lines == [] then None
    else
      var init, last := lines[..|lines| - 1], lines[|lines| - 1];
      if IsFileLine(last) then Some(|FileTokens(init)|)
      else if IsNoFileLine(last) then None
      else Owner(init)
  }

  /** The parts of the `1` lines that belong to model `i` and come after
      exactly `k` of its STEP lines, in file order. */
  function PartsInStep(lines: seq<Line>, i: nat, k: nat): seq<Part>
    decreases |lines|
  {
    if lines == [] then []
    else
      var init, last := lines[..|lines| - 1], lines[|lines| - 1];
      PartsInStep(init, i, k)
        + (if IsPartLine(last) && Owner(init) == Some(i) && StepLines(init, i) == k then [PartOf(last)] else [])
  }

  /** How many STEP lines belong to model `i`. */
  function StepLines(lines: seq<Line>, i: nat): nat
    decreases |lines|
  {
    if lines == [] then 0
    else
      var init, last := lines[..|lines| - 1], lines[|lines| - 1];
      StepLines(init, i) + (if IsStepLine(last) && Owner(init) == Some(i) then 1 else 0)
  }

  /** The parts of the `1` lines that belong to model `i`, in file order. */
  function PartsIn(lines: seq<Line>, i: nat): seq<Part>
    decreases |lines|
  {
    if lines == [] then []
    else
      var init, last := lines[..|lines| - 1], lines[|lines| - 1];
      PartsIn(init, i) + (if IsPartLine(last) && Owner(init) == Some(i) then [PartOf(last)] else [])
  }

  // ---------------------------------------------------------------------------
  // One line

  /** A camera line touches neither the model list's names and steps, nor
      `model_dict`, nor the current model; a FOV line adds one camera and makes
      it current, the others keep the current camera. */
  lemma FeedCameraFrame(s: ParseState, x: Line, toReal: RealOf)
    requires ValidState(s) && |x| >= 4 && FeedCamera(s, x, toReal).Ok?
    ensures var s' := FeedCamera(s, x, toReal).value;
      && |s'.models| == |s.models| && s'.dict == s.dict && s'.current == s.current
      && (forall i | 0 <= i < |s.models| ::
            && s'.models[i].name == s.models[i].name
            && s'.models[i].suffix == s.models[i].suffix
            && s'.models[i].steps == s.models[i].steps)
      && (if x[3] == "FOV" then s'.camera == Some(|s.cams|) && |s'.cams| == |s.cams| + 1
          else s'.camera == s.camera && |s'.cams| == |s.cams|)
  {
  }

  /** What one successful line does to the model list, `model_dict`, the current
      model, the current camera, the step counts and the parts of every model;
      a line that is not a camera line leaves every camera and every model's
      stored cameras as they were. */
  lemma FeedFrame(s: ParseState, x: Line, toReal: RealOf)
    requires ValidState(s) && Feed(s, x, toReal).Ok?
    ensures var s' := Feed(s, x, toReal).value;
      && (IsFileLine(x) ==>
            && s'.models == s.models + [NewModel(x[2])]
            && s'.dict == s.dict[Upper(DropSuffix(x[2])) := |s.models|]
            && s'.current == Some(|s.models|))
      && (!IsFileLine(x) ==>
            && |s'.models| == |s.models|
            && s'.dict == s.dict
            && s'.current == (if IsNoFileLine(x) then None else s.current)
            && forall i | 0 <= i < |s.models| ::
                 s'.models[i].name == s.models[i].name && s'.models[i].suffix == s.models[i].suffix)
      && (forall i | 0 <= i < |s.models| ::
            |s'.models[i].steps| == |s.models[i].steps| + (if IsStepLine(x) && s.current == Some(i) then 1 else 0))
      && (forall i | 0 <= i < |s.models| && !(s.current == Some(i) && (IsStepLine(x) || IsPartLine(x))) ::
            s'.models[i].steps == s.models[i].steps)
      && (IsStepLine(x) ==>
            && s.current.Some?
            && s'.models[s.current.value].steps == s.models[s.current.value].steps + [[]])
      && (IsPartLine(x) ==>
            && s.current.Some?
            && var steps, steps' := s.models[s.current.value].steps, s'.models[s.current.value].steps;
               && |steps'| == |steps|
               && steps'[..|steps| - 1] == steps[..|steps| - 1]
               && steps'[|steps| - 1] == steps[|steps| - 1] + [PartOf(x)])
      && (forall i | 0 <= i < |s.models| ::
            Flat(s'.models[i].steps)
              == Flat(s.models[i].steps) + (if IsPartLine(x) && s.current == Some(i) then [PartOf(x)] else []))
      && (if IsCameraLine(x, "FOV") then s'.camera == Some(|s.cams|) && |s'.cams| == |s.cams| + 1
          else s'.camera == s.camera && |s'.cams| == |s.cams|)
      && (!(|x| >= 4 && x[0] == "0" && x[1] == "!LEOCAD" && x[2] == "CAMERA") ==>
            && s'.cams == s.cams
            && forall i | 0 <= i < |s.models| :: s'.models[i].cameras == s.models[i].cameras)
  {
    var s' := Feed(s, x, toReal).value;
    FeedShape(s, x, toReal);
    if |x| >= 4 && x[0] == "0" && x[1] == "!LEOCAD" && x[2] == "CAMERA" {
      FeedCameraFrame(s, x, toReal);
    } else if IsStepLine(x) {
      var m := s.models[s.current.value];
      FlatAppend(m.steps, []);
      assert m.steps + [[]] == s'.models[s.current.value].steps;
    } else if IsPartLine(x) {
      FlatExtendLast(s.models[s.current.value].steps, PartOf(x));
    }
  }

  /** The new parse state, line kind by line kind. */
  lemma FeedShape(s: ParseState, x: Line, toReal: RealOf)
    requires ValidState(s) && Feed(s, x, toReal).Ok?
    ensures var s' := Feed(s, x, toReal).value;
      if |x| >= 4 && x[0] == "0" && x[1] == "!LEOCAD" && x[2] == "CAMERA" then
        s' == FeedCamera(s, x, toReal).value
      else if IsFileLine(x) then
        s' == s.(models := s.models + [NewModel(x[2])],
                 dict := s.dict[Upper(DropSuffix(x[2])) := |s.models|],
                 current := Some(|s.models|))
      else if IsStepLine(x) then
        && s.current.Some?
        && var i := s.current.value;
           s' == s.(models := s.models[i := s.models[i].(steps := s.models[i].steps + [[]])])
      else if IsPartLine(x) then
        && s.current.Some?
        && var i := s.current.value;
           var n := |s.models[i].steps| - 1;
           s' == s.(models := s.models[i := s.models[i].(steps := s.models[i].steps[n := s.models[i].steps[n] + [PartOf(x)]])])
      else if IsNoFileLine(x) then
        s' == s.(current := None)
      else
        s' == s
  {
  }

  /** A `1` line appends exactly one part, to the last (current) step of the
      current model; no other step, model or camera changes. */
  lemma PartLineTouchesOnlyCurrentStep(s: ParseState, x: Line, toReal: RealOf)
    requires ValidState(s) && IsPartLine(x) && s.current.Some?
    ensures Feed(s, x, toReal).Ok?
    ensures var s' := Feed(s, x, toReal).value;
      var i := s.current.value;
      var n := |s.models[i].steps| - 1;
      && s'.cams == s.cams && s'.dict == s.dict && s'.current == s.current && s'.camera == s.camera
      && |s'.models| == |s.models|
      && (forall j | 0 <= j < |s.models| && j != i :: s'.models[j] == s.models[j])
      && s'.models[i].name == s.models[i].name && s'.models[i].suffix == s.models[i].suffix
      && s'.models[i].cameras == s.models[i].cameras
      && |s'.models[i].steps| == n + 1
      && s'.models[i].steps[..n] == s.models[i].steps[..n]
      && s'.models[i].steps[n] == s.models[i].steps[n] + [PartOf(x)]
  {
  }

  /** The Part built from a `1` line of at least four tokens prints back as the
      line itself, and its file name is the line's last token. */
  lemma PartLineText(x: Line)
    requires |x| >= 4 && x[0] == "1"
    ensures PartOf(x).ToString() == Join(x)
    ensures PartOf(x).Filename() == x[|x| - 1]
  {
    var mid := x[2..|x| - 1];
    var p := PartOf(x);
    PartOfFields(x);
    JoinOfPartLine(x);
    JoinFour("1", x[1], Join(mid), x[|x| - 1]);
    assert p.ToString() == Join(["1", x[1], Join(mid), x[|x| - 1]]);
  }

  lemma PartOfFields(x: Line)
    requires |x| >= 4
    ensures PartOf(x).part + PartOf(x).suffix == x[|x| - 1]
    ensures var last := x[|x| - 1];
      && (|last| >= 4 ==> PartOf(x).part == last[..|last| - 4] && PartOf(x).suffix == last[|last| - 4..])
      && (|last| < 4 ==> PartOf(x).part == "" && PartOf(x).suffix == last)
    ensures PartOf(x).colour == x[1] && PartOf(x).transformation == Join(x[2..|x| - 1])
  {
    var last := x[|x| - 1];
    assert DropSuffix(last) + Suffix(last) == last;
  }

  /** The tokens of a line of at least four tokens, joined, split as
      head, colour, middle, last. */
  lemma JoinOfPartLine(x: Line)
    requires |x| >= 4
    ensures Join(x) == x[0] + " " + x[1] + " " + Join(x[2..|x| - 1]) + " " + x[|x| - 1]
  {
    var head, mid, last := x[..2], x[2..|x| - 1], x[|x| - 1];
    assert head + mid + [last] == x;
    JoinConcat(head + mid, [last]);
    JoinConcat(head, mid);
    JoinTwo(x[0], x[1]);
    assert head == [x[0], x[1]];
  }

  lemma JoinTwo(a: string, b: string)
    ensures Join([a, b]) == a + " " + b
  {
    assert [a, b][1..] == [b];
  }

  lemma JoinFour(a: string, b: string, c: string, d: string)
    ensures Join([a, b, c, d]) == a + " " + b + " " + c + " " + d
  {
    assert [a, b, c, d][1..] == [b, c, d];
    assert [b, c, d][1..] == [c, d];
    JoinTwo(c, d);
  }

  /** Lines whose first token is neither `0` nor `1`, and `0` lines with a
      keyword the parser does not know, leave everything as it was. */
  lemma IgnoredLineChangesNothing(s: ParseState, x: Line, toReal: RealOf)
    requires ValidState(s) && IsIgnored(x)
    ensures Feed(s, x, toReal) == Ok(s)
  {
  }

  /** ... and so appending one to a file does not change its parse. */
  lemma IgnoredLineKeepsRun(lines: seq<Line>, x: Line, toReal: RealOf)
    requires IsIgnored(x)
    ensures Run(lines + [x], toReal) == Run(lines, toReal)
  {
    assert (lines + [x])[..|lines|] == lines;
    if Run(lines, toReal).Ok? {
      IgnoredLineChangesNothing(Run(lines, toReal).value, x, toReal);
    }
  }

  // ---------------------------------------------------------------------------
  // Whole files

  /** The models are the FILE lines in file order, each named by its token
      split at the last four characters, and the current model is the owner
      of the next line. */
  lemma {:induction false} ModelsFollowFileLines(lines: seq<Line>, toReal: RealOf)
    requires Run(lines, toReal).Ok?
    ensures var s := Run(lines, toReal).value;
      && |s.models| == |FileTokens(lines)|
      && (forall i | 0 <= i < |s.models| ::
            s.models[i].name == DropSuffix(FileTokens(lines)[i])
            && s.models[i].suffix == Suffix(FileTokens(lines)[i]))
      && s.current == Owner(lines)
    decreases |lines|
  {
    if lines != [] {
      var init := lines[..|lines| - 1];
      var s0 := Run(init, toReal).value;
      assert Run(lines, toReal).value == Feed(s0, lines[|lines| - 1], toReal).value;
      ModelsFollowFileLines(init, toReal);
      FeedFrame(s0, lines[|lines| - 1], toReal);
    }
  }

  /** `model_names` lists the uppercased name of every FILE line, in file order,
      duplicates included. */
  lemma ModelNamesInFileOrder(lines: seq<Line>, toReal: RealOf)
    requires Parse(lines, toReal).Ok?
    ensures var names := Parse(lines, toReal).value.names;
      && |names| == |FileTokens(lines)|
      && forall i | 0 <= i < |names| :: names[i] == Upper(DropSuffix(FileTokens(lines)[i]))
  {
    ModelsFollowFileLines(lines, toReal);
  }

  /** A model has one step more than the STEP lines in its scope: it is created
      with one empty step and each STEP line appends one. */
  lemma {:induction false} StepCountIsOnePlusStepLines(lines: seq<Line>, toReal: RealOf)
    requires Run(lines, toReal).Ok?
    ensures var s := Run(lines, toReal).value;
      forall i | 0 <= i < |s.models| :: |s.models[i].steps| == 1 + StepLines(lines, i)
    decreases |lines|
  {
    if lines != [] {
      var init := lines[..|lines| - 1];
      var x := lines[|lines| - 1];
      var s0 := Run(init, toReal).value;
      var s := Run(lines, toReal).value;
      assert s == Feed(s0, x, toReal).value;
      StepCountIsOnePlusStepLines(init, toReal);
      ModelsFollowFileLines(init, toReal);
      FeedFrame(s0, x, toReal);
      forall i | 0 <= i < |s.models|
        ensures |s.models[i].steps| == 1 + StepLines(lines, i)
      {
        assert StepLines(lines, i) == StepLines(init, i) + (if IsStepLine(x) && Owner(init) == Some(i) then 1 else 0);
        if i == |s0.models| {
          NoLinesForLaterModel(init, toReal, i);
        }
      }
    }
  }

  /** The parts of a model, step after step, are the parts of the `1` lines in
      its scope, in file order. */
  lemma {:induction false} PartsFollowPartLines(lines: seq<Line>, toReal: RealOf)
    requires Run(lines, toReal).Ok?
    ensures var s := Run(lines, toReal).value;
      forall i | 0 <= i < |s.models| :: Flat(s.models[i].steps) == PartsIn(lines, i)
    decreases |lines|
  {
    if lines != [] {
      var init := lines[..|lines| - 1];
      var x := lines[|lines| - 1];
      var s0 := Run(init, toReal).value;
      var s := Run(lines, toReal).value;
      assert s == Feed(s0, x, toReal).value;
      PartsFollowPartLines(init, toReal);
      ModelsFollowFileLines(init, toReal);
      FeedFrame(s0, x, toReal);
      forall i | 0 <= i < |s.models|
        ensures Flat(s.models[i].steps) == PartsIn(lines, i)
      {
        assert PartsIn(lines, i) == PartsIn(init, i) + (if IsPartLine(x) && Owner(init) == Some(i) then [PartOf(x)] else []);
        if i == |s0.models| {
          NoLinesForLaterModel(init, toReal, i);
          assert Flat([[]]) == [] by { FlatAppend([], []); }
        }
      }
    }
  }

  /** Every step of every model holds exactly the parts of the `1` lines of
      its scope that follow as many of the model's STEP lines as the step's
      number: a STEP line opens a new empty step at the end, and a part goes
      into the step opened last. */
  lemma {:induction false} StepsFollowStepLines(lines: seq<Line>, toReal: RealOf)
    requires Run(lines, toReal).Ok?
    ensures var s := Run(lines, toReal).value;
      forall i, k | 0 <= i < |s.models| && 0 <= k < |s.models[i].steps| ::
        s.models[i].steps[k] == PartsInStep(lines, i, k)
    decreases |lines|
  {
    if lines != [] {
      var init := lines[..|lines| - 1];
      var x := lines[|lines| - 1];
      var s0 := Run(init, toReal).value;
      var s := Run(lines, toReal).value;
      assert s == Feed(s0, x, toReal).value;
      StepsFollowStepLines(init, toReal);
      StepCountIsOnePlusStepLines(init, toReal);
      ModelsFollowFileLines(init, toReal);
      FeedFrame(s0, x, toReal);
      forall i, k | 0 <= i < |s.models| && 0 <= k < |s.models[i].steps|
        ensures s.models[i].steps[k] == PartsInStep(lines, i, k)
      {
        assert lines == init + [x];
        StepOfLine(init, x, toReal, i, k);
      }
    }
  }

  /** The induction step of `StepsFollowStepLines` for one step `k` of one
      model `i`, after the line `x`. */
  lemma StepOfLine(init: seq<Line>, x: Line, toReal: RealOf, i: nat, k: nat)
    requires Run(init, toReal).Ok?
    requires var s0 := Run(init, toReal).value;
      && s0.current == Owner(init)
      && (forall j | 0 <= j < |s0.models| :: |s0.models[j].steps| == 1 + StepLines(init, j))
      && (forall j, n | 0 <= j < |s0.models| && 0 <= n < |s0.models[j].steps| ::
            s0.models[j].steps[n] == PartsInStep(init, j, n))
    requires Feed(Run(init, toReal).value, x, toReal).Ok?
    requires var s := Feed(Run(init, toReal).value, x, toReal).value;
      i < |s.models| && k < |s.models[i].steps|
    ensures Feed(Run(init, toReal).value, x, toReal).value.models[i].steps[k] == PartsInStep(init + [x], i, k)
  {
    var s0 := Run(init, toReal).value;
    var s := Feed(s0, x, toReal).value;
    var lines := init + [x];
    assert lines[..|lines| - 1] == init && lines[|lines| - 1] == x;
    var here := IsPartLine(x) && Owner(init) == Some(i) && StepLines(init, i) == k;
    assert PartsInStep(lines, i, k) == PartsInStep(init, i, k) + (if here then [PartOf(x)] else []);
    FeedFrame(s0, x, toReal);
    if i == |s0.models| {
      NoLinesForLaterModel(init, toReal, i);
      NoPartsNoStepParts(init, i, k);
    } else if IsStepLine(x) && s0.current == Some(i) {
      if k == |s0.models[i].steps| {
        LaterStepEmpty(init, i, k);
      }
    }
  }

  /** A step number past the model's STEP lines holds no part. */
  lemma {:induction false} LaterStepEmpty(lines: seq<Line>, i: nat, k: nat)
    requires k > StepLines(lines, i)
    ensures PartsInStep(lines, i, k) == []
    decreases |lines|
  {
    if lines != [] {
      LaterStepEmpty(lines[..|lines| - 1], i, k);
    }
  }

  /** A model without `1` lines has no parts in any step. */
  lemma {:induction false} NoPartsNoStepParts(lines: seq<Line>, i: nat, k: nat)
    requires PartsIn(lines, i) == []
    ensures PartsInStep(lines, i, k) == []
    decreases |lines|
  {
    if lines != [] {
      NoPartsNoStepParts(lines[..|lines| - 1], i, k);
    }
  }

  /** No line belongs to a model that has not been opened yet. */
  lemma {:induction false} NoLinesForLaterModel(lines: seq<Line>, toReal: RealOf, i: nat)
    requires Run(lines, toReal).Ok? && i >= |Run(lines, toReal).value.models|
    ensures StepLines(lines, i) == 0 && PartsIn(lines, i) == []
    decreases |lines|
  {
    if lines != [] {
      var init := lines[..|lines| - 1];
      var s0 := Run(init, toReal).value;
      assert Run(lines, toReal).value == Feed(s0, lines[|lines| - 1], toReal).value;
      FeedFrame(s0, lines[|lines| - 1], toReal);
      ModelsFollowFileLines(init, toReal);
      NoLinesForLaterModel(init, toReal, i);
    }
  }

  /** `model_dict` has a key for every model name (uppercased), and each key
      maps to the LAST model registered under it. */
  ghost predicate DictKeepsLast(s: ParseState) {
    && (forall k :: k in s.dict <==> k in Names(s.models))
    && (forall k | k in s.dict ::
          && s.dict[k] < |s.models|
          && Upper(s.models[s.dict[k]].name) == k
          && forall j | s.dict[k] < j < |s.models| :: Upper(s.models[j].name) != k)
  }

  /** After any successful parse, `model_dict` keeps the last model of each
      name. */
  lemma {:induction false} DictKeepsLastModel(lines: seq<Line>, toReal: RealOf)
    requires Run(lines, toReal).Ok?
    ensures DictKeepsLast(Run(lines, toReal).value)
    decreases |lines|
  {
    if lines != [] {
      var init := lines[..|lines| - 1];
      var x := lines[|lines| - 1];
      var s0 := Run(init, toReal).value;
      assert Run(lines, toReal).value == Feed(s0, x, toReal).value;
      DictKeepsLastModel(init, toReal);
      FeedFrame(s0, x, toReal);
      if IsFileLine(x) {
        RegisterKeepsDict(s0, Run(lines, toReal).value, NewModel(x[2]));
      } else {
        RenameFreeKeepsDict(s0, Run(lines, toReal).value);
      }
    }
  }

  /** Registering a new model under its uppercased name keeps
      `DictKeepsLast`: the new model is the last of its name. */
  lemma RegisterKeepsDict(s0: ParseState, s: ParseState, m: ModelValue)
    requires DictKeepsLast(s0)
    requires s.models == s0.models + [m] && s.dict == s0.dict[Upper(m.name) := |s0.models|]
    ensures DictKeepsLast(s)
  {
    var key := Upper(m.name);
    assert Names(s.models) == Names(s0.models) + [key];
    forall k | k in s.dict
      ensures && s.dict[k] < |s.models|
              && Upper(s.models[s.dict[k]].name) == k
              && forall j | s.dict[k] < j < |s.models| :: Upper(s.models[j].name) != k
    {
      if k != key {
        assert s.dict[k] == s0.dict[k];
      }
    }
  }

  /** A line that neither adds nor renames models and leaves `model_dict`
      alone keeps `DictKeepsLast`. */
  lemma RenameFreeKeepsDict(s0: ParseState, s: ParseState)
    requires DictKeepsLast(s0)
    requires |s.models| == |s0.models| && s.dict == s0.dict
    requires forall i | 0 <= i < |s0.models| :: s.models[i].name == s0.models[i].name
    ensures DictKeepsLast(s)
  {
    assert Names(s.models) == Names(s0.models);
  }

  // ---------------------------------------------------------------------------
  // Aborting lines

  /** Once a line has raised, the lines after it are never read. */
  lemma {:induction false} ErrorsPersist(lines: seq<Line>, k: nat, toReal: RealOf)
    requires k <= |lines| && Run(lines[..k], toReal).Err?
    ensures Run(lines, toReal) == Run(lines[..k], toReal)
    decreases |lines|
  {
    if k < |lines| {
      var init := lines[..|lines| - 1];
      assert init[..k] == lines[..k];
      ErrorsPersist(init, k, toReal);
    } else {
      assert lines[..k] == lines;
    }
  }

  /** The first line that raises decides the outcome of the whole parse. */
  lemma FailingLineAborts(lines: seq<Line>, k: nat, toReal: RealOf)
    requires k < |lines| && Run(lines[..k], toReal).Ok?
    requires Feed(Run(lines[..k], toReal).value, lines[k], toReal).Err?
    ensures Run(lines, toReal)
         == Err(ParseError(k, Feed(Run(lines[..k], toReal).value, lines[k], toReal).error))
  {
    assert lines[..k + 1][..k] == lines[..k];
    ErrorsPersist(lines, k + 1, toReal);
  }

  /** A blank line aborts the parse: `x[0]` of an empty token list. */
  lemma BlankLineAborts(lines: seq<Line>, k: nat, toReal: RealOf)
    requires k < |lines| && lines[k] == [] && Run(lines[..k], toReal).Ok?
    ensures Run(lines, toReal) == Err(ParseError(k, MissingToken(0)))
  {
    FailingLineAborts(lines, k, toReal);
  }

  /** A STEP or `1` line outside every model (before the first FILE line, or
      after a NOFILE line) aborts the parse. */
  lemma OrphanLineAborts(lines: seq<Line>, k: nat, toReal: RealOf)
    requires k < |lines| && Run(lines[..k], toReal).Ok?
    requires Owner(lines[..k]) == None
    requires IsStepLine(lines[k]) || IsPartLine(lines[k])
    ensures Run(lines, toReal) == Err(ParseError(k, NoCurrentModel))
  {
    ModelsFollowFileLines(lines[..k], toReal);
    FailingLineAborts(lines, k, toReal);
  }

  /** The current camera exists exactly when some FOV line has been read; it is
      then the camera built last. */
  lemma {:induction false} CameraBoundByFov(lines: seq<Line>, toReal: RealOf)
    requires Run(lines, toReal).Ok?
    ensures var s := Run(lines, toReal).value;
      && (s.camera.None? <==> forall j | 0 <= j < |lines| :: !IsCameraLine(lines[j], "FOV"))
      && (s.camera.Some? ==> s.camera.value == |s.cams| - 1)
    decreases |lines|
  {
    if lines != [] {
      var init := lines[..|lines| - 1];
      var x := lines[|lines| - 1];
      CameraBoundByFov(init, toReal);
      var s0 := Run(init, toReal).value;
      assert Run(lines, toReal).value == Feed(s0, x, toReal).value;
      FeedFrame(s0, x, toReal);
      assert forall j | 0 <= j < |init| :: lines[j] == init[j];
    }
  }

  /** A camera attribute or NAME line before any FOV line aborts the parse. */
  lemma CameraBeforeFovAborts(lines: seq<Line>, k: nat, toReal: RealOf)
    requires k < |lines| && Run(lines[..k], toReal).Ok?
    requires forall j | 0 <= j < k :: !IsCameraLine(lines[j], "FOV")
    requires |lines[k]| >= 4 && IsCameraLine(lines[k], lines[k][3]) && IsCameraAttribute(lines[k][3])
    ensures Run(lines, toReal) == Err(ParseError(k, NoCurrentCamera))
  {
    CameraBoundByFov(lines[..k], toReal);
    FailingLineAborts(lines, k, toReal);
  }

  // ---------------------------------------------------------------------------
  // Cameras

  /** A FOV line builds a new camera and makes it current; the value read goes
      into the camera's name, and its field of view stays at the default 30. */
  lemma FovLineNamesNewCamera(s: ParseState, x: Line, toReal: RealOf)
    requires ValidState(s) && IsCameraLine(x, "FOV") && Feed(s, x, toReal).Ok?
    ensures |x| >= 5 && toReal(x[4]).Some?
    ensures var s' := Feed(s, x, toReal).value;
      && s'.cams == s.cams + [CameraValue(Number(toReal(x[4]).value), DefaultEye, DefaultLook, DefaultUp, 30.0)]
      && s'.camera == Some(|s.cams|)
      && s'.models == s.models && s'.dict == s.dict && s'.current == s.current
  {
  }

  /** NAME stores the current camera itself (its index, not a copy) in the
      current model's cameras; no camera changes. */
  lemma NameStoresCurrentCamera(s: ParseState, x: Line, toReal: RealOf)
    requires ValidState(s) && IsCameraLine(x, "NAME") && Feed(s, x, toReal).Ok?
    ensures s.camera.Some? && s.current.Some? && |x| >= 5
    ensures var s' := Feed(s, x, toReal).value;
      var i := s.current.value;
      && s'.cams == s.cams && s'.camera == s.camera && s'.current == s.current
      && |s'.models| == |s.models|
      && s'.models[i].cameras == s.models[i].cameras[x[4] := s.camera.value]
      && (forall j | 0 <= j < |s.models| && j != i :: s'.models[j] == s.models[j])
  {
  }

  function AttributeOf(keyword: string): Attribute
    requires keyword in ["POSITION", "TARGET_POSITION", "UP_VECTOR",
                         "POSITION_KEY", "TARGET_POSITION_KEY", "UP_VECTOR_KEY"]
  {
    if keyword in ["POSITION", "POSITION_KEY"] then Eye
    else if keyword in ["TARGET_POSITION", "TARGET_POSITION_KEY"] then Look
    else UpVector
  }

  /** An attribute line changes only the current camera, and only the one
      attribute it names. Every name that stores that camera, in any model,
      therefore sees the change. */
  lemma AttributeLineUpdatesCurrentCamera(s: ParseState, x: Line, toReal: RealOf)
    requires ValidState(s) && |x| >= 4 && IsCameraLine(x, x[3])
    requires x[3] in ["POSITION", "TARGET_POSITION", "UP_VECTOR",
                      "POSITION_KEY", "TARGET_POSITION_KEY", "UP_VECTOR_KEY"]
    requires Feed(s, x, toReal).Ok?
    ensures s.camera.Some?
    ensures var s' := Feed(s, x, toReal).value;
      var c := s.camera.value;
      var first := if x[3] in ["POSITION", "TARGET_POSITION", "UP_VECTOR"] then 4 else 5;
      && Coords(x, first, toReal).Ok?
      && s'.models == s.models && s'.dict == s.dict && s'.current == s.current && s'.camera == s.camera
      && |s'.cams| == |s.cams|
      && (forall d | 0 <= d < |s.cams| && d != c :: s'.cams[d] == s.cams[d])
      && s'.cams[c] == (match AttributeOf(x[3])
                         case Eye => s.cams[c].(eye := Coords(x, first, toReal).value)
                         case Look => s.cams[c].(look := Coords(x, first, toReal).value)
                         case UpVector => s.cams[c].(up := Coords(x, first, toReal).value))
  {
  }

  /** The `_KEY` variants skip the keyframe index: with it removed, the plain
      command does the same. */
  lemma KeyVariantSkipsIndex(s: ParseState, plain: string, keyed: string, index: string,
                             rest: seq<string>, toReal: RealOf)
    requires ValidState(s)
    requires (plain, keyed) in [("POSITION", "POSITION_KEY"), ("TARGET_POSITION", "TARGET_POSITION_KEY"),
                                ("UP_VECTOR", "UP_VECTOR_KEY")]
    ensures var withIndex := Feed(s, ["0", "!LEOCAD", "CAMERA", keyed, index] + rest, toReal);
      var without := Feed(s, ["0", "!LEOCAD", "CAMERA", plain] + rest, toReal);
      && withIndex.Ok? == without.Ok?
      && (withIndex.Ok? ==> withIndex.value == without.value)
  {
    var k := ["0", "!LEOCAD", "CAMERA", keyed, index] + rest;
    var u := ["0", "!LEOCAD", "CAMERA", plain] + rest;
    assert k[5..] == u[4..] == rest;
    assert Coords(k, 5, toReal).Ok? == Coords(u, 4, toReal).Ok?;
    assert Coords(k, 5, toReal).Ok? ==> Coords(k, 5, toReal).value == Coords(u, 4, toReal).value;
  }
}
