/** The project object (`Project` in instructions.py:213-290): the parse loop
    of its constructor, which builds Model, Step, Part and Camera objects in
    place, and the depth-first step generator with its shared `stepped` set.

    Each heap operation is proved against the value-level definitions: the
    parse loop against `Parser.Run`, and the generator against
    `Flatten.Expand`. The running `current_model` and `current_camera` are
    locals of the loop, as in the constructor; `cams` records, as ghost state,
    every camera object the loop built, in order, so that a model's stored
    cameras can be compared with the camera indices of the value model. */
module Projects {
  import opened Text
  import opened Parts
  import opened Cameras
  import opened Parser
  import opened Models
  import opened Flatten

  /** A model object holds exactly what a model value says: its name, its
      steps' parts, and under each camera name the camera object whose index
      the value records. */
  ghost predicate ModelMirrors(m: Model, v: ModelValue, cams: seq<Camera>)
    reads m, m.steps
  {
    && m.name == v.name
    && m.suffix == v.suffix
    && |m.steps| == |v.steps|
    && (forall k | 0 <= k < |m.steps| :: m.steps[k].parts == v.steps[k])
    && (forall n | n in m.cameras :: n in v.cameras)
    && forall n | n in v.cameras :: n in m.cameras && v.cameras[n] < |cams| && m.cameras[n] == cams[v.cameras[n]]
  }

  /** The replacement of model `i` of parse state `s` by the value `v`. */
  datatype ModelUpdate = ModelUpdate(s: ParseState, i: nat, v: ModelValue)

  class Project {
    var models: seq<Model>
    var modelDict: map<string, nat>
    var modelNames: seq<string>
    var stepped: set<nat>
    /** Every camera object the parse loop built, in order. */
    ghost var cams: seq<Camera>
    /** The models, their steps and the cameras. */
    ghost var Repr: set<object>
    /** The parsed project this object holds once the parse loop is done. */
    ghost var value: ProjectValue

    /** The object graph: the i-th model carries index i and is valid (so
        no step object is shared between models or steps), and the cameras
        are distinct objects. */
    ghost predicate Shaped()
      reads this`models, this`cams, models
    {
      && (forall i | 0 <= i < |models| :: models[i].index == i && models[i].Valid())
      && (forall b, c | 0 <= b < c < |cams| :: cams[b] != cams[c])
    }

    /** The step objects of all the models. */
    ghost function StepObjects(): set<Step>
      reads this`models, models
    {
      set i, k | 0 <= i < |models| && 0 <= k < |models[i].steps| :: models[i].steps[k]
    }

    /** `Repr` holds every object the project reaches, and not the project. */
    ghost predicate Owned()
      reads this`models, this`cams, this`Repr, models
    {
      && this !in Repr
      && (forall i | 0 <= i < |models| :: models[i] in Repr)
      && (forall i, k | 0 <= i < |models| && 0 <= k < |models[i].steps| :: models[i].steps[k] in Repr)
      && (forall c | 0 <= c < |cams| :: cams[c] in Repr)
    }

    /** The objects hold the given models, `model_dict` and cameras. */
    ghost predicate Mirrors(ms: seq<ModelValue>, dict: map<string, nat>, camValues: seq<CameraValue>)
      reads this`models, this`modelDict, this`cams, models, StepObjects(), cams
    {
      && |models| == |ms|
      && modelDict == dict
      && |cams| == |camValues|
      && (forall c | 0 <= c < |cams| :: cams[c].Value() == camValues[c])
      && (forall i | 0 <= i < |models| :: ModelMirrors(models[i], ms[i], cams))
    }

    /** The loop's `current_model` and `current_camera` are the objects the
        parse state points at (null where Python has None or nothing bound). */
    ghost predicate Current(s: ParseState, cur: Model?, cam: Camera?)
      reads this`models, this`cams
    {
      && (s.current.None? <==> cur == null)
      && (s.current.Some? ==> s.current.value < |models| && cur == models[s.current.value])
      && (s.camera.None? <==> cam == null)
      && (s.camera.Some? ==> s.camera.value < |cams| && cam == cams[s.camera.value])
    }

    /** A finished project: the objects hold `value`, and `model_names` is its
        name list. */
    ghost predicate Valid()
      reads this`models, this`modelDict, this`modelNames, this`cams, this`Repr, this`value, models, StepObjects(), cams
    {
      && Shaped()
      && Owned()
      && Mirrors(value.models, value.dict, value.cams)
      && modelNames == value.names
      && WellFormed(value)
    }

    /** What the step generator reads agrees with `value`: the models'
        steps, `model_dict` and `model_names`. A consequence of `Valid()`. */
    ghost predicate Expandable()
      reads this`models, this`modelDict, this`modelNames, this`value, models, StepObjects()
    {
      && WellFormed(value)
      && |models| == |value.models|
      && modelDict == value.dict
      && modelNames == value.names
      && (forall i | 0 <= i < |models| :: |models[i].steps| == |value.models[i].steps|)
      && (forall i, k | 0 <= i < |models| && 0 <= k < |models[i].steps| ::
            models[i].steps[k].parts == value.models[i].steps[k])
    }

    /** Since the old state only model object `i` changed: the lists, the
        other models, every step of the other models and every camera kept
        their values (`Repr` may have grown). */
    twostate predicate OnlyModelChanged(i: nat)
      reads this, models, StepObjects(), cams
    {
      && models == old(models) && cams == old(cams) && modelDict == old(modelDict)
      && i < |models|
      && (forall j | 0 <= j < |models| && j != i :: unchanged(models[j]))
      && (forall j, k | 0 <= j < |models| && j != i && 0 <= k < |models[j].steps| :: unchanged(models[j].steps[k]))
      && (forall c | 0 <= c < |cams| :: unchanged(cams[c]))
    }

    /** A change to model `i` alone that keeps it valid keeps the shape. */
    twostate lemma ShapeKept(i: nat)
      requires old(Shaped()) && OnlyModelChanged(i)
      requires models[i].index == i && models[i].Valid()
      ensures Shaped()
    {
      forall j | 0 <= j < |models| && j != i
        ensures models[j].index == j && models[j].Valid()
      {
        assert old(models[j].Valid());
      }
    }

    /** A change to model `i` alone whose steps are all in a grown `Repr`
        keeps `Repr` covering the objects. */
    twostate lemma OwnershipKept(i: nat)
      requires old(Owned()) && OnlyModelChanged(i)
      requires old(Repr) <= Repr && this !in Repr
      requires forall k | 0 <= k < |models[i].steps| :: models[i].steps[k] in Repr
      ensures Owned()
    {
      forall j, k | 0 <= j < |models| && 0 <= k < |models[j].steps|
        ensures models[j].steps[k] in Repr
      {
        if j != i {
          assert old(models[j].steps[k] in Repr);
        }
      }
    }

    /** A change to model `u.i` alone that makes it mirror `u.v` leaves the
        models mirroring the old values with model `u.i` replaced by `u.v`. */
    twostate lemma OneModelChanged(u: ModelUpdate)
      requires old(Mirrors(u.s.models, u.s.dict, u.s.cams)) && OnlyModelChanged(u.i)
      requires ModelMirrors(models[u.i], u.v, cams)
      ensures Mirrors(u.s.models[u.i := u.v], u.s.dict, u.s.cams)
    {
      forall j | 0 <= j < |models| && j != u.i
        ensures ModelMirrors(models[j], u.s.models[j], cams)
      {
        assert old(ModelMirrors(models[j], u.s.models[j], cams));
      }
    }

    /** Model object `u.i` was appended and no object of the old `Repr`
        changed: if the new model is valid, owned and mirrors `u.v`, the
        objects hold the old values with `u.v` appended. */
    twostate lemma ModelAppended(u: ModelUpdate)
      requires old(Shaped() && Owned() && Mirrors(u.s.models, u.s.dict, u.s.cams))
      requires unchanged(old(Repr)) && old(Repr) <= Repr && this !in Repr
      requires u.i == |old(models)| && |models| == u.i + 1 && models[..u.i] == old(models) && cams == old(cams)
      requires models[u.i].index == u.i && models[u.i].Valid() && models[u.i] in Repr
      requires forall k | 0 <= k < |models[u.i].steps| :: models[u.i].steps[k] in Repr
      requires ModelMirrors(models[u.i], u.v, cams)
      ensures Shaped() && Owned() && Mirrors(u.s.models + [u.v], modelDict, u.s.cams)
    {
      forall j | 0 <= j < u.i
        ensures models[j] == old(models[j]) && unchanged(models[j])
        ensures forall k | 0 <= k < |models[j].steps| :: unchanged(models[j].steps[k])
      {
        assert models[j] == models[..u.i][j];
      }
      forall c | 0 <= c < |cams|
        ensures cams[c].Value() == u.s.cams[c]
      {
        assert old(cams[c].Value()) == u.s.cams[c];
      }
      forall j | 0 <= j < |models|
        ensures ModelMirrors(models[j], (u.s.models + [u.v])[j], cams)
      {
        if j < u.i {
          assert old(ModelMirrors(models[j], u.s.models[j], cams));
        }
      }
    }

    /** The attributes the constructor sets before reading the file. */
    constructor ()
      ensures Shaped() && Owned() && Mirrors([], map[], []) && fresh(Repr)
      ensures stepped == {}
    {
      models := [];
      modelDict := map[];
      modelNames := [];
      stepped := {};
      cams := [];
      Repr := {};
      value := ProjectValue([], map[], [], []);
    }

    // -------------------------------------------------------------------------
    // The parse loop

    /** `Project(filename)` on the file's lines: the project the value-level
        parse describes, or the first line that raised and why. */
    static method Load(lines: seq<Line>, toReal: RealOf) returns (r: Result<Project, ParseError>)
      ensures r.Ok? <==> Parse(lines, toReal).Ok?
      ensures r.Err? ==> r.error == Parse(lines, toReal).error
      ensures r.Ok? ==> && fresh(r.value) && r.value.Valid() && r.value.stepped == {}
                        && r.value.value == Parse(lines, toReal).value
    {
      var p := new Project();
      var cur: Model? := null;
      var cam: Camera? := null;
      assert lines[..0] == [];
      for i := 0 to |lines|
        invariant Run(lines[..i], toReal).Ok?
        invariant fresh(p) && fresh(p.Repr) && p.stepped == {}
        invariant var s := Run(lines[..i], toReal).value;
          p.Shaped() && p.Owned() && p.Mirrors(s.models, s.dict, s.cams) && p.Current(s, cur, cam)
      {
        ghost var s := Run(lines[..i], toReal).value;
        assert lines[..i + 1][..i] == lines[..i];
        var f;
        f, cur, cam := p.ReadLine(lines[i], toReal, cur, cam, s);
        if f.Some? {
          ParserFacts.FailingLineAborts(lines, i, toReal);
          return Err(ParseError(i, f.value));
        }
      }
      assert lines[..|lines|] == lines;
      Flatten.ParsedProjectIsWellFormed(lines, toReal);
      p.Finish(Parse(lines, toReal).value);
      r := Ok(p);
    }

    /** The end of the constructor: `model_names` lists the models' uppercased
        names, and the objects now hold the parsed project. */
    method Finish(ghost v: ProjectValue)
      requires Shaped() && Owned() && Mirrors(v.models, v.dict, v.cams)
      requires v.names == Names(v.models) && WellFormed(v)
      modifies this`modelNames, this`value
      ensures Valid() && value == v
    {
      var ms := models;
      modelNames := seq(|ms|, k requires 0 <= k < |ms| => Upper(ms[k].name));
      value := v;
    }

    /** One pass of the loop body: the line's effect on the objects, or the
        exception it raises. */
    method ReadLine(x: Line, toReal: RealOf, cur: Model?, cam: Camera?, ghost s: ParseState)
      returns (f: Option<Failure>, cur': Model?, cam': Camera?)
      requires ValidState(s) && Shaped() && Owned() && Mirrors(s.models, s.dict, s.cams) && Current(s, cur, cam)
      modifies this`models, this`modelDict, this`cams, this`Repr, Repr
      ensures fresh(Repr - old(Repr)) && stepped == old(stepped)
      ensures f.Some? <==> Feed(s, x, toReal).Err?
      ensures f.Some? ==> f.value == Feed(s, x, toReal).error
      ensures f.None? ==>
        var s' := Feed(s, x, toReal).value;
        Shaped() && Owned() && Mirrors(s'.models, s'.dict, s'.cams) && Current(s', cur', cam')
    {
      f, cur', cam' := None, cur, cam;
      if |x| == 0 {
        f := Some(MissingToken(0));
      } else if x[0] == "0" {
        f, cur', cam' := ReadMeta(x, toReal, cur, cam, s);
      } else if x[0] == "1" {
        f := ReadPart(x, toReal, cur, cam, s);
      }
    }

    /** A line starting with `0`: a meta command, or a comment. */
    method ReadMeta(x: Line, toReal: RealOf, cur: Model?, cam: Camera?, ghost s: ParseState)
      returns (f: Option<Failure>, cur': Model?, cam': Camera?)
      requires |x| > 0 && x[0] == "0"
      requires ValidState(s) && Shaped() && Owned() && Mirrors(s.models, s.dict, s.cams) && Current(s, cur, cam)
      modifies this`models, this`modelDict, this`cams, this`Repr, Repr
      ensures fresh(Repr - old(Repr))
      ensures f.Some? <==> Feed(s, x, toReal).Err?
      ensures f.Some? ==> f.value == Feed(s, x, toReal).error
      ensures f.None? ==>
        var s' := Feed(s, x, toReal).value;
        Shaped() && Owned() && Mirrors(s'.models, s'.dict, s'.cams) && Current(s', cur', cam')
    {
      f, cur', cam' := None, cur, cam;
      if |x| < 2 {
        f := Some(MissingToken(1));
      } else if x[1] == "FILE" {
        if |x| < 3 {
          f := Some(MissingToken(2));
        } else {
          cur' := OpenModel(x[2], s);
        }
      } else if x[1] == "NOFILE" {
        cur' := null;
      } else if x[1] == "STEP" {
        if cur == null {
          f := Some(NoCurrentModel);
        } else {
          AddStepTo(cur, s.current.value, s);
        }
      } else if x[1] == "!LEOCAD" {
        if |x| < 3 {
          f := Some(MissingToken(2));
        } else if x[2] == "CAMERA" {
          if |x| < 4 {
            f := Some(MissingToken(3));
          } else {
            f, cam' := ReadCamera(x, toReal, cur, cam, s);
          }
        }
      }
    }

    /** A line starting with `1`: a part for the current step. */
    method ReadPart(x: Line, toReal: RealOf, cur: Model?, cam: Camera?, ghost s: ParseState)
      returns (f: Option<Failure>)
      requires |x| > 0 && x[0] == "1"
      requires ValidState(s) && Shaped() && Owned() && Mirrors(s.models, s.dict, s.cams) && Current(s, cur, cam)
      modifies Repr
      ensures f.Some? <==> Feed(s, x, toReal).Err?
      ensures f.Some? ==> f.value == Feed(s, x, toReal).error
      ensures f.None? ==>
        var s' := Feed(s, x, toReal).value;
        Shaped() && Owned() && Mirrors(s'.models, s'.dict, s'.cams) && Current(s', cur, cam)
    {
      f := None;
      if |x| < 2 {
        f := Some(MissingToken(1));
      } else if cur == null {
        f := Some(NoCurrentModel);
      } else {
        AddPartTo(cur, s.current.value, PartOf(x), s);
      }
    }

    /** A `0 !LEOCAD CAMERA` line. */
    method ReadCamera(x: Line, toReal: RealOf, cur: Model?, cam: Camera?, ghost s: ParseState)
      returns (f: Option<Failure>, cam': Camera?)
      requires |x| >= 4
      requires ValidState(s) && Shaped() && Owned() && Mirrors(s.models, s.dict, s.cams) && Current(s, cur, cam)
      modifies this`cams, this`Repr, Repr
      ensures fresh(Repr - old(Repr)) && models == old(models) && modelDict == old(modelDict)
      ensures f.Some? <==> FeedCamera(s, x, toReal).Err?
      ensures f.Some? ==> f.value == FeedCamera(s, x, toReal).error
      ensures f.None? ==>
        var s' := FeedCamera(s, x, toReal).value;
        Shaped() && Owned() && Mirrors(s'.models, s'.dict, s'.cams) && Current(s', cur, cam')
    {
      f, cam' := None, cam;
      var keyword := x[3];
      if keyword == "FOV" {
        match Coord(x, 4, toReal)
        case Err(e) => f := Some(e);
        case Ok(v) => cam' := NewCamera(v, s);
      } else if keyword == "POSITION" {
        f := ReadAttribute(x, 4, Eye, toReal, cur, cam, s);
      } else if keyword == "TARGET_POSITION" {
        f := ReadAttribute(x, 4, Look, toReal, cur, cam, s);
      } else if keyword == "UP_VECTOR" {
        f := ReadAttribute(x, 4, UpVector, toReal, cur, cam, s);
      } else if keyword == "POSITION_KEY" {
        f := ReadAttribute(x, 5, Eye, toReal, cur, cam, s);
      } else if keyword == "TARGET_POSITION_KEY" {
        f := ReadAttribute(x, 5, Look, toReal, cur, cam, s);
      } else if keyword == "UP_VECTOR_KEY" {
        f := ReadAttribute(x, 5, UpVector, toReal, cur, cam, s);
      } else if keyword == "NAME" {
        f := ReadName(x, toReal, cur, cam, s);
      }
    }

    /** `CAMERA NAME`: the camera is looked up first, then the model, then
        the name token. */
    method ReadName(x: Line, toReal: RealOf, cur: Model?, cam: Camera?, ghost s: ParseState)
      returns (f: Option<Failure>)
      requires |x| >= 4 && x[3] == "NAME"
      requires ValidState(s) && Shaped() && Owned() && Mirrors(s.models, s.dict, s.cams) && Current(s, cur, cam)
      modifies models
      ensures f.Some? <==> FeedCamera(s, x, toReal).Err?
      ensures f.Some? ==> f.value == FeedCamera(s, x, toReal).error
      ensures f.None? ==>
        var s' := FeedCamera(s, x, toReal).value;
        Shaped() && Owned() && Mirrors(s'.models, s'.dict, s'.cams) && Current(s', cur, cam)
    {
      f := None;
      if cam == null {
        f := Some(NoCurrentCamera);
      } else if cur == null {
        f := Some(NoCurrentModel);
      } else if |x| < 5 {
        f := Some(MissingToken(4));
      } else {
        NameCamera(cur, s.current.value, x[4], cam, s.camera.value, s);
      }
    }

    /** A camera line that sets one vector of the current camera from the
        three numbers starting at token `first`. */
    method ReadAttribute(x: Line, first: nat, a: Attribute, toReal: RealOf, cur: Model?, cam: Camera?, ghost s: ParseState)
      returns (f: Option<Failure>)
      requires ValidState(s) && Shaped() && Owned() && Mirrors(s.models, s.dict, s.cams) && Current(s, cur, cam)
      modifies cams
      ensures f.Some? <==> SetAttribute(s, x, first, a, toReal).Err?
      ensures f.Some? ==> f.value == SetAttribute(s, x, first, a, toReal).error
      ensures f.None? ==>
        var s' := SetAttribute(s, x, first, a, toReal).value;
        Shaped() && Owned() && Mirrors(s'.models, s'.dict, s'.cams) && Current(s', cur, cam)
    {
      f := None;
      if cam == null {
        f := Some(NoCurrentCamera);
      } else {
        match Coords(x, first, toReal)
        case Err(e) => f := Some(e);
        case Ok(v) => SetCameraAttribute(cam, s.camera.value, a, v, s);
      }
    }

    /** `0 FILE`: a new model, appended and registered in `model_dict` under
        its uppercased name. */
    method OpenModel(token: string, ghost s: ParseState) returns (m: Model)
      requires Shaped() && Owned() && Mirrors(s.models, s.dict, s.cams)
      modifies this`models, this`modelDict, this`Repr
      ensures fresh(Repr - old(Repr)) && cams == old(cams)
      ensures models == old(models) + [m]
      ensures Shaped() && Owned() && Mirrors(s.models + [NewModel(token)],
                                  s.dict[Upper(DropSuffix(token)) := |s.models|], s.cams)
    {
      m := new Model(DropSuffix(token), Suffix(token), |models|);
      ghost var added: set<object> := {m, m.currentStep};
      assert fresh(added);
      models, modelDict, Repr := models + [m], modelDict[Upper(m.name) := |models|], Repr + added;
      assert models == old(models) + [m];
      ModelAppended(ModelUpdate(s, |s.models|, NewModel(token)));
    }

    /** `0 STEP`: the current model gets one more, empty, step. */
    method AddStepTo(m: Model, ghost i: nat, ghost s: ParseState)
      requires Shaped() && Owned() && Mirrors(s.models, s.dict, s.cams) && i < |models| && m == models[i]
      modifies m, this`Repr
      ensures fresh(Repr - old(Repr))
      ensures Shaped() && Owned() && Mirrors(s.models[i := s.models[i].(steps := s.models[i].steps + [[]])], s.dict, s.cams)
    {
      m.AddStep();
      ghost var added: set<object> := {m.currentStep};
      assert fresh(added);
      Repr := Repr + added;
      assert OnlyModelChanged(i);
      ShapeKept(i);
      OwnershipKept(i);
      OneModelChanged(ModelUpdate(s, i, s.models[i].(steps := s.models[i].steps + [[]])));
    }

    /** A `1` line: the part goes into the current step of the current model. */
    method AddPartTo(m: Model, ghost i: nat, q: Part, ghost s: ParseState)
      requires Shaped() && Owned() && Mirrors(s.models, s.dict, s.cams) && i < |models| && m == models[i]
      modifies m.currentStep
      ensures var n := |s.models[i].steps| - 1;
        Shaped() && Owned() && Mirrors(s.models[i := s.models[i].(steps := s.models[i].steps[n := s.models[i].steps[n] + [q]])],
                            s.dict, s.cams)
    {
      m.AddPart(q);
    }

    /** `CAMERA FOV`: a new camera, named by the number read. */
    method NewCamera(v: real, ghost s: ParseState) returns (c: Camera)
      requires Shaped() && Owned() && Mirrors(s.models, s.dict, s.cams)
      modifies this`cams, this`Repr
      ensures fresh(Repr - old(Repr)) && fresh(c)
      ensures cams == old(cams) + [c]
      ensures Shaped() && Owned() && Mirrors(s.models, s.dict, s.cams + [Fresh(Number(v))])
    {
      c := new Camera(Number(v));
      ghost var added: set<object> := {c};
      cams, Repr := cams + [c], Repr + added;
      forall j | 0 <= j < |models|
        ensures ModelMirrors(models[j], s.models[j], cams)
      {
        assert old(ModelMirrors(models[j], s.models[j], cams));
        assert forall n | n in s.models[j].cameras :: cams[s.models[j].cameras[n]] == old(cams)[s.models[j].cameras[n]];
      }
    }

    /** `set_eye`, `set_look` or `set_up` on the current camera. */
    method SetCameraAttribute(cam: Camera, ghost c: nat, a: Attribute, v: Vec3, ghost s: ParseState)
      requires Shaped() && Owned() && Mirrors(s.models, s.dict, s.cams) && c < |cams| && cam == cams[c]
      modifies cam
      ensures Shaped() && Owned() && Mirrors(s.models, s.dict, s.cams[c := WithAttribute(s.cams[c], a, v)])
    {
      match a
      case Eye => cam.SetEye(v.0, v.1, v.2);
      case Look => cam.SetLook(v.0, v.1, v.2);
      case UpVector => cam.SetUp(v.0, v.1, v.2);
    }

    /** `CAMERA NAME`: the current camera object is stored in the current
        model under the name; later attribute lines still reach it. */
    method NameCamera(m: Model, ghost i: nat, key: string, cam: Camera, ghost c: nat, ghost s: ParseState)
      requires Shaped() && Owned() && Mirrors(s.models, s.dict, s.cams)
      requires i < |models| && m == models[i] && c < |cams| && cam == cams[c]
      modifies m
      ensures Shaped() && Owned()
      ensures Mirrors(s.models[i := s.models[i].(cameras := s.models[i].cameras[key := c])], s.dict, s.cams)
    {
      m.cameras := m.cameras[key := cam];
      assert OnlyModelChanged(i);
      ShapeKept(i);
      OwnershipKept(i);
      OneModelChanged(ModelUpdate(s, i, s.models[i].(cameras := s.models[i].cameras[key := c])));
    }

    // -------------------------------------------------------------------------
    // The step generator

    /** `model_steps(models[mi])`: marks the model as expanded, then, step by
        step, yields what the step's parts expand to and the step itself. The
        triples and the final `stepped` are those of `Expand`. */
    method ModelSteps(mi: nat) returns (out: seq<Entry>)
      requires Expandable() && mi < |models| && mi !in stepped && stepped <= Indices(value)
      modifies this`stepped
      ensures (out, stepped) == Expand(value, mi, old(stepped))
      decreases |Indices(value) - stepped|, 0
    {
      ghost var p := value;
      ghost var v := stepped;
      stepped := stepped + {mi};
      ghost var whole := Expand(p, mi, v);
      assert whole == ExpandSteps(p, mi, 0, stepped);
      var model := models[mi];
      assert |model.steps| == |p.models[mi].steps|;
      out := [];
      for sn := 0 to |model.steps|
        invariant value == p && mi in stepped && v <= stepped <= Indices(p)
        invariant whole.0 == out + ExpandSteps(p, mi, sn, stepped).0
        invariant whole.1 == ExpandSteps(p, mi, sn, stepped).1
      {
        ghost var vs := stepped;
        var e := Entry(sn, mi, model.steps[sn].parts);
        assert e == Entry(sn, mi, p.models[mi].steps[sn]);
        Fewer(Indices(p), v, mi, stepped);
        var sub := StepSubmodels(mi, sn);
        ghost var rest := ExpandSteps(p, mi, sn + 1, stepped).0;
        assert ExpandSteps(p, mi, sn, vs).0 == (sub + [e]) + rest;
        Regroup(out, sub + [e], rest);
        out := out + (sub + [e]);
      }
      assert out + ExpandSteps(p, mi, |model.steps|, stepped).0 == out;
    }

    /** The inner loop of `model_steps`: for each part of step `sn` of model
        `mi` whose uppercased name is in `model_names` and whose model is not
        yet expanded, the triples of that model's expansion, as `ExpandParts`
        gives them. */
    method StepSubmodels(mi: nat, sn: nat) returns (out: seq<Entry>)
      requires Expandable() && mi < |models| && mi in stepped && stepped <= Indices(value)
      requires sn < |models[mi].steps|
      modifies this`stepped
      ensures (out, stepped) == ExpandParts(value, mi, sn, 0, old(stepped))
      decreases |Indices(value) - stepped|, 1
    {
      ghost var p := value;
      ghost var v := stepped;
      var step := models[mi].steps[sn];
      assert step.parts == p.models[mi].steps[sn];
      out := [];
      for k := 0 to |step.parts|
        invariant value == p && v <= stepped <= Indices(p)
        invariant ExpandParts(p, mi, sn, 0, v).0 == out + ExpandParts(p, mi, sn, k, stepped).0
        invariant ExpandParts(p, mi, sn, 0, v).1 == ExpandParts(p, mi, sn, k, stepped).1
      {
        var name := Upper(step.parts[k].part);
        if name in modelNames && modelDict[name] !in stepped {
          Remaining(Indices(p), v, stepped);
          var sub := ModelSteps(modelDict[name]);
          Regroup(out, sub, ExpandParts(p, mi, sn, k + 1, stepped).0);
          out := out + sub;
        }
      }
      assert out + ExpandParts(p, mi, sn, |step.parts|, stepped).0 == out;
    }

    /** `steps()`: `stepped` starts empty and the first model is expanded; a
        project without models raises IndexError (None). */
    method Steps() returns (r: Option<seq<Entry>>)
      requires Valid()
      modifies this`stepped
      ensures r == Flatten.Steps(value)
      ensures |models| == 0 ==> stepped == {}
      ensures |models| > 0 ==> stepped == Flatten.Expanded(value)
    {
      stepped := {};
      if |models| == 0 {
        return None;
      }
      assert Expandable();
      var out := ModelSteps(0);
      return Some(out);
    }
  }
}
