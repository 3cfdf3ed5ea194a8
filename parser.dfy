/** The line parser of `Project.__init__` (instructions.py:213-256), as a
    function of the lines read so far.

    A line arrives already split on whitespace (`line.strip().split()`); the
    conversion `float(token)` is the parameter `toReal` (None stands for the
    ValueError it raises). The parser keeps a running current model and a
    running current camera. Objects the Python code shares by reference are
    named here by their position: models by their index in the model list,
    cameras by their index in the list of every camera the parser built. */
module Parser {
  import opened Text
  import opened Parts
  import opened Cameras

  type Line = seq<string>
  type RealOf = string -> Option<real>

  datatype Result<+T, +E> = Ok(value: T) | Err(error: E) {
    predicate IsFailure() { Err? }
    function PropagateFailure<U>(): Result<U, E> requires Err? { Err(error) }
    function Extract(): T requires Ok? { value }
  }

  /** How a line aborts the parse: the exception the Python code raises. */
  datatype Failure =
    | MissingToken(index: nat)   // IndexError: x[index] on a shorter token list
    | NoCurrentModel             // AttributeError: current_model is None
    | NoCurrentCamera            // UnboundLocalError: no FOV line has bound current_camera
    | NotANumber(token: string)  // ValueError from float(token)

  /** The first failing line (counted from 0) and why it failed. */
  datatype ParseError = ParseError(line: nat, failure: Failure)

  /** The value of a `Model` object: its steps' parts, and its cameras as
      indices into the list of all cameras. */
  datatype ModelValue = ModelValue(name: string, suffix: string, steps: seq<seq<Part>>, cameras: map<string, nat>)

  /** Everything the loop has built after some lines: the models in file order,
      `model_dict` (uppercased name to model index), every camera built so far,
      and the two running pointers `current_model` and `current_camera`. */
  datatype ParseState = ParseState(
    models: seq<ModelValue>,
    dict: map<string, nat>,
    cams: seq<CameraValue>,
    current: Option<nat>,
    camera: Option<nat>)

  /** The finished project: the parse state's collections plus `model_names`. */
  datatype ProjectValue = ProjectValue(
    models: seq<ModelValue>,
    dict: map<string, nat>,
    cams: seq<CameraValue>,
    names: seq<string>)

  /** The references in a parse state point at things that exist, and every
      model has at least one step. */
  predicate ValidState(s: ParseState) {
    && (forall i | 0 <= i < |s.models| ::
          && |s.models[i].steps| > 0
          && forall n | n in s.models[i].cameras :: s.models[i].cameras[n] < |s.cams|)
    && (forall k | k in s.dict :: s.dict[k] < |s.models|)
    && (s.current.Some? ==> s.current.value < |s.models|)
    && (s.camera.Some? ==> s.camera.value < |s.cams|)
  }

  const Start: ParseState := ParseState([], map[], [], None, None)

  /** `Model(x[2][:-4], x[2][-4:])`: a model starts with one empty step. */
  function NewModel(token: string): (r: ModelValue)
    ensures r.name + r.suffix == token
    ensures r.steps == [[]] && r.cameras == map[]
  {
    ModelValue(DropSuffix(token), Suffix(token), [[]], map[])
  }

  /** The Part a `1` line places: colour token 1, the tokens between it and the
      last joined by spaces, and the last token split into name and suffix. */
  function PartOf(x: Line): (r: Part)
    requires |x| >= 2
    ensures r.colour == x[1] && r.part + r.suffix == x[|x| - 1]
    ensures var last := x[|x| - 1];
      && (|last| >= 4 ==> r.part == last[..|last| - 4] && r.suffix == last[|last| - 4..])
      && (|last| < 4 ==> r.part == "" && r.suffix == last)
  {
    var last := x[|x| - 1];
    assert DropSuffix(last) + Suffix(last) == last;
    Part(DropSuffix(last), x[1], Join(if |x| >= 3 then x[2..|x| - 1] else []), Suffix(last))
  }

  // ---------------------------------------------------------------------------
  // Line kinds, used by the statements about whole files

  predicate IsFileLine(x: Line) { |x| >= 3 && x[0] == "0" && x[1] == "FILE" }
  predicate IsNoFileLine(x: Line) { |x| >= 2 && x[0] == "0" && x[1] == "NOFILE" }
  predicate IsStepLine(x: Line) { |x| >= 2 && x[0] == "0" && x[1] == "STEP" }
  predicate IsPartLine(x: Line) { |x| >= 2 && x[0] == "1" }
  predicate IsCameraLine(x: Line, keyword: string) {
    |x| >= 4 && x[0] == "0" && x[1] == "!LEOCAD" && x[2] == "CAMERA" && x[3] == keyword
  }

  /** The camera commands that act on the current camera. */
  predicate IsCameraAttribute(keyword: string) {
    keyword in ["POSITION", "TARGET_POSITION", "UP_VECTOR",
                "POSITION_KEY", "TARGET_POSITION_KEY", "UP_VECTOR_KEY", "NAME"]
  }

  /** Lines the parser reads past without any effect. */
  predicate IsIgnored(x: Line) {
    && |x| > 0
    && (|| (x[0] != "0" && x[0] != "1")
        || (|x| >= 2 && x[0] == "0" && x[1] !in ["FILE", "NOFILE", "STEP", "!LEOCAD"])
        || (|x| >= 3 && x[0] == "0" && x[1] == "!LEOCAD" && x[2] != "CAMERA")
        || (|x| >= 4 && x[0] == "0" && x[1] == "!LEOCAD" && x[2] == "CAMERA"
              && x[3] != "FOV" && !IsCameraAttribute(x[3])))
  }

  // ---------------------------------------------------------------------------
  // One line

  /** `float(x[k])`, failing first on a missing token, then on a bad number. */
  function Coord(x: Line, k: nat, toReal: RealOf): Result<real, Failure> {
    if |x| <= k then Err(MissingToken(k))
    else match toReal(x[k])
      case None => Err(NotANumber(x[k]))
      case Some(v) => Ok(v)
  }

  /** `float(x[k]), float(x[k+1]), float(x[k+2])`, evaluated left to right. */
  function Coords(x: Line, k: nat, toReal: RealOf): Result<Vec3, Failure> {
    var a :- Coord(x, k, toReal);
    var b :- Coord(x, k + 1, toReal);
    var c :- Coord(x, k + 2, toReal);
    Ok((a, b, c))
  }

  datatype Attribute = Eye | Look | UpVector

  /** A camera with one of its vectors replaced. */
  function WithAttribute(cam: CameraValue, a: Attribute, v: Vec3): CameraValue {
    match a
    case Eye => cam.(eye := v)
    case Look => cam.(look := v)
    case UpVector => cam.(up := v)
  }

  /** `current_camera.set_eye/set_look/set_up(...)` with coordinates from token
      `first` on: the unbound camera is noticed before the arguments are read. */
  function SetAttribute(s: ParseState, x: Line, first: nat, a: Attribute, toReal: RealOf): (r: Result<ParseState, Failure>)
    requires ValidState(s)
    ensures r.Ok? ==> ValidState(r.value)
  {
    match s.camera
    case None => Err(NoCurrentCamera)
    case Some(c) =>
      var v :- Coords(x, first, toReal);
      Ok(s.(cams := s.cams[c := WithAttribute(s.cams[c], a, v)]))
  }

  /** A `0 !LEOCAD CAMERA <keyword> ...` line. */
  function FeedCamera(s: ParseState, x: Line, toReal: RealOf): (r: Result<ParseState, Failure>)
    requires ValidState(s) && |x| >= 4
    ensures r.Ok? ==> ValidState(r.value)
  {
    var keyword := x[3];
    if keyword == "FOV" then
      // Camera(float(x[4])): the value lands in `name`; fov keeps its default
      var v :- Coord(x, 4, toReal);
      Ok(s.(cams := s.cams + [Fresh(Number(v))], camera := Some(|s.cams|)))
    else if keyword == "POSITION" then SetAttribute(s, x, 4, Eye, toReal)
    else if keyword == "TARGET_POSITION" then SetAttribute(s, x, 4, Look, toReal)
    else if keyword == "UP_VECTOR" then SetAttribute(s, x, 4, UpVector, toReal)
    else if keyword == "POSITION_KEY" then SetAttribute(s, x, 5, Eye, toReal)
    else if keyword == "TARGET_POSITION_KEY" then SetAttribute(s, x, 5, Look, toReal)
    else if keyword == "UP_VECTOR_KEY" then SetAttribute(s, x, 5, UpVector, toReal)
    else if keyword == "NAME" then
      // current_model.cameras[x[4]] = current_camera: the right-hand side first
      match s.camera
      case None => Err(NoCurrentCamera)
      case Some(c) =>
        match s.current
        case None => Err(NoCurrentModel)
        case Some(i) =>
          if |x| < 5 then Err(MissingToken(4))
          else
            var m := s.models[i];
            Ok(s.(models := s.models[i := m.(cameras := m.cameras[x[4] := c])]))
    else Ok(s)
  }

  /** One pass of the loop body of `Project.__init__`. */
  function Feed(s: ParseState, x: Line, toReal: RealOf): (r: Result<ParseState, Failure>)
    requires ValidState(s)
    ensures r.Ok? ==> ValidState(r.value)
  {
    if |x| == 0 then Err(MissingToken(0))
    else if x[0] == "0" then
      if |x| < 2 then Err(MissingToken(1))
      else if x[1] == "FILE" then
        if |x| < 3 then Err(MissingToken(2))
        else
          var m := NewModel(x[2]);
          Ok(s.(models := s.models + [m], dict := s.dict[Upper(m.name) := |s.models|],
                current := Some(|s.models|)))
      else if x[1] == "NOFILE" then Ok(s.(current := None))
      else if x[1] == "STEP" then
        match s.current
        case None => Err(NoCurrentModel)
        case Some(i) =>
          var m := s.models[i];
          Ok(s.(models := s.models[i := m.(steps := m.steps + [[]])]))
      else if x[1] == "!LEOCAD" then
        if |x| < 3 then Err(MissingToken(2))
        else if x[2] != "CAMERA" then Ok(s)
        else if |x| < 4 then Err(MissingToken(3))
        else FeedCamera(s, x, toReal)
      else Ok(s)
    else if x[0] == "1" then
      if |x| < 2 then Err(MissingToken(1))
      else
        match s.current
        case None => Err(NoCurrentModel)
        case Some(i) =>
          var m := s.models[i];
          var n := |m.steps| - 1;
          Ok(s.(models := s.models[i := m.(steps := m.steps[n := m.steps[n] + [PartOf(x)]])]))
    else Ok(s)
  }

  /** The loop over all lines: the state after the last line, or the first
      line that raised. */
  function Run(lines: seq<Line>, toReal: RealOf): (r: Result<ParseState, ParseError>)
    ensures r.Ok? ==> ValidState(r.value)
    decreases |lines|
  {
    if lines == [] then Ok(Start)
    else
      var s :- Run(lines[..|lines| - 1], toReal);
      match Feed(s, lines[|lines| - 1], toReal)
      case Err(f) => Err(ParseError(|lines| - 1, f))
      case Ok(s') => Ok(s')
  }

  /** `model_names`: the uppercased model names in file order. */
  function Names(models: seq<ModelValue>): seq<string> {
    seq(|models|, i requires 0 <= i < |models| => Upper(models[i].name))
  }

  /** `Project(filename)` on the file's lines. */
  function Parse(lines: seq<Line>, toReal: RealOf): Result<ProjectValue, ParseError> {
    var s :- Run(lines, toReal);
    Ok(ProjectValue(s.models, s.dict, s.cams, Names(s.models)))
  }
}
