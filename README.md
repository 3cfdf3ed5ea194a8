# LDraw instructions: parser, step flattener and part inventories

A Dafny model of the core of `instructions.py`. That script reads an
LDraw-style model file and builds a `Project` from it: a list of `Model`
objects, each made of `Step`s that place `Part`s, plus `!LEOCAD` cameras
stored in the models under a name. From a project it produces:

- the build steps in instruction order (`Project.steps`): a depth-first
  expansion that emits every submodel whole before each step that names it
  (unless that step lies on a cycle through the submodel), expands exactly
  the models reachable from the first one, and never expands a model twice;
- the part inventories of a step or a model (`unique_parts`, `num_parts`);
- camera vectors translated into the POV-Ray axis convention.

The model has two layers.

- **Values** are pure definitions:
  - `Parser.Feed` is one pass of the parse loop, `Parser.Run` the loop over
    all lines, and `Parser.Parse` the whole constructor.
  - `Flatten.Expand`, `ExpandSteps` and `ExpandParts` are the recursion of
    `model_steps`.
  - `Parts.UniqueOf` and `Parts.CountOf` are the inventories.
- **Objects** are classes updated in place, as in the script:
  - `Parts.Step`, `Models.Model`, `Cameras.Camera` and `Projects.Project`.
  - Each method is proved against the value layer. The parse loop
    `Project.Load` ends in exactly the state `Parser.Parse` describes, or
    fails on the same line with the same exception. `Project.Steps` returns
    exactly `Flatten.Steps`.

The properties are proved about the value layer:
- `ParserFacts` covers what each kind of line does and which lines abort
  the parse.
- `Flatten` covers each model reachable from the first one being expanded
  exactly once (and no other model), step order, the output length, and
  every submodel being emitted whole before each step that names it. The
  only exception is a step that lies on a cycle through the submodel, where
  the submodel reaches the step's own model. In a project without such
  cycles, there is no exception.
- `Parts` covers the inventories.

Object identity is represented by position:
- a model is referred to by its index in the model list, so `model_dict`
  is a `map<string, nat>` and `stepped` is a `set<nat>`;
- a camera is referred to by its index in the list of every camera the
  parse built;
- step objects carry a ghost `(model, step)` id, so they can be told apart.

The model keeps the following behaviours of the code as they are, although
a reader of the script might expect otherwise:

- **Nested FILE lines.** A `0 FILE` line inside an open model is not
  rejected. It opens a new model and makes it current
  (instructions.py:224-227).
- **FOV.** `Camera(float(x[4]))` binds the number to the constructor's
  first parameter, `name`. The camera's field of view stays at the default
  30, and the camera is named by a number (`Cameras.CameraName.Number`)
  (instructions.py:118, 234).
- **Camera NAME.** `CAMERA NAME n` stores the current camera object in the
  current model's `cameras` under `n`. It does not rename the camera
  (instructions.py:247-248).
- **Inventory keys.** They are `(p.part, p.colour)` with the identifier in
  its original casing; only the exclusion test uppercases
  (instructions.py:97-109).
- **Exclusion test.** It is `p.part.upper() not in ignore`. It is
  case-insensitive only if the `ignore` entries are already uppercase
  (instructions.py:100, 107).
- **Extra tokens.** Tokens after the ones a command reads are ignored.
  Only missing tokens are fatal (IndexError).
- **Axis translation.** The docstring at instructions.py:62 says POV-Ray
  coordinates are `x, -z, -y`, while the code at lines 70 and 135 computes
  `(x, -z, y)`. The model computes what the code computes.

## Model

| member | source | states |
|---|---|---|
| Text.JoinConcat | instructions.py:252 | `' '.join` of two non-empty token lists is the two joins with one space between them |
| Parts.Part.ToString | instructions.py:50-51 | stated by `ParserFacts.PartLineText`: the part a `1` line builds prints back as that line's tokens joined by single spaces |
| Parts.Part.Filename | instructions.py:53-54 | stated by `Parts.FilenameSplits`: the file name splits back into identifier and suffix, and by `ParserFacts.PartLineText`: it is the last token of the `1` line |
| Parts.NewPart | instructions.py:44 | stated by `Parts.FilenameSplits`: a part built with the default `.DAT` suffix splits back to its identifier |
| Parts.FilenameSplits | instructions.py:53-54 | splitting `filename()` at the last four characters, as the parser does, gives back the identifier and the suffix when the suffix has four characters, as the default `.DAT` does |
| Parts.CountMatchesUnique | instructions.py:97-109 | the keys of `num_parts(ignore)` are exactly `unique_parts(ignore)`, and the counts add up to the number of parts the exclusion test keeps |
| Parts.CountAppend | instructions.py:181-185 | the Counter of a concatenation of parts is the sum of the Counters |
| Parts.UniqueAppend | instructions.py:178-179 | the unique-parts set of a concatenation of parts is the union of the sets |
| Parts.UnionOverSteps | instructions.py:178-179 | the union over the steps of their unique-parts sets is the unique-parts set of all the steps' parts |
| Parts.Step.constructor | instructions.py:91-92 | a new step has no parts |
| Parts.Step.AddPart | instructions.py:94-95 | the part is appended at the end of the step's parts |
| Parts.Step.UniqueParts | instructions.py:97-102 | the loop builds exactly the set of `(part, colour)` keys of the parts whose uppercased identifier is not ignored |
| Parts.Step.NumParts | instructions.py:104-109 | the loop builds exactly the multiset of those keys, one count per kept part |
| Cameras.ToPov | instructions.py:134-135 | the inverse axis map (a, b, c) to (a, c, -b) takes the result back to the input |
| Cameras.PovRoundTrip | instructions.py:134-135 | `to_pov` maps (x, y, z) to (x, -z, y), and (a, b, c) to (a, c, -b) undoes it on both sides, so it is a bijection |
| Cameras.PovInjective | instructions.py:134-135 | distinct vectors have distinct POV-Ray images |
| Cameras.Camera.constructor | instructions.py:118-123 | the camera holds the given name, eye, target, up vector and field of view, with the defaults (600, -1200, 600), (0, 0, 0), (0, 0, 1) and 30 |
| Cameras.Camera.SetEye | instructions.py:125-126 | only the eye changes, to (x, y, z) |
| Cameras.Camera.SetLook | instructions.py:128-129 | only the target changes, to (x, y, z) |
| Cameras.Camera.SetUp | instructions.py:131-132 | only the up vector changes, to (x, y, z) |
| Cameras.Camera.EyePov | instructions.py:137-138 | the translated eye maps back to the eye |
| Cameras.Camera.LookPov | instructions.py:140-141 | the translated target maps back to the target |
| Cameras.Camera.UpPov | instructions.py:143-144 | the translated up vector maps back to the up vector |
| Cameras.Camera.FovPov | instructions.py:146-147 | the renderer's field of view divided by 1.5 is the camera's |
| Models.Model.constructor | instructions.py:160-166 | a new model has the given name and suffix, no cameras, and exactly one step, which is empty and current |
| Models.Model.AddStep | instructions.py:168-170 | one new empty step is appended and becomes the current step; earlier steps and the cameras are unchanged |
| Models.Model.AddPart | instructions.py:172-173 | the part is appended to the current (last) step only; the model's parts, flattened, gain exactly this part at the end |
| Models.Model.UniqueParts | instructions.py:178-179 | the union over the steps is the unique-parts set of all the model's parts |
| Models.Model.NumParts | instructions.py:181-185 | the sum of the steps' Counters is the Counter of all the model's parts |
| Parser.NewModel | instructions.py:225 | the model's name and suffix put together give back the FILE token; it has one empty step and no cameras |
| Parser.PartOf | instructions.py:250-253 | the part's colour is token 1; the last token splits before its last four characters into identifier and suffix, and a token shorter than four is all suffix |
| Parser.Names | instructions.py:256 | stated by `ParserFacts.ModelNamesInFileOrder`: `model_names` is the uppercased FILE names in file order |
| Parser.Parse | instructions.py:214-256 | stated by `Flatten.ParsedProjectIsWellFormed` and the `ParserFacts` lemmas about whole files, and matched by `Projects.Project.Load` on the objects |
| Parser.SetAttribute | instructions.py:235-246 | setting a camera vector keeps every reference in the parse state valid |
| Parser.FeedCamera | instructions.py:232-248 | a camera line keeps every reference in the parse state valid |
| Parser.Feed | instructions.py:221-254 | one line keeps every reference valid and every model with at least one step |
| Parser.Run | instructions.py:220-254 | after any prefix of the file that parses, the references are valid and every model has a step |
| ParserFacts.FeedCameraFrame | instructions.py:232-248 | a camera line leaves the model list, `model_dict`, the current model and every model's steps alone; FOV appends a camera and makes it current, the other commands keep the current camera |
| ParserFacts.FeedFrame | instructions.py:223-254 | one line's effect: FILE appends and registers a model; STEP appends an empty step at the end of the current model's steps; `1` appends a part to the current model's last step and leaves its earlier steps alone; no other line changes any model's steps; a line that is not a camera line leaves every camera value and every model's stored cameras unchanged; nothing else changes the models, `model_dict` or the current camera |
| ParserFacts.PartLineTouchesOnlyCurrentStep | instructions.py:249-254 | a `1` line with a current model succeeds and appends exactly one part to that model's last step; no other step, model or camera changes |
| ParserFacts.PartOfFields | instructions.py:250-253 | the part's colour is token 1, its transformation is tokens 2 to n-2 joined by spaces, and the last token splits before its last four characters into identifier and suffix (all suffix when shorter) |
| ParserFacts.PartLineText | instructions.py:50-51 | for a `1` line of at least four tokens, `Part.tostring()` is the line's tokens joined by single spaces, and `filename()` is the last token |
| ParserFacts.IgnoredLineChangesNothing | instructions.py:221-254 | a line whose first token is neither `0` nor `1`, or a `0` line with an unknown keyword, leaves the parse state unchanged |
| ParserFacts.IgnoredLineKeepsRun | instructions.py:221-254 | appending such a line to a file does not change its parse |
| ParserFacts.ModelsFollowFileLines | instructions.py:224-229 | the models are the FILE lines in file order, named and suffixed by the token split at the last four characters, and the current model is the one the last FILE line opened unless a NOFILE came after it |
| ParserFacts.ModelNamesInFileOrder | instructions.py:256 | `model_names` is the uppercased name of every FILE line in file order, duplicates included |
| ParserFacts.StepCountIsOnePlusStepLines | instructions.py:224-231 | every model has one step more than the STEP lines in its scope |
| ParserFacts.StepsFollowStepLines | instructions.py:224-254 | step `k` of each model holds exactly the parts of the `1` lines in the model's scope that follow exactly `k` of its STEP lines, in file order |
| ParserFacts.PartsFollowPartLines | instructions.py:249-254 | a model's parts, step after step, are the parts of the `1` lines in its scope, in file order |
| ParserFacts.NoLinesForLaterModel | instructions.py:224-231 | no STEP or `1` line belongs to a model not yet opened |
| ParserFacts.DictKeepsLastModel | instructions.py:227 | `model_dict` has a key for every uppercased model name, and each key maps to the last model registered under it |
| ParserFacts.ErrorsPersist | instructions.py:220-254 | once a line has raised, later lines do not change the outcome |
| ParserFacts.FailingLineAborts | instructions.py:220-254 | the first line that raises decides the outcome: its index and its exception |
| ParserFacts.BlankLineAborts | instructions.py:222-223 | a blank line raises IndexError on `x[0]` |
| ParserFacts.OrphanLineAborts | instructions.py:228-231 | a STEP or `1` line before the first FILE line, or after a NOFILE line, aborts the parse (no current model) |
| ParserFacts.CameraBoundByFov | instructions.py:233-234 | a current camera exists exactly when some FOV line has been read, and it is the camera built last |
| ParserFacts.CameraBeforeFovAborts | instructions.py:235-248 | a camera attribute or NAME line before any FOV line aborts the parse (`current_camera` unbound) |
| ParserFacts.FovLineNamesNewCamera | instructions.py:233-234 | FOV appends a camera whose name is the number read and whose other attributes are the defaults (field of view 30), and makes it current |
| ParserFacts.NameStoresCurrentCamera | instructions.py:247-248 | NAME stores the current camera itself, not a copy, in the current model's cameras under token 4; no camera and no other model changes |
| ParserFacts.AttributeLineUpdatesCurrentCamera | instructions.py:235-246 | an attribute line changes only the named vector of the current camera, read from tokens 4-6 for the plain commands and 5-7 for the `_KEY` ones; a model that stores that camera sees the change |
| ParserFacts.KeyVariantSkipsIndex | instructions.py:235-246 | a `_KEY` command with its keyframe index removed behaves exactly like the plain command |
| Flatten.Target | instructions.py:280-281 | the model a part names through `model_names` and `model_dict` exists |
| Flatten.Steps | instructions.py:287-290 | stated by `Flatten.VisitsReachableOnce` and `Flatten.StepCountReachable`: None without models (IndexError), otherwise each model reachable from the first yields its whole step sequence once |
| Flatten.Expand | instructions.py:276-284 | expanding a model marks it, and `stepped` only grows, within the model indices |
| Flatten.ExpandSteps | instructions.py:278-284 | the loop over the steps only adds models to `stepped` |
| Flatten.ExpandParts | instructions.py:279-283 | the loop over a step's parts only adds models to `stepped` |
| Flatten.ExpandOf | instructions.py:276-284 | one expansion yields each model's whole step sequence if it expanded that model, and nothing of it otherwise |
| Flatten.ExpandStepsOf | instructions.py:278-284 | the same for the steps from `sn` on: the rest of the model's own steps, then the whole of each model it expanded |
| Flatten.ExpandPartsOf | instructions.py:279-283 | the same for the parts of one step: the whole of each model it expanded |
| Flatten.ExpandClosed | instructions.py:276-284 | every model a yielded step refers to is in `stepped` when the call returns |
| Flatten.ExpandStepsClosed | instructions.py:278-284 | the same for the steps from `sn` on |
| Flatten.ExpandPartsClosed | instructions.py:279-283 | the same for the parts of one step, and every model named by a part from `pi` on is in `stepped` afterwards |
| Flatten.ExpandIntroduces | instructions.py:276-284 | every model expanded by the call, other than the one it started from, is emitted whole before a step that refers to it |
| Flatten.ExpandStepsIntroduces | instructions.py:278-284 | the same for the steps from `sn` on |
| Flatten.ExpandPartsIntroduces | instructions.py:279-283 | the same for the parts of one step; a model expanded by a part of that step is emitted whole and is named by one of the remaining parts |
| Flatten.StepIntroduces | instructions.py:278-284 | around one emitted step, a model introduced before it, emitted whole right before it and named by it, or only introduced after it, is introduced in the whole output |
| Flatten.ExpandStepsEndsWithLast | instructions.py:284 | the expansion of a model's steps ends with its last step |
| Flatten.EachModelOnce | instructions.py:276-290 | every model is expanded at most once: an expanded model yields its whole step sequence once, in increasing step order; the others yield nothing; the first model is always expanded |
| Flatten.EntriesAreSteps | instructions.py:284 | every yielded triple `(sn, m, s)` has `s == m.steps[sn]`, and `m` was expanded |
| Flatten.StepCount | instructions.py:276-290 | the number of triples is the sum of the step counts of the distinct expanded models |
| Flatten.ReferencesExpanded | instructions.py:279-283 | every model a yielded step refers to by name has been expanded |
| Flatten.SubmodelBeforeReference | instructions.py:278-284 | every expanded submodel is emitted whole before some step that refers to it |
| Flatten.ExpandBlocksFirst | instructions.py:276-284 | every entry of one expansion belongs to a model its starting model reaches; every step in it that names a model comes after that model's whole block, unless the model was expanded before the call or reaches the step's own model |
| Flatten.ExpandStepsBlocksFirst | instructions.py:278-284 | the same for the steps from `sn` on |
| Flatten.ExpandPartsBlocksFirst | instructions.py:279-283 | the same for the parts of one step from `pi` on |
| Flatten.BlockBeforeEachReference | instructions.py:276-290 | every step of `steps()` that names a model comes after that model's whole block, unless the named model reaches the step's own model (the step lies on a cycle through it) |
| Flatten.AcyclicBlockBeforeEachReference | instructions.py:276-290 | in a project where no model reaches a model that names it, every step that names a model comes after that model's whole block |
| Flatten.LastIsRootsLastStep | instructions.py:287-290 | the last triple is the last step of the first model |
| Flatten.ExpandWithin | instructions.py:276-284 | an expansion starting in a set of models closed under naming expands only models of that set |
| Flatten.ExpandStepsWithin | instructions.py:278-284 | the same for the steps from `sn` on |
| Flatten.ExpandPartsWithin | instructions.py:279-283 | the same for the parts of one step from `pi` on |
| Flatten.ExpandedClosed | instructions.py:276-290 | a model named by a step of an expanded model is expanded too |
| Flatten.PathStaysInside | instructions.py:279-281 | a chain of naming parts that starts in a closed set of models ends in it |
| Flatten.ReachableClosed | instructions.py:279-281 | the models reachable from the first one, defined by chains of parts that name models, contain the first model and are closed under naming |
| Flatten.ExpandedIsReachable | instructions.py:276-290 | `steps()` expands exactly the models reachable from the first one |
| Flatten.ExpandedIsLeastClosed | instructions.py:276-290 | the expanded models are the least set that holds the first model and is closed under naming |
| Flatten.VisitsReachableOnce | instructions.py:276-290 | every reachable model yields its whole step sequence exactly once, in step order; an unreachable one yields nothing |
| Flatten.StepCountReachable | instructions.py:276-290 | the number of triples is the sum of the step counts of the distinct models reachable from the first one |
| Flatten.ParsedProjectIsWellFormed | instructions.py:227-256 | after a parse, `model_dict` points at models, every name in `model_names` is a key of `model_dict`, and every model has a step |
| Projects.Project.constructor | instructions.py:215-218 | a project starts with no models, an empty `model_dict` and no cameras |
| Projects.Project.Load | instructions.py:214-256 | the constructor succeeds exactly when the value-level parse does: then it holds that project and `model_names`; otherwise it reports the same failing line and the same exception |
| Projects.Project.Finish | instructions.py:256 | `model_names` becomes the uppercased model names, and the objects hold the parsed project |
| Projects.Project.ReadLine | instructions.py:221-254 | one pass of the loop body on the objects does what `Feed` does to the parse state, or raises what `Feed` raises |
| Projects.Project.ReadMeta | instructions.py:223-248 | the same for a line starting with `0` |
| Projects.Project.ReadPart | instructions.py:249-254 | the same for a `1` line |
| Projects.Project.ReadCamera | instructions.py:232-248 | the same for a `0 !LEOCAD CAMERA` line |
| Projects.Project.ReadName | instructions.py:247-248 | the same for `CAMERA NAME`: camera checked first, then model, then the name token |
| Projects.Project.ReadAttribute | instructions.py:235-246 | the same for the six attribute commands |
| Projects.Project.OpenModel | instructions.py:224-227 | `0 FILE` appends a new model object, registers its index under the uppercased name, and the objects mirror the new parse state |
| Projects.Project.AddStepTo | instructions.py:230-231 | `0 STEP` gives the current model object one more empty step; the objects mirror the new parse state |
| Projects.Project.AddPartTo | instructions.py:254 | a `1` line's part goes into the current step of the current model object; the objects mirror the new parse state |
| Projects.Project.NewCamera | instructions.py:233-234 | `CAMERA FOV` builds a new camera object named by the number; the objects mirror the new parse state |
| Projects.Project.SetCameraAttribute | instructions.py:235-246 | one vector of the current camera object changes; every model storing that object sees it |
| Projects.Project.NameCamera | instructions.py:247-248 | the current camera object is stored in the current model object under the name |
| Projects.Project.ModelSteps | instructions.py:276-284 | `model_steps` yields exactly the triples of `Expand` and leaves `stepped` as `Expand` does |
| Projects.Project.StepSubmodels | instructions.py:279-283 | the inner loop over a step's parts yields exactly the triples of `ExpandParts` and leaves `stepped` as `ExpandParts` does |
| Projects.Project.Steps | instructions.py:287-290 | `steps()` yields exactly `Flatten.Steps`, which is None (IndexError) for a project without models; `stepped` is then empty, and otherwise it is the set of expanded models |

## Left out

- Rendering and output are not modelled: `render_ldraw_pov`,
  `render_ldraw_leocad`, `mkdir_p`, `Part.render`, `Part.part_test`,
  `Model.render_steps_pov`, `Project.render_parts`, `render_steps`,
  `render_extra` and `generate_html`. They are subprocess calls, temporary
  files and HTML output.
- `Part.imgname`, `Step.tostring`, `Model.tostring`, `Model.imgname` and
  `Camera.tostring` are not modelled. They build image file names and LDraw
  text that only the renderers and the HTML report consume
  (instructions.py:56-57, 111-115, 151-155, 187-193, 317). `Camera.tostring`
  also depends on `%d`/`%f` float formatting. `Model.tostring` always puts an
  empty line before `0 NOFILE`, so its output does not parse back: the parser raises IndexError on a blank line
  (instructions.py:111-115, 187-190, 222-223).
- `Model.add_submodel` and the `submodels` list are dead code:
  `add_submodel` indexes a list with a string.
- Reading the file (`open`, `line.strip().split()`) is replaced by a
  sequence of token lists, one per line. `float()` is the parameter
  `toReal`, whose `None` stands for ValueError. Coordinates are reals, with
  no floating-point rounding.
- The script is Python 2 and reads the file as byte strings. The model
  treats them as strings of characters, one per byte. `Text.Upper` folds
  exactly the ASCII letters a-z, as Python 2's `str.upper()` does under the
  default C locale.
- The `filename` attribute of `Project` is not modelled; only the renderers
  read it.
- Projects.Project.ModelSteps: the generator is modelled as a method that
  returns the whole sequence of triples. A consumer that stops early and
  sees only a prefix is not modelled. A triple's step object is given by
  its parts, not by its identity.
- Projects.Project.StepSubmodels is the inner loop of `model_steps` written
  as a method of its own. The recursion is unchanged.
- Projects.Project.constructor sets `stepped` to the empty set. In the
  script the attribute exists only after the first `steps()` call, and
  `steps()` resets it first in both versions.
- Python's `self.model_dict[name] not in self.stepped` compares model
  objects by identity. The model compares model indices, which name the
  same objects.
- Flatten.ExpandParts: no lemma of its own states that submodels first
  referenced in the same step come in part order. It holds by the
  definition, which expands a step's parts left to right.
