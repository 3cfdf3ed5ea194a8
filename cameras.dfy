/** Named viewpoints read from `!LEOCAD CAMERA` lines, and their translation
    into the axis convention of the POV-Ray renderer (`Camera` in
    instructions.py). Coordinates are reals: the text-to-float conversion is
    a parameter of the parser, not part of this module. */
module Cameras {

  type Vec3 = (real, real, real)

  /** What a camera is called. The parser's `Camera(float(x[4]))` binds the
      field of view to the first constructor parameter, `name`, so a parsed
      camera is named by a number until nothing renames it. */
  datatype CameraName = Label(text: string) | Number(value: real)

  /** `to_pov`: model space (x, y, z) to renderer space (x, -z, y). */
  function ToPov(v: Vec3): (r: Vec3)
    ensures FromPov(r) == v
  {
    (v.0, -v.2, v.1)
  }

  /** The inverse axis map, (a, b, c) to (a, c, -b). */
  function FromPov(v: Vec3): Vec3 {
    (v.0, v.2, -v.1)
  }

  /** `to_pov` is a bijection and `FromPov` undoes it on both sides. */
  lemma PovRoundTrip(v: Vec3)
    ensures FromPov(ToPov(v)) == v && ToPov(FromPov(v)) == v
  {
  }

  /** Distinct model-space vectors stay distinct in renderer space. */
  lemma PovInjective(a: Vec3, b: Vec3)
    ensures ToPov(a) == ToPov(b) ==> a == b
  {
    PovRoundTrip(a);
    PovRoundTrip(b);
  }

  const DefaultEye: Vec3 := (600.0, -1200.0, 600.0)
  const DefaultLook: Vec3 := (0.0, 0.0, 0.0)
  const DefaultUp: Vec3 := (0.0, 0.0, 1.0)
  const DefaultFov: real := 30.0

  /** The value of a camera object at one moment. */
  datatype CameraValue = CameraValue(name: CameraName, eye: Vec3, look: Vec3, up: Vec3, fov: real)

  /** A camera object as built by `Camera(v)`: every other attribute at its default. */
  function Fresh(name: CameraName): CameraValue {
    CameraValue(name, DefaultEye, DefaultLook, DefaultUp, DefaultFov)
  }

  /** A camera; the parser keeps setting the eye, target and up vector of the
      one it built last, even after it has been stored under a name. */
  class Camera {
    var name: CameraName
    var eye: Vec3
    var look: Vec3
    var up: Vec3
    var fov: real

    function Value(): CameraValue
      reads this
    {
      CameraValue(name, eye, look, up, fov)
    }

    /** `Camera.__init__` with its default arguments. */
    constructor (name: CameraName := Label("camera"), eye: Vec3 := DefaultEye,
                 look: Vec3 := DefaultLook, up: Vec3 := DefaultUp, fov: real := DefaultFov)
      ensures Value() == CameraValue(name, eye, look, up, fov)
    {
      this.name := name;
      this.eye := eye;
      this.look := look;
      this.up := up;
      this.fov := fov;
    }

    /** `set_eye` */
    method SetEye(x: real, y: real, z: real)
      modifies this
      ensures Value() == old(Value()).(eye := (x, y, z))
    {
      eye := (x, y, z);
    }

    /** `set_look` */
    method SetLook(x: real, y: real, z: real)
      modifies this
      ensures Value() == old(Value()).(look := (x, y, z))
    {
      look := (x, y, z);
    }

    /** `set_up` */
    method SetUp(x: real, y: real, z: real)
      modifies this
      ensures Value() == old(Value()).(up := (x, y, z))
    {
      up := (x, y, z);
    }

    /** `get_eye_pov`: the eye in renderer space, which maps back to the eye. */
    function EyePov(): (r: Vec3)
      reads this
      ensures FromPov(r) == eye
    {
      ToPov(eye)
    }

    /** `get_look_pov` */
    function LookPov(): (r: Vec3)
      reads this
      ensures FromPov(r) == look
    {
      ToPov(look)
    }

    /** `get_up_pov` */
    function UpPov(): (r: Vec3)
      reads this
      ensures FromPov(r) == up
    {
      ToPov(up)
    }

    /** `get_fov_pov`: the renderer's field of view is one and a half times
        the camera's, so dividing by 1.5 recovers the camera's. */
    function FovPov(): (r: real)
      reads this
      ensures r / 1.5 == fov
    {
      fov * 1.5
    }
  }
}
