/** The body of `main`: load the two transform files, check that the first
    file's child frame is the second file's parent frame, multiply the two
    matrices and save the product with the outer two frame ids. */
module Composition {
  import opened Document
  import opened Geometry
  import opened Loader
  import opened Saver

  /** A transform between two named frames: `matrix` maps coordinates in
      frame `child` to coordinates in frame `parent`. */
  datatype FrameTransform = FrameTransform(parent: string, child: string, matrix: Matrix4)

  /** What a file loads to in `main`, whose frame strings start out empty. */
  function Loaded(file: Option<Node>, readReal: string -> Option<real>): Option<FrameTransform> {
    if file.Some? && Record(file.value, readReal).Some? then
      var rec := Record(file.value, readReal).value;
      Some(FrameTransform(FrameOr(rec.parent, ""), FrameOr(rec.child, ""),
                          Homogeneous(RotationMatrix(rec.rotation), rec.translation)))
    else None
  }

  /** The chain check and the product: two transforms compose exactly when the
      first one's child frame is the second one's parent frame. */
  function Compose(a: FrameTransform, b: FrameTransform): (r: Option<FrameTransform>) {
    if a.child != b.parent then None
    else Some(FrameTransform(a.parent, b.child, Mul(a.matrix, b.matrix)))
  }

  /** The transform `main` saves for two files, if it gets that far. */
  function Pipeline(first: Option<Node>, second: Option<Node>, readReal: string -> Option<real>): Option<FrameTransform> {
    var a, b := Loaded(first, readReal), Loaded(second, readReal);
    if a.Some? && b.Some? then Compose(a.value, b.value) else None
  }

  /** The loader, started from empty frame strings, yields exactly `Loaded`,
      whatever the matrix buffer held. */
  lemma DecodeIsLoaded(file: Option<Node>, readReal: string -> Option<real>, before: Matrix4)
    ensures var o := Decode(file, readReal, before, "", "");
      && (o.ok <==> Loaded(file, readReal).Some?)
      && (o.ok ==> Loaded(file, readReal).value == FrameTransform(o.parent, o.child, o.matrix))
  {
    DecodeMatchesRecord(file, readReal, before, "", "");
  }

  /** Every loaded matrix has bottom row (0, 0, 0, 1). */
  lemma LoadedHasUnitBottomRow(file: Option<Node>, readReal: string -> Option<real>)
    requires Loaded(file, readReal).Some?
    ensures HasUnitBottomRow(Loaded(file, readReal).value.matrix)
  {
    var rec := Record(file.value, readReal).value;
    HomogeneousParts(RotationMatrix(rec.rotation), rec.translation);
  }

  /** Composing two homogeneous transforms gives a homogeneous transform from
      the first one's parent frame to the second one's child frame, with
      rotation block R_a R_b and translation R_a t_b + t_a. */
  lemma ComposeHomogeneous(a: FrameTransform, b: FrameTransform)
    requires HasUnitBottomRow(a.matrix) && HasUnitBottomRow(b.matrix)
    ensures Compose(a, b).Some? <==> a.child == b.parent
    ensures Compose(a, b).Some? ==>
      var c := Compose(a, b).value;
      && c.parent == a.parent && c.child == b.child
      && HasUnitBottomRow(c.matrix)
      && RotationPart(c.matrix) == Mul3(RotationPart(a.matrix), RotationPart(b.matrix))
      && TranslationPart(c.matrix) == Add(Rotate(RotationPart(a.matrix), TranslationPart(b.matrix)), TranslationPart(a.matrix))
  {
    ProductKeepsBottomRow(a.matrix, b.matrix);
    ProductRotation(a.matrix, b.matrix);
    ProductTranslation(a.matrix, b.matrix);
  }

  /** `main` saves something exactly when both files load and their frames
      chain; the result runs from the first file's parent frame to the second
      file's child frame and has bottom row (0, 0, 0, 1). */
  lemma PipelineSucceedsIffChained(first: Option<Node>, second: Option<Node>, readReal: string -> Option<real>)
    ensures Pipeline(first, second, readReal).Some? <==>
      && Loaded(first, readReal).Some? && Loaded(second, readReal).Some?
      && Loaded(first, readReal).value.child == Loaded(second, readReal).value.parent
    ensures Pipeline(first, second, readReal).Some? ==>
      var r, a, b := Pipeline(first, second, readReal).value, Loaded(first, readReal).value, Loaded(second, readReal).value;
      && r.parent == a.parent && r.child == b.child && HasUnitBottomRow(r.matrix)
      && TranslationPart(r.matrix) == Add(Rotate(RotationPart(a.matrix), TranslationPart(b.matrix)), TranslationPart(a.matrix))
  {
    if Pipeline(first, second, readReal).Some? {
      LoadedHasUnitBottomRow(first, readReal);
      LoadedHasUnitBottomRow(second, readReal);
      ComposeHomogeneous(Loaded(first, readReal).value, Loaded(second, readReal).value);
    }
  }

  /** Two files that name no frames at all chain: both frame strings stay
      empty, and empty equals empty. */
  lemma UnnamedFramesChain(d1: Node, d2: Node, readReal: string -> Option<real>)
    requires Record(d1, readReal).Some? && Record(d2, readReal).Some?
    requires ChildField(d1).NotGiven? && ParentField(d2).NotGiven?
    ensures Pipeline(Some(d1), Some(d2), readReal).Some?
  {
  }

  /** An identity transform between one frame and itself is a unit on either side. */
  lemma ComposeIdentity(t: FrameTransform)
    ensures Compose(FrameTransform(t.parent, t.parent, Identity4()), t) == Some(t)
    ensures Compose(t, FrameTransform(t.child, t.child, Identity4())) == Some(t)
  {
    ProductIdentity(t.matrix);
  }

  /** A quarter turn about z with translation (1, 0, 0), and a pure
      translation by (0, 1, 0). */
  function TurnAndStep(): Matrix4 {
    Homogeneous([[0.0, -1.0, 0.0], [1.0, 0.0, 0.0], [0.0, 0.0, 1.0]], Vector3(1.0, 0.0, 0.0))
  }

  function StepAlongY(): Matrix4 {
    Homogeneous(Identity3(), Vector3(0.0, 1.0, 0.0))
  }

  /** The order of the two files matters: composing the turn with the step
      places the grandchild frame at (0, 0, 0), the other order at (1, 1, 0). */
  lemma OrderMatters()
    ensures TranslationPart(Mul(TurnAndStep(), StepAlongY())) == Vector3(0.0, 0.0, 0.0)
    ensures TranslationPart(Mul(StepAlongY(), TurnAndStep())) == Vector3(1.0, 1.0, 0.0)
    ensures Mul(TurnAndStep(), StepAlongY()) != Mul(StepAlongY(), TurnAndStep())
  {
    TurnThenStep();
    StepThenTurn();
  }

  lemma TurnThenStep()
    ensures TranslationPart(Mul(TurnAndStep(), StepAlongY())) == Vector3(0.0, 0.0, 0.0)
  {
    HomogeneousParts(Identity3(), Vector3(0.0, 1.0, 0.0));
    HomogeneousParts([[0.0, -1.0, 0.0], [1.0, 0.0, 0.0], [0.0, 0.0, 1.0]], Vector3(1.0, 0.0, 0.0));
    ProductTranslation(TurnAndStep(), StepAlongY());
  }

  lemma StepThenTurn()
    ensures TranslationPart(Mul(StepAlongY(), TurnAndStep())) == Vector3(1.0, 1.0, 0.0)
  {
    HomogeneousParts(Identity3(), Vector3(0.0, 1.0, 0.0));
    HomogeneousParts([[0.0, -1.0, 0.0], [1.0, 0.0, 0.0], [0.0, 0.0, 1.0]], Vector3(1.0, 0.0, 0.0));
    ProductTranslation(StepAlongY(), TurnAndStep());
  }

  /** A robot one unit along x of the world, and a sensor one unit above the
      robot, both unrotated: the sensor sits at (1, 0, 1) in the world. */
  lemma WorldRobotSensor()
    ensures var level := RotationMatrix(Quaternion(1.0, 0.0, 0.0, 0.0));
      Compose(FrameTransform("world", "robot", Homogeneous(level, Vector3(1.0, 0.0, 0.0))),
              FrameTransform("robot", "sensor", Homogeneous(level, Vector3(0.0, 0.0, 1.0))))
      == Some(FrameTransform("world", "sensor", Homogeneous(Identity3(), Vector3(1.0, 0.0, 1.0))))
  {
    IdentityQuaternion();
    ProductOfHomogeneous(Identity3(), Vector3(1.0, 0.0, 0.0), Identity3(), Vector3(0.0, 0.0, 1.0));
    assert Mul3(Identity3(), Identity3()) == Identity3() by {
      Extensionality3(Mul3(Identity3(), Identity3()), Identity3());
    }
  }

  /** A saved document whose seven numbers read back loads, in `main`, to the
      saved frame ids (as `c_str()` left them), the saved translation and the
      rotation of the saved quaternion. */
  lemma SavedLoads(m: Matrix4, parent: string, child: string, q: Quaternion,
                   showReal: real -> string, readReal: string -> Option<real>)
    requires WrittenReadBack(readReal, showReal, m, q)
    ensures Loaded(Some(SavedDocument(m, parent, child, q, showReal)), readReal)
            == Some(FrameTransform(CStr(parent), CStr(child), Homogeneous(RotationMatrix(q), TranslationPart(m))))
  {
    SaveThenLoad(m, parent, child, q, showReal, readReal, m, "", "");
  }

  /** The same scenario from the two files: world to robot and robot to
      sensor, each with the identity quaternion, chain to a transform from
      world to sensor with translation (1, 0, 1) and no rotation, as long as
      the texts written for 0 and 1 read back as 0 and 1. */
  lemma EndToEnd(readReal: string -> Option<real>, showReal: real -> string)
    requires ReadsBack(readReal, showReal, 0.0) && ReadsBack(readReal, showReal, 1.0)
    ensures var level := Quaternion(1.0, 0.0, 0.0, 0.0);
      var robot := SavedDocument(Homogeneous(Identity3(), Vector3(1.0, 0.0, 0.0)), "world", "robot", level, showReal);
      var sensor := SavedDocument(Homogeneous(Identity3(), Vector3(0.0, 0.0, 1.0)), "robot", "sensor", level, showReal);
      Pipeline(Some(robot), Some(sensor), readReal)
      == Some(FrameTransform("world", "sensor", Homogeneous(Identity3(), Vector3(1.0, 0.0, 1.0))))
  {
    var level := Quaternion(1.0, 0.0, 0.0, 0.0);
    var a, b := Homogeneous(Identity3(), Vector3(1.0, 0.0, 0.0)), Homogeneous(Identity3(), Vector3(0.0, 0.0, 1.0));
    HomogeneousParts(Identity3(), Vector3(1.0, 0.0, 0.0));
    HomogeneousParts(Identity3(), Vector3(0.0, 0.0, 1.0));
    CStrWithoutNul("world");
    CStrWithoutNul("robot");
    CStrWithoutNul("sensor");
    SavedLoads(a, "world", "robot", level, showReal, readReal);
    SavedLoads(b, "robot", "sensor", level, showReal, readReal);
    WorldRobotSensor();
  }

  /** The texts "0" and "1" for the numbers 0 and 1, and nothing else. */
  function ShowDigit(x: real): string {
    if x == 0.0 then "0" else if x == 1.0 then "1" else "?"
  }

  function ReadDigit(s: string): Option<real> {
    if s == "0" then Some(0.0) else if s == "1" then Some(1.0) else None
  }

  /** The scenario with number conversions that know only the digits 0 and 1:
      that is all the two files need. */
  lemma EndToEndWithDigits()
    ensures var level := Quaternion(1.0, 0.0, 0.0, 0.0);
      var robot := SavedDocument(Homogeneous(Identity3(), Vector3(1.0, 0.0, 0.0)), "world", "robot", level, ShowDigit);
      var sensor := SavedDocument(Homogeneous(Identity3(), Vector3(0.0, 0.0, 1.0)), "robot", "sensor", level, ShowDigit);
      Pipeline(Some(robot), Some(sensor), ReadDigit)
      == Some(FrameTransform("world", "sensor", Homogeneous(Identity3(), Vector3(1.0, 0.0, 1.0))))
  {
    EndToEnd(ReadDigit, ShowDigit);
  }

  /** What `main` saves, reloaded, when the seven numbers it writes read
      back: the frame ids are the first file's parent and the second file's
      child (as `c_str()` leaves them), the translation is the product's, and
      when the quaternion extraction inverts the rotation conversion on the
      product's rotation block, the whole matrix comes back. */
  lemma PipelineOutputReloads(first: Option<Node>, second: Option<Node>, readReal: string -> Option<real>,
                              showReal: real -> string, extract: Matrix3 -> Quaternion)
    requires Pipeline(first, second, readReal).Some?
    requires var m := Pipeline(first, second, readReal).value.matrix;
      WrittenReadBack(readReal, showReal, m, extract(RotationPart(m)))
    ensures var r := Pipeline(first, second, readReal).value;
      var back := Loaded(Some(SavedDocument(r.matrix, r.parent, r.child, extract(RotationPart(r.matrix)), showReal)), readReal);
      && back.Some?
      && back.value.parent == CStr(Loaded(first, readReal).value.parent)
      && back.value.child == CStr(Loaded(second, readReal).value.child)
      && TranslationPart(back.value.matrix) == TranslationPart(r.matrix)
      && (RotationMatrix(extract(RotationPart(r.matrix))) == RotationPart(r.matrix) ==> back.value.matrix == r.matrix)
  {
    var r := Pipeline(first, second, readReal).value;
    var q := extract(RotationPart(r.matrix));
    PipelineSucceedsIffChained(first, second, readReal);
    SavedLoads(r.matrix, r.parent, r.child, q, showReal, readReal);
    HomogeneousParts(RotationMatrix(q), TranslationPart(r.matrix));
    UnitBottomRowIsHomogeneous(r.matrix);
  }

  /** `main` after its argument handling: returns -1 without composing or
      saving when a file fails to load or the frames do not chain, and
      otherwise returns 0 with the document it writes to the output file. */
  method Run(first: Option<Node>, second: Option<Node>, readReal: string -> Option<real>,
             showReal: real -> string, extract: Matrix3 -> Quaternion)
    returns (status: int, output: Option<Node>)
    ensures status == 0 || status == -1
    ensures status == -1 <==> Pipeline(first, second, readReal).None?
    ensures status == -1 ==> output.None?
    ensures status == 0 ==>
      var r := Pipeline(first, second, readReal).value;
      output == Some(SavedDocument(r.matrix, r.parent, r.child, extract(RotationPart(r.matrix)), showReal))
  {
    var parentMatrix := new real[4, 4];
    var childMatrix := new real[4, 4];
    var parent1f, child1f, parent2f, child2f := "", "", "", "";
    ghost var before1, before2 := Entries(parentMatrix), Entries(childMatrix);
    var ret1, ret2;
    ret1, parent1f, child1f := Load(first, readReal, parentMatrix, before1, parent1f, child1f);
    ret2, parent2f, child2f := Load(second, readReal, childMatrix, before2, parent2f, child2f);
    DecodeIsLoaded(first, readReal, before1);
    DecodeIsLoaded(second, readReal, before2);
    if !(ret1 && ret2) {
      return -1, None;
    }
    if child1f != parent2f {
      return -1, None;
    }
    HoldsEntries(parentMatrix, Decode(first, readReal, before1, "", "").matrix);
    HoldsEntries(childMatrix, Decode(second, readReal, before2, "", "").matrix);
    var result := Mul(Entries(parentMatrix), Entries(childMatrix));
    var doc := Save(result, parent1f, child2f, extract, showReal);
    return 0, Some(doc);
  }
}
