/** `load_transformation_matrix_from_file`: reads a transform document, fills
    the caller's 4x4 matrix in place and, when the document names them, the
    caller's parent and child frame strings. */
module Loader {
  import opened Document
  import opened Geometry

  /** An optional frame-id field: absent, present with its text, or present
      but not convertible to a string (or its lookup threw). */
  datatype FrameField = NotGiven | Given(id: string) | Unconvertible

  function FrameAt(l: Lookup): FrameField {
    match l
    case Undefined => NotGiven
    case BadSubscript => Unconvertible
    case Defined(n) => if TextOf(n).Some? then Given(TextOf(n).value) else Unconvertible
  }

  /** The string left in a frame out-parameter that held `before`. */
  function FrameOr(f: FrameField, before: string): string {
    if f.Given? then f.id else before
  }

  /** `config["child_frame_id"]`, as a frame field. */
  function ChildField(doc: Node): FrameField {
    FrameAt(Index(Defined(doc), "child_frame_id"))
  }

  /** `config["header"]["frame_id"]`, as a frame field. */
  function ParentField(doc: Node): FrameField {
    FrameAt(Index(Index(Defined(doc), "header"), "frame_id"))
  }

  /** `config["transform"]`. */
  function TransformSection(doc: Node): Lookup {
    Index(Defined(doc), "transform")
  }

  /** `config["transform"][name]`, for name "translation" or "rotation". */
  function SubSection(doc: Node, name: string): Lookup {
    Index(TransformSection(doc), name)
  }

  /** `config["transform"][name][axis]`. */
  function Component(doc: Node, name: string, axis: string): Lookup {
    Index(SubSection(doc, name), axis)
  }

  /** The four rotation fields x, y, z, w, when all of them read as numbers. */
  function ReadQuaternion(doc: Node, readReal: string -> Option<real>): Option<Quaternion> {
    var qx := NumberOf(Component(doc, "rotation", "x"), readReal);
    var qy := NumberOf(Component(doc, "rotation", "y"), readReal);
    var qz := NumberOf(Component(doc, "rotation", "z"), readReal);
    var qw := NumberOf(Component(doc, "rotation", "w"), readReal);
    if qx.Some? && qy.Some? && qz.Some? && qw.Some? then Some(Quaternion(qw.value, qx.value, qy.value, qz.value)) else None
  }

  /** The three translation fields x, y, z, when all of them read as numbers. */
  function ReadTranslation(doc: Node, readReal: string -> Option<real>): Option<Vector3> {
    var tx := NumberOf(Component(doc, "translation", "x"), readReal);
    var ty := NumberOf(Component(doc, "translation", "y"), readReal);
    var tz := NumberOf(Component(doc, "translation", "z"), readReal);
    if tx.Some? && ty.Some? && tz.Some? then Some(Vector3(tx.value, ty.value, tz.value)) else None
  }

  /** What a loadable document says: its frame fields, translation and rotation. */
  datatype TransformRecord = TransformRecord(parent: FrameField, child: FrameField, translation: Vector3, rotation: Quaternion)

  /** The declarative reading of a document: it is loadable exactly when the
      transform section exists, neither frame field fails to convert, and all
      seven numeric fields read as numbers. */
  function Record(doc: Node, readReal: string -> Option<real>): Option<TransformRecord> {
    var t, q := ReadTranslation(doc, readReal), ReadQuaternion(doc, readReal);
    if TransformSection(doc).Defined? && !ParentField(doc).Unconvertible? && !ChildField(doc).Unconvertible?
       && t.Some? && q.Some?
    then Some(TransformRecord(ParentField(doc), ChildField(doc), t.value, q.value))
    else None
  }

  /** The matrix part of the loader: whether it got through, and the matrix after its writes. */
  datatype Filled = Filled(ok: bool, matrix: Matrix4)

  /** The translation column, written component by component; a component
      that does not convert stops it with the earlier ones already written. */
  function FillTranslation(doc: Node, readReal: string -> Option<real>, matrix: Matrix4): (f: Filled)
    ensures f.ok <==> ReadTranslation(doc, readReal).Some?
    ensures f.ok ==> f.matrix == Assign(Assign(Assign(matrix, 0, 3, ReadTranslation(doc, readReal).value.x),
                                                1, 3, ReadTranslation(doc, readReal).value.y),
                                         2, 3, ReadTranslation(doc, readReal).value.z)
    ensures RotationPart(f.matrix) == RotationPart(matrix) && f.matrix[3] == matrix[3]
  {
    var tx := NumberOf(Component(doc, "translation", "x"), readReal);
    if tx.None? then Filled(false, matrix) else
    var matrix := Assign(matrix, 0, 3, tx.value);
    var ty := NumberOf(Component(doc, "translation", "y"), readReal);
    if ty.None? then Filled(false, matrix) else
    var matrix := Assign(matrix, 1, 3, ty.value);
    var tz := NumberOf(Component(doc, "translation", "z"), readReal);
    if tz.None? then Filled(false, matrix) else
    Filled(true, Assign(matrix, 2, 3, tz.value))
  }

  /** The matrix writes: translation column, then the rotation block, then the
      bottom row, which is written only when everything before succeeded. */
  function FillMatrix(doc: Node, readReal: string -> Option<real>, matrix: Matrix4): (f: Filled)
    ensures f.ok ==> f.matrix[3] == BottomRow
    ensures !f.ok ==> f.matrix[3] == matrix[3] && RotationPart(f.matrix) == RotationPart(matrix)
  {
    if !SubSection(doc, "translation").Defined? then Filled(false, matrix) else
    var t := FillTranslation(doc, readReal, matrix);
    if !t.ok then t else
    if !SubSection(doc, "rotation").Defined? then Filled(false, t.matrix) else
    var q := ReadQuaternion(doc, readReal);
    if q.None? then Filled(false, t.matrix) else
    Filled(true, AssignBlock(t.matrix, RotationMatrix(q.value))[3 := BottomRow])
  }

  /** The loader's effect: its result, the matrix after the writes it made, and the two frame strings. */
  datatype Outcome = Outcome(ok: bool, matrix: Matrix4, parent: string, child: string)

  /** The loader step by step, from the matrix and frame strings it is handed.
      A failure leaves whatever was already written: the frame strings and the
      translation column may be set before a later field fails. */
  function Decode(file: Option<Node>, readReal: string -> Option<real>, matrix: Matrix4, parent: string, child: string): (o: Outcome)
    ensures o.ok ==> o.matrix[3] == BottomRow
    ensures !o.ok ==> o.matrix[3] == matrix[3] && RotationPart(o.matrix) == RotationPart(matrix)
  {
    if file.None? then Outcome(false, matrix, parent, child) else
    var doc := file.value;
    if !TransformSection(doc).Defined? then Outcome(false, matrix, parent, child) else
    if ChildField(doc).Unconvertible? then Outcome(false, matrix, parent, child) else
    var child := FrameOr(ChildField(doc), child);
    if ParentField(doc).Unconvertible? then Outcome(false, matrix, parent, child) else
    var parent := FrameOr(ParentField(doc), parent);
    var f := FillMatrix(doc, readReal, matrix);
    Outcome(f.ok, f.matrix, parent, child)
  }

  /** A component that reads as a number sits in a defined section. */
  lemma ComponentInSection(doc: Node, name: string, axis: string, readReal: string -> Option<real>)
    requires NumberOf(Component(doc, name, axis), readReal).Some?
    ensures SubSection(doc, name).Defined? && TransformSection(doc).Defined?
  {
  }

  /** The loader succeeds exactly on the documents `Record` accepts; it then
      leaves the homogeneous matrix of the recorded rotation and translation,
      whatever the buffer held, and overwrites a frame string exactly when the
      document names that frame. */
  lemma DecodeMatchesRecord(file: Option<Node>, readReal: string -> Option<real>, matrix: Matrix4, parent: string, child: string)
    ensures Decode(file, readReal, matrix, parent, child).ok <==> file.Some? && Record(file.value, readReal).Some?
    ensures Decode(file, readReal, matrix, parent, child).ok ==>
      var rec, o := Record(file.value, readReal).value, Decode(file, readReal, matrix, parent, child);
      && o.matrix == Homogeneous(RotationMatrix(rec.rotation), rec.translation)
      && o.parent == FrameOr(rec.parent, parent)
      && o.child == FrameOr(rec.child, child)
  {
    if file.Some? {
      var doc := file.value;
      if ReadTranslation(doc, readReal).Some? {
        ComponentInSection(doc, "translation", "x", readReal);
      }
      if ReadQuaternion(doc, readReal).Some? {
        ComponentInSection(doc, "rotation", "x", readReal);
      }
      var o := Decode(file, readReal, matrix, parent, child);
      if o.ok {
        var rec := Record(doc, readReal).value;
        Extensionality4(o.matrix, Homogeneous(RotationMatrix(rec.rotation), rec.translation));
      }
    }
  }

  /** On success every one of the 16 entries has been written: the result
      does not depend on what the buffer held before. */
  lemma LoadWritesEveryEntry(file: Option<Node>, readReal: string -> Option<real>, m1: Matrix4, m2: Matrix4, parent: string, child: string)
    requires Decode(file, readReal, m1, parent, child).ok
    ensures Decode(file, readReal, m2, parent, child).ok
    ensures Decode(file, readReal, m1, parent, child).matrix == Decode(file, readReal, m2, parent, child).matrix
  {
    DecodeMatchesRecord(file, readReal, m1, parent, child);
    DecodeMatchesRecord(file, readReal, m2, parent, child);
  }

  /** On success the translation column holds transform.translation.x/y/z,
      the rotation block is the rotation matrix of the quaternion
      (w, x, y, z) read from transform.rotation, and the bottom row is (0, 0, 0, 1). */
  lemma LoadedMatrixFromDocument(doc: Node, readReal: string -> Option<real>, matrix: Matrix4, parent: string, child: string)
    requires Decode(Some(doc), readReal, matrix, parent, child).ok
    ensures var m := Decode(Some(doc), readReal, matrix, parent, child).matrix;
      && Some(m[0][3]) == NumberOf(Component(doc, "translation", "x"), readReal)
      && Some(m[1][3]) == NumberOf(Component(doc, "translation", "y"), readReal)
      && Some(m[2][3]) == NumberOf(Component(doc, "translation", "z"), readReal)
      && ReadQuaternion(doc, readReal).Some?
      && RotationPart(m) == RotationMatrix(ReadQuaternion(doc, readReal).value)
      && HasUnitBottomRow(m)
  {
    DecodeMatchesRecord(Some(doc), readReal, matrix, parent, child);
    var rec := Record(doc, readReal).value;
    HomogeneousParts(RotationMatrix(rec.rotation), rec.translation);
  }

  /** A missing transform, transform.translation or transform.rotation section
      makes the loader fail; no default translation or rotation is used. With
      no transform section nothing at all is changed. */
  lemma MissingSectionRejected(doc: Node, readReal: string -> Option<real>, matrix: Matrix4, parent: string, child: string)
    requires !TransformSection(doc).Defined? || !SubSection(doc, "translation").Defined? || !SubSection(doc, "rotation").Defined?
    ensures !Decode(Some(doc), readReal, matrix, parent, child).ok
    ensures !TransformSection(doc).Defined? ==>
      Decode(Some(doc), readReal, matrix, parent, child) == Outcome(false, matrix, parent, child)
  {
    if ReadTranslation(doc, readReal).Some? {
      ComponentInSection(doc, "translation", "x", readReal);
    }
    if ReadQuaternion(doc, readReal).Some? {
      ComponentInSection(doc, "rotation", "x", readReal);
    }
    DecodeMatchesRecord(Some(doc), readReal, matrix, parent, child);
  }

  /** A translation or rotation component that does not convert to a number
      (absent, not a scalar, or text that does not read as a number) makes the
      loader fail. */
  lemma UnreadableComponentRejected(doc: Node, readReal: string -> Option<real>, name: string, axis: string, matrix: Matrix4, parent: string, child: string)
    requires (name == "translation" && axis in {"x", "y", "z"}) || (name == "rotation" && axis in {"x", "y", "z", "w"})
    requires NumberOf(Component(doc, name, axis), readReal).None?
    ensures !Decode(Some(doc), readReal, matrix, parent, child).ok
  {
    DecodeMatchesRecord(Some(doc), readReal, matrix, parent, child);
  }

  /** A frame string is overwritten only with the document's own frame id and
      only when that field is present; an absent field leaves it as it was. */
  lemma FramesOverwrittenOnlyWhenPresent(doc: Node, readReal: string -> Option<real>, matrix: Matrix4, parent: string, child: string)
    ensures var o := Decode(Some(doc), readReal, matrix, parent, child);
      && (o.child == child || ChildField(doc) == Given(o.child))
      && (o.parent == parent || ParentField(doc) == Given(o.parent))
      && (ChildField(doc).NotGiven? ==> o.child == child)
      && (ParentField(doc).NotGiven? ==> o.parent == parent)
  {
  }

  /** `matrix` mirrors the 4x4 buffer entry by entry. */
  ghost predicate Holds(m: array2<real>, matrix: Matrix4)
    reads m
    requires m.Length0 == 4 && m.Length1 == 4
  {
    forall i, j :: 0 <= i < 4 && 0 <= j < 4 ==> m[i, j] == matrix[i][j]
  }

  function Entries(m: array2<real>): (matrix: Matrix4)
    reads m
    requires m.Length0 == 4 && m.Length1 == 4
    ensures Holds(m, matrix)
  {
    seq(4, i requires 0 <= i < 4 reads m => seq(4, j requires 0 <= j < 4 reads m => m[i, j]))
  }

  lemma HoldsEntries(m: array2<real>, matrix: Matrix4)
    requires m.Length0 == 4 && m.Length1 == 4
    requires Holds(m, matrix)
    ensures Entries(m) == matrix
  {
    Extensionality4(Entries(m), matrix);
  }

  /** The loader itself, writing through the matrix buffer and returning the
      new values of the two frame-string out-parameters. `before` names the
      buffer's contents on entry. */
  method Load(file: Option<Node>, readReal: string -> Option<real>, m: array2<real>, ghost before: Matrix4, parent: string, child: string)
    returns (ok: bool, parent': string, child': string)
    requires m.Length0 == 4 && m.Length1 == 4
    requires Holds(m, before)
    modifies m
    ensures var o := Decode(file, readReal, before, parent, child);
      ok == o.ok && parent' == o.parent && child' == o.child && Holds(m, o.matrix)
  {
    parent', child' := parent, child;
    ok := false;
    if file.None? {
      return;
    }
    var doc := file.value;
    if !TransformSection(doc).Defined? {
      return;
    }
    var childField := ChildField(doc);
    if childField.Unconvertible? {
      return;
    }
    if childField.Given? {
      child' := childField.id;
    }
    var parentField := ParentField(doc);
    if parentField.Unconvertible? {
      return;
    }
    if parentField.Given? {
      parent' := parentField.id;
    }
    ok := FillBuffer(doc, readReal, m, before);
  }

  /** The matrix writes of the loader on the buffer: translation column,
      rotation block, bottom row, stopping at the first field that fails. */
  method FillBuffer(doc: Node, readReal: string -> Option<real>, m: array2<real>, ghost before: Matrix4) returns (ok: bool)
    requires m.Length0 == 4 && m.Length1 == 4
    requires Holds(m, before)
    modifies m
    ensures var f := FillMatrix(doc, readReal, before);
      ok == f.ok && Holds(m, f.matrix)
  {
    ghost var cur := before;
    ok := false;
    if !SubSection(doc, "translation").Defined? {
      return;
    }
    var tx := NumberOf(Component(doc, "translation", "x"), readReal);
    if tx.None? {
      return;
    }
    m[0, 3] := tx.value;
    cur := Assign(cur, 0, 3, tx.value);
    var ty := NumberOf(Component(doc, "translation", "y"), readReal);
    if ty.None? {
      return;
    }
    m[1, 3] := ty.value;
    cur := Assign(cur, 1, 3, ty.value);
    var tz := NumberOf(Component(doc, "translation", "z"), readReal);
    if tz.None? {
      return;
    }
    m[2, 3] := tz.value;
    cur := Assign(cur, 2, 3, tz.value);
    assert FillTranslation(doc, readReal, before) == Filled(true, cur);

    if !SubSection(doc, "rotation").Defined? {
      return;
    }
    var qx := NumberOf(Component(doc, "rotation", "x"), readReal);
    var qy := NumberOf(Component(doc, "rotation", "y"), readReal);
    var qz := NumberOf(Component(doc, "rotation", "z"), readReal);
    var qw := NumberOf(Component(doc, "rotation", "w"), readReal);
    if qx.None? || qy.None? || qz.None? || qw.None? {
      return;
    }
    var r := RotationMatrix(Quaternion(qw.value, qx.value, qy.value, qz.value));
    forall i, j | 0 <= i < 3 && 0 <= j < 3 {
      m[i, j] := r[i][j];
    }
    cur := AssignBlock(cur, r);

    FillBottomRow(m);
    ok := true;
  }

  /** The loop that fills row 3 of the buffer with (0, 0, 0, 1), leaving rows 0 to 2 as they are. */
  method FillBottomRow(m: array2<real>)
    requires m.Length0 == 4 && m.Length1 == 4
    modifies m
    ensures forall b :: 0 <= b < 4 ==> m[3, b] == BottomRow[b]
    ensures forall a, b :: 0 <= a < 3 && 0 <= b < 4 ==> m[a, b] == old(m[a, b])
  {
    for i := 0 to 3
      invariant forall b :: 0 <= b < i ==> m[3, b] == 0.0
      invariant forall a, b :: 0 <= a < 3 && 0 <= b < 4 ==> m[a, b] == old(m[a, b])
    {
      m[3, i] := 0.0;
    }
    m[3, 3] := 1.0;
  }
}
