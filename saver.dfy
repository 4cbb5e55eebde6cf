/** The document-building part of `save_transformation_to_file`: the frame
    ids, the translation column of the matrix and the quaternion extracted
    from its rotation block, each assigned at its fixed path in a fresh node. */
module Saver {
  import opened Document
  import opened Geometry
  import opened Loader

  /** The string a `const char*` obtained by `c_str()` denotes: the text up to
      the first NUL character. */
  function CStr(s: string): (r: string)
    ensures |r| <= |s| && r == s[..|r|]
    ensures '\0' !in r
    ensures |r| < |s| ==> s[|r|] == '\0'
  {
    if s == [] || s[0] == '\0' then [] else [s[0]] + CStr(s[1..])
  }

  /** The document the saver builds for matrix m and the two frame ids, with
      the rotation written as quaternion q and each number as the text
      `showReal` emits for it. */
  function SavedDocument(m: Matrix4, parent: string, child: string, q: Quaternion, showReal: real -> string): Node {
    Mapping(map[
      "child_frame_id" := Scalar(CStr(child)),
      "header" := Mapping(map["frame_id" := Scalar(CStr(parent))]),
      "transform" := Mapping(map[
        "translation" := Mapping(map["x" := Scalar(showReal(m[0][3])), "y" := Scalar(showReal(m[1][3])), "z" := Scalar(showReal(m[2][3]))]),
        "rotation" := Mapping(map["x" := Scalar(showReal(q.x)), "y" := Scalar(showReal(q.y)), "z" := Scalar(showReal(q.z)), "w" := Scalar(showReal(q.w))])])])
  }

  /** Builds the output document by successive assignments into an empty
      node; the quaternion is the one `extract` gives for the rotation block. */
  method Save(m: Matrix4, parent: string, child: string,
              extract: Matrix3 -> Quaternion, showReal: real -> string) returns (doc: Node)
    ensures doc == SavedDocument(m, parent, child, extract(RotationPart(m)), showReal)
  {
    var q := extract(RotationPart(m));
    var c, p := Scalar(CStr(child)), Scalar(CStr(parent));
    var tx, ty, tz := Scalar(showReal(m[0][3])), Scalar(showReal(m[1][3])), Scalar(showReal(m[2][3]));
    var qx, qy, qz, qw := Scalar(showReal(q.x)), Scalar(showReal(q.y)), Scalar(showReal(q.z)), Scalar(showReal(q.w));
    doc := Null;
    doc := Put(doc, ["child_frame_id"], c);
    doc := Put(doc, ["header", "frame_id"], p);
    ghost var top := map["child_frame_id" := c, "header" := Mapping(map["frame_id" := p])];
    assert doc == Mapping(top);
    doc := Put(doc, ["transform", "translation", "x"], tx);
    ghost var transform := Put(Null, ["translation", "x"], tx);
    assert doc == Mapping(top["transform" := transform]);
    PutInTransform(top, transform, "translation", "y", ty);
    doc := Put(doc, ["transform", "translation", "y"], ty);
    transform := Put(transform, ["translation", "y"], ty);
    PutInTransform(top, transform, "translation", "z", tz);
    doc := Put(doc, ["transform", "translation", "z"], tz);
    transform := Put(transform, ["translation", "z"], tz);
    PutInTransform(top, transform, "rotation", "x", qx);
    doc := Put(doc, ["transform", "rotation", "x"], qx);
    transform := Put(transform, ["rotation", "x"], qx);
    PutInTransform(top, transform, "rotation", "y", qy);
    doc := Put(doc, ["transform", "rotation", "y"], qy);
    transform := Put(transform, ["rotation", "y"], qy);
    PutInTransform(top, transform, "rotation", "z", qz);
    doc := Put(doc, ["transform", "rotation", "z"], qz);
    transform := Put(transform, ["rotation", "z"], qz);
    PutInTransform(top, transform, "rotation", "w", qw);
    doc := Put(doc, ["transform", "rotation", "w"], qw);
    transform := Put(transform, ["rotation", "w"], qw);
    TransformNode(tx, ty, tz, qx, qy, qz, qw);
  }

  /** An assignment below "transform" rebuilds only the "transform" entry. */
  lemma PutInTransform(top: map<string, Node>, transform: Node, a: string, b: string, v: Node)
    requires transform.Mapping?
    ensures Put(Mapping(top["transform" := transform]), ["transform", a, b], v)
            == Mapping(top["transform" := Put(transform, [a, b], v)])
  {
    assert ["transform", a, b][1..] == [a, b];
  }

  /** The seven assignments below "transform" build its two sub-mappings. */
  lemma TransformNode(tx: Node, ty: Node, tz: Node, qx: Node, qy: Node, qz: Node, qw: Node)
    ensures Put(Put(Put(Put(Put(Put(Put(Null,
              ["translation", "x"], tx), ["translation", "y"], ty), ["translation", "z"], tz),
              ["rotation", "x"], qx), ["rotation", "y"], qy), ["rotation", "z"], qz), ["rotation", "w"], qw)
            == Mapping(map["translation" := Mapping(map["x" := tx, "y" := ty, "z" := tz]),
                           "rotation" := Mapping(map["x" := qx, "y" := qy, "z" := qz, "w" := qw])])
  {
    TranslationNode(tx, ty, tz);
    RotationNode(Mapping(map["x" := tx, "y" := ty, "z" := tz]), qx, qy, qz, qw);
  }

  lemma TranslationNode(tx: Node, ty: Node, tz: Node)
    ensures Put(Put(Put(Null, ["translation", "x"], tx), ["translation", "y"], ty), ["translation", "z"], tz)
            == Mapping(map["translation" := Mapping(map["x" := tx, "y" := ty, "z" := tz])])
  {
    var t1 := Put(Null, ["translation", "x"], tx);
    assert t1 == Mapping(map[]["translation" := Mapping(map["x" := tx])]);
    PutNested(map[], "translation", map["x" := tx], "y", ty);
    PutNested(map[], "translation", map["x" := tx, "y" := ty], "z", tz);
  }

  lemma RotationNode(translation: Node, qx: Node, qy: Node, qz: Node, qw: Node)
    ensures Put(Put(Put(Put(Mapping(map["translation" := translation]),
              ["rotation", "x"], qx), ["rotation", "y"], qy), ["rotation", "z"], qz), ["rotation", "w"], qw)
            == Mapping(map["translation" := translation,
                           "rotation" := Mapping(map["x" := qx, "y" := qy, "z" := qz, "w" := qw])])
  {
    var e := map["translation" := translation];
    var t4 := Put(Mapping(e), ["rotation", "x"], qx);
    assert t4 == Mapping(e["rotation" := Mapping(map["x" := qx])]);
    PutNested(e, "rotation", map["x" := qx], "y", qy);
    PutNested(e, "rotation", map["x" := qx, "y" := qy], "z", qz);
    PutNested(e, "rotation", map["x" := qx, "y" := qy, "z" := qz], "w", qw);
  }

  /** An assignment two levels down rebuilds one entry of one sub-mapping. */
  lemma PutNested(e: map<string, Node>, k: string, r: map<string, Node>, b: string, v: Node)
    ensures Put(Mapping(e[k := Mapping(r)]), [k, b], v) == Mapping(e[k := Mapping(r[b := v])])
  {
    assert [k, b][1..] == [b];
    assert e[k := Mapping(r)][k := Mapping(r[b := v])] == e[k := Mapping(r[b := v])];
  }

  /** A frame id without a NUL character is saved as it is. */
  lemma CStrWithoutNul(s: string)
    requires '\0' !in s
    ensures CStr(s) == s
  {
  }

  /** A frame id holding a NUL character is saved cut short at it. */
  lemma SaveTruncatesAtNul(s: string, k: int)
    requires 0 <= k < |s| && s[k] == '\0'
    ensures |CStr(s)| <= k && CStr(s) != s
  {
  }

  /** `readReal` reads the text `showReal` writes for x back as x. */
  predicate ReadsBack(readReal: string -> Option<real>, showReal: real -> string, x: real) {
    readReal(showReal(x)) == Some(x)
  }

  /** The seven numbers the saver writes for m and q (translation column,
      then quaternion x, y, z, w) all read back as themselves. */
  predicate WrittenReadBack(readReal: string -> Option<real>, showReal: real -> string, m: Matrix4, q: Quaternion) {
    && ReadsBack(readReal, showReal, m[0][3]) && ReadsBack(readReal, showReal, m[1][3]) && ReadsBack(readReal, showReal, m[2][3])
    && ReadsBack(readReal, showReal, q.x) && ReadsBack(readReal, showReal, q.y)
    && ReadsBack(readReal, showReal, q.z) && ReadsBack(readReal, showReal, q.w)
  }

  /** What the loader's declarative reading finds in a saved document, for any
      pair of number conversions: the two frame ids as `c_str()` left them,
      and the seven written numbers as `readReal` reads their text. It is
      unreadable exactly when one of those texts does not read as a number. */
  lemma SavedDocumentRecord(m: Matrix4, parent: string, child: string, q: Quaternion,
                            showReal: real -> string, readReal: string -> Option<real>)
    ensures var tx, ty, tz := readReal(showReal(m[0][3])), readReal(showReal(m[1][3])), readReal(showReal(m[2][3]));
      var qx, qy, qz, qw := readReal(showReal(q.x)), readReal(showReal(q.y)), readReal(showReal(q.z)), readReal(showReal(q.w));
      Record(SavedDocument(m, parent, child, q, showReal), readReal)
      == if tx.Some? && ty.Some? && tz.Some? && qx.Some? && qy.Some? && qz.Some? && qw.Some?
         then Some(TransformRecord(Given(CStr(parent)), Given(CStr(child)),
                                   Vector3(tx.value, ty.value, tz.value), Quaternion(qw.value, qx.value, qy.value, qz.value)))
         else None
  {
    SavedFramesRead(m, parent, child, q, showReal);
    SavedTranslationReads(m, parent, child, q, showReal, readReal);
    SavedRotationReads(m, parent, child, q, showReal, readReal);
  }

  /** Loading a saved document whose seven numbers read back succeeds, sets
      the two frame strings to the saved frame ids (as `c_str()` left them),
      and rebuilds the saved translation column and a bottom row of
      (0, 0, 0, 1); the rotation read back is the quaternion the saver wrote. */
  lemma SaveThenLoad(m: Matrix4, parent: string, child: string, q: Quaternion,
                     showReal: real -> string, readReal: string -> Option<real>,
                     before: Matrix4, parentBefore: string, childBefore: string)
    requires WrittenReadBack(readReal, showReal, m, q)
    ensures var doc := SavedDocument(m, parent, child, q, showReal);
      Record(doc, readReal) == Some(TransformRecord(Given(CStr(parent)), Given(CStr(child)), TranslationPart(m), q))
    ensures var o := Decode(Some(SavedDocument(m, parent, child, q, showReal)), readReal, before, parentBefore, childBefore);
      && o.ok && o.parent == CStr(parent) && o.child == CStr(child)
      && TranslationPart(o.matrix) == TranslationPart(m) && HasUnitBottomRow(o.matrix)
  {
    var doc := SavedDocument(m, parent, child, q, showReal);
    SavedDocumentRecord(m, parent, child, q, showReal, readReal);
    DecodeMatchesRecord(Some(doc), readReal, before, parentBefore, childBefore);
    HomogeneousParts(RotationMatrix(q), TranslationPart(m));
  }

  /** A saved document whose numbers do not all read as numbers again does
      not load: the loader reports failure rather than a default value. */
  lemma SaveThenLoadUnreadable(m: Matrix4, parent: string, child: string, q: Quaternion,
                               showReal: real -> string, readReal: string -> Option<real>,
                               before: Matrix4, parentBefore: string, childBefore: string)
    requires || readReal(showReal(m[0][3])).None? || readReal(showReal(m[1][3])).None? || readReal(showReal(m[2][3])).None?
             || readReal(showReal(q.x)).None? || readReal(showReal(q.y)).None?
             || readReal(showReal(q.z)).None? || readReal(showReal(q.w)).None?
    ensures !Decode(Some(SavedDocument(m, parent, child, q, showReal)), readReal, before, parentBefore, childBefore).ok
  {
    SavedDocumentRecord(m, parent, child, q, showReal, readReal);
    DecodeMatchesRecord(Some(SavedDocument(m, parent, child, q, showReal)), readReal, before, parentBefore, childBefore);
  }

  lemma SavedFramesRead(m: Matrix4, parent: string, child: string, q: Quaternion, showReal: real -> string)
    ensures var doc := SavedDocument(m, parent, child, q, showReal);
      ParentField(doc) == Given(CStr(parent)) && ChildField(doc) == Given(CStr(child)) && TransformSection(doc).Defined?
  {
  }

  /** The saved translation fields read as `readReal` reads the texts written for the translation column. */
  lemma SavedTranslationReads(m: Matrix4, parent: string, child: string, q: Quaternion,
                              showReal: real -> string, readReal: string -> Option<real>)
    ensures var doc := SavedDocument(m, parent, child, q, showReal);
      && NumberOf(Component(doc, "translation", "x"), readReal) == readReal(showReal(m[0][3]))
      && NumberOf(Component(doc, "translation", "y"), readReal) == readReal(showReal(m[1][3]))
      && NumberOf(Component(doc, "translation", "z"), readReal) == readReal(showReal(m[2][3]))
  {
  }

  /** The saved rotation fields read as `readReal` reads the texts written for the quaternion. */
  lemma SavedRotationReads(m: Matrix4, parent: string, child: string, q: Quaternion,
                           showReal: real -> string, readReal: string -> Option<real>)
    ensures var doc := SavedDocument(m, parent, child, q, showReal);
      && NumberOf(Component(doc, "rotation", "x"), readReal) == readReal(showReal(q.x))
      && NumberOf(Component(doc, "rotation", "y"), readReal) == readReal(showReal(q.y))
      && NumberOf(Component(doc, "rotation", "z"), readReal) == readReal(showReal(q.z))
      && NumberOf(Component(doc, "rotation", "w"), readReal) == readReal(showReal(q.w))
  {
  }
}
