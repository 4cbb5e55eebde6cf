# trans_yaml in Dafny

`trans_yaml` chains two rigid-body transforms stored as YAML files. Each file names a
parent frame (`header.frame_id`) and a child frame (`child_frame_id`). It gives the pose
of the child in the parent as `transform.translation` (x, y, z) and
`transform.rotation`, a quaternion (x, y, z, w). `main` loads both files into 4x4
homogeneous matrices. It checks that the first file's child frame is the second file's
parent frame, multiplies the two matrices, and saves the product. The saved file runs
from the first file's parent frame to the second file's child frame.

This project models that core of `main.cpp` and proves properties of the model. The
files are:

- `document.dfy` (module `Document`): the parsed YAML tree and the parts of yaml-cpp's
  node interface that `main.cpp` uses.
  - `Index` models non-const `operator[]`. A scalar cannot be subscripted and throws
    BadSubscript. A null or sequence node yields an undefined node.
  - `TextOf` and `NumberOf` model `as<std::string>` and `as<double>`.
  - `Put` models `node[a][b]... = v`.
- `geometry.dfy` (module `Geometry`): 4x4 and 3x3 matrices as sequences of rows, the
  matrix product, and Eigen's `Quaternion::toRotationMatrix`. It proves the
  homogeneous-transform algebra: the product of two matrices with bottom row
  (0, 0, 0, 1) keeps that bottom row, has top-left block R_a R_b and has
  translation R_a t_b + t_a.
- `loader.dfy` (module `Loader`): `load_transformation_matrix_from_file`.
  - `Load` writes through a caller-owned `array2<real>` (the `Eigen::Matrix4d*`
    out-parameter). It returns the new values of the two frame-string out-parameters.
  - `Load` is proved against `Decode`, a function that follows the source's branches
    in order, including the partial writes a later failure leaves behind.
  - `Decode` is in turn tied to `Record`, a declarative reading of what a loadable
    document says.
- `saver.dfy` (module `Saver`): the document `save_transformation_to_file` builds.
  `Save` makes the nine assignments into an empty node. It is proved to produce
  `SavedDocument`, and that document is shown to load back.
- `composition.dfy` (module `Composition`): the body of `main`.
  - `Compose` is the chain check and the product.
  - `Pipeline` is what `main` saves, if anything, for two files.
  - `Run` is the driver: two loads into fresh buffers, the two `-1` exits, the
    product and the save.

Text-to-number conversion (`readReal`), number-to-text emission (`showReal`) and
Eigen's rotation-matrix-to-quaternion conversion (`extract`) are parameters.

The model follows what `main.cpp` does, including where that departs from what a
reader might expect of a transform-chaining tool:

- **Missing frame ids.** A missing `child_frame_id` or `header.frame_id` is not an
  error. The frame string keeps its previous value, which in `main` is the empty
  string. So two files that name no frames at all chain (`UnnamedFramesChain`).
- **A null frame field.** A frame field that is present but null reads as the text
  "null". This is `as<std::string>` on a null node in yaml-cpp 0.6.0 and later, which
  the model assumes; `main.cpp` pins no version. Earlier releases throw a conversion
  error there, which would make the load fail.
- **No normalisation.** The quaternion is never normalised or checked for
  degeneracy. `RotationMatrix` is Eigen's formula applied to the quaternion as read,
  so a loaded top-left block need not be a rotation. For example, (w, x, y, z) =
  (0, 2, 0, 0) gives diag(1, -7, -7). The model therefore speaks of matrices "with
  bottom row (0, 0, 0, 1)" (`HasUnitBottomRow`), not of rigid transforms.
- **No clean error type.** `main` reports every failure the same way, by returning
  `-1`. A load failure is `false`, whatever its cause: a missing section, a
  non-numeric component, or an exception from a bad subscript.

## Model

| member | source | states |
|---|---|---|
| Geometry.Assign | main.cpp:31-36 | one `matrix(i, j) = v` write sets entry (i, j) to v and leaves the other 15 entries unchanged |
| Geometry.AssignBlock | main.cpp:48 | `block<3,3>(0,0) = r` sets the top-left block to r and leaves the translation column and the bottom row unchanged |
| Geometry.Mul | main.cpp:139 | the 4x4 product `(*parent_matrix) * (*child_matirx)`; what it does to homogeneous matrices is stated by ProductKeepsBottomRow, ProductTranslation, ProductRotation, ProductOfHomogeneous and ProductIdentity |
| Geometry.RotationMatrix | main.cpp:47-48 | Eigen's `toRotationMatrix` of quaternion (w, x, y, z), without normalisation; IdentityQuaternion states its value at the identity, LoadedMatrixFromDocument that the loader writes it into the top-left block |
| Geometry.ProductKeepsBottomRow | main.cpp:139 | the product of two matrices whose bottom row is (0,0,0,1) has bottom row (0,0,0,1) |
| Geometry.ProductTranslation | main.cpp:139 | the translation column of a*b is R_a t_b + t_a when b has bottom row (0,0,0,1) |
| Geometry.ProductRotation | main.cpp:139 | the top-left block of a*b is R_a R_b when b has bottom row (0,0,0,1) |
| Geometry.ProductOfHomogeneous | main.cpp:139 | multiplying the homogeneous matrices of (R_a, t_a) and (R_b, t_b) gives the homogeneous matrix of (R_a R_b, R_a t_b + t_a) |
| Geometry.ProductIdentity | main.cpp:139 | the identity matrix is a unit of the product on both sides |
| Geometry.HomogeneousParts | main.cpp:59-63 | a matrix built from a 3x3 block and a translation column with bottom row (0,0,0,1) has that bottom row, and its blocks are the ones it was built from |
| Geometry.UnitBottomRowIsHomogeneous | main.cpp:59-63 | every matrix whose bottom row is (0,0,0,1) is the homogeneous matrix of its own rotation block and translation column |
| Geometry.IdentityQuaternion | main.cpp:47-48 | the quaternion (w=1, x=y=z=0) converts to the identity rotation |
| Document.Index | main.cpp:17-46 | non-const `operator[]` with a string key: a scalar throws BadSubscript, a mapping yields its entry or an undefined node, a null or sequence node yields an undefined node; MissingSectionRejected and UnreadableComponentRejected state what its results do to the loader |
| Document.TextOf | main.cpp:23-26 | `as<std::string>`: a scalar's text, "null" for a null node, a conversion error otherwise; FramesOverwrittenOnlyWhenPresent and DecodeMatchesRecord state its effect on the frame strings |
| Document.NumberOf | main.cpp:31-46 | `as<double>`: only a defined scalar whose text reads as a number converts; UnreadableComponentRejected states that anything else fails the load |
| Document.Put | main.cpp:74-85 | `root[p0]...[pn] = v`, turning every node on the way into a mapping; PutThenResolve and PutKeepsOthers state its read-back properties, Saver.Save what the nine assignments build |
| Document.PutThenResolve | main.cpp:74-85 | after `root[p0]...[pn] = v` the same path of subscripts yields v |
| Document.PutKeepsOthers | main.cpp:74-85 | an assignment at one path leaves every defined value at a diverging path as it was |
| Loader.FillTranslation | main.cpp:30-36 | the translation writes succeed exactly when x, y and z all read as numbers; they then set entries (0..2, 3) to those numbers; the rotation block and bottom row are untouched even when a component fails |
| Loader.FillMatrix | main.cpp:29-64 | on success the bottom row is (0,0,0,1); on failure the bottom row and the rotation block are as before |
| Loader.Decode | main.cpp:8-65 | on success the bottom row is (0,0,0,1); on failure the bottom row and the rotation block are as the caller left them |
| Loader.DecodeMatchesRecord | main.cpp:8-65 | the loader succeeds exactly when the file parsed, has a transform section, its frame fields convert and all seven numeric fields read as numbers; it then leaves the homogeneous matrix of the document's quaternion and translation, and sets each frame string to the document's id when present and keeps it otherwise |
| Loader.LoadWritesEveryEntry | main.cpp:29-63 | on success the resulting matrix does not depend on what the buffer held: all 16 entries are written |
| Loader.LoadedMatrixFromDocument | main.cpp:30-63 | on success entries (0,3), (1,3), (2,3) are the document's translation x, y, z, the rotation block is the rotation matrix of quaternion (w, x, y, z) read from transform.rotation, and the bottom row is (0,0,0,1) |
| Loader.MissingSectionRejected | main.cpp:17-52 | a missing transform, transform.translation or transform.rotation section makes the load fail, with no default used; without a transform section nothing at all is changed |
| Loader.UnreadableComponentRejected | main.cpp:30-57 | any translation or rotation component that is absent, not a scalar or not numeric makes the load fail |
| Loader.FramesOverwrittenOnlyWhenPresent | main.cpp:21-27 | a frame string is overwritten only with the document's own frame id, and an absent frame field leaves it unchanged |
| Loader.Load | main.cpp:8-65 | the in-place loader returns what `Decode` says and leaves the buffer holding `Decode`'s matrix |
| Loader.FillBuffer | main.cpp:29-64 | the buffer writes return `FillMatrix`'s verdict and leave the buffer holding its matrix |
| Loader.FillBottomRow | main.cpp:59-63 | the loop sets row 3 to (0,0,0,1) and leaves rows 0 to 2 unchanged |
| Saver.CStr | main.cpp:74-75 | `c_str()` yields the longest prefix of the string without a NUL, stopping exactly at the first NUL |
| Saver.CStrWithoutNul | main.cpp:74-75 | a frame id without NUL is saved unchanged |
| Saver.SaveTruncatesAtNul | main.cpp:74-75 | a frame id containing a NUL is saved cut short |
| Saver.SavedDocument | main.cpp:73-85 | the document the saver builds; Saver.Save states that the nine assignments build it, SavedDocumentRecord and SaveThenLoad what loading it gives |
| Saver.Save | main.cpp:67-93 | the nine assignments build exactly `SavedDocument`: child_frame_id, header.frame_id, the translation column and the four quaternion components at their paths |
| Saver.SavedFramesRead | main.cpp:74-75 | the saved document's frame fields hold the saved ids and it has a transform section |
| Saver.SavedTranslationReads | main.cpp:76-78 | each saved translation field reads, as a number, exactly as the text written for the matrix's entry (0..2, 3) reads |
| Saver.SavedRotationReads | main.cpp:82-85 | each saved rotation field reads, as a number, exactly as the text written for that quaternion component reads |
| Saver.SavedDocumentRecord | main.cpp:67-93 | for any number conversions, a saved document reads as the `c_str()` frame ids and the seven numbers as their written texts read back; it is unreadable exactly when one of those texts does not read as a number |
| Saver.SaveThenLoad | main.cpp:67-93 | when the seven written numbers read back as themselves, loading the saved document succeeds, sets both frame strings to the saved ids as `c_str()` left them, and restores the translation column and the bottom row (0,0,0,1) |
| Saver.SaveThenLoadUnreadable | main.cpp:67-93 | when one of the seven written numbers does not read back as a number, loading the saved document fails |
| Composition.Loaded | main.cpp:115-121 | what a file loads to in `main`, frame strings starting empty; DecodeIsLoaded states that the loader gives exactly it |
| Composition.Compose | main.cpp:128-139 | the chain check followed by the product; ComposeHomogeneous states when it succeeds and what it gives |
| Composition.Pipeline | main.cpp:120-139 | both loads, then the chain check and the product; PipelineSucceedsIffChained states when it succeeds and what it gives, Run that `main` saves exactly its result |
| Composition.DecodeIsLoaded | main.cpp:115-121 | each load in `main`, which starts from empty frame strings, succeeds exactly when `Loaded` gives a transform, and then gives that transform |
| Composition.LoadedHasUnitBottomRow | main.cpp:59-63 | every loaded matrix has bottom row (0,0,0,1) |
| Composition.ComposeHomogeneous | main.cpp:128-139 | two transforms with bottom row (0,0,0,1) compose iff the first's child equals the second's parent; the result runs from the first's parent to the second's child, has bottom row (0,0,0,1), top-left block R_a R_b and translation R_a t_b + t_a |
| Composition.PipelineSucceedsIffChained | main.cpp:120-139 | `main` gets to the product exactly when both files load and the first's child frame equals the second's parent frame; the result has the first's parent, the second's child and translation R_a t_b + t_a |
| Composition.UnnamedFramesChain | main.cpp:115-131 | two loadable files that omit the child frame and the parent frame respectively still chain |
| Composition.ComposeIdentity | main.cpp:139 | composing with the identity transform on either side gives back the same transform |
| Composition.OrderMatters | main.cpp:139 | composing a quarter turn about z plus (1,0,0) with a shift (0,1,0) gives translation (0,0,0); the other order gives (1,1,0) |
| Composition.TurnThenStep | main.cpp:139 | the first order's translation is (0,0,0) |
| Composition.StepThenTurn | main.cpp:139 | the second order's translation is (1,1,0) |
| Composition.WorldRobotSensor | main.cpp:139 | world to robot (1,0,0) composed with robot to sensor (0,0,1), both unrotated, is world to sensor (1,0,1) unrotated |
| Composition.SavedLoads | main.cpp:67-93 | a saved document whose seven numbers read back loads in `main` to the saved frame ids (after `c_str()`), translation and quaternion rotation |
| Composition.EndToEnd | main.cpp:120-144 | the world/robot and robot/sensor files chain to world/sensor with translation (1,0,1) and the identity rotation, whenever the texts written for 0 and 1 read back as 0 and 1 |
| Composition.EndToEndWithDigits | main.cpp:120-144 | the same scenario with conversions that know only the texts "0" and "1" |
| Composition.PipelineOutputReloads | main.cpp:144 | when the seven numbers written for the result read back, the saved result reloads with the first file's parent frame and the second file's child frame (after `c_str()`) and the product's translation; it reloads as the whole product matrix when the quaternion extraction inverts the conversion |
| Composition.Run | main.cpp:112-146 | returns -1 with nothing written exactly when a load fails or the frames do not chain, and otherwise returns 0 with the saved document of the product and the outer frame ids |

## Left out

- Reading and writing files: a YAML file is an already-parsed `Option<Node>`.
  `None` stands for `YAML::LoadFile` throwing or returning an undefined node. The
  saved document is returned rather than streamed to `fout`.
- Text and numbers: the text-to-number reading of `as<double>` is the parameter
  `readReal`, and the text yaml-cpp emits for a double is `showReal`. Numbers are
  real numbers. IEEE-754 rounding, infinities and NaN are not modelled.
- Eigen's conversion of a rotation matrix to a quaternion
  (`Quaterniond(Matrix3d)`) is the parameter `extract`.
- Console output, `argc`/`argv` handling (main.cpp:96-111) and the messages of
  exceptions are not modelled.
- Heap allocation and leaks of the `new Eigen::Matrix4d` buffers are not modelled.
  `Run` allocates zero-filled `real` arrays where Eigen leaves the entries
  uninitialised. `LoadWritesEveryEntry` shows the initial contents make no
  difference on success.
- `save_transformation_to_file` has no return statement: its `int` result is not
  modelled. `Save` takes the matrix by value, since it only reads it.
- The ordering and layout of the emitted YAML text are not modelled; the model
  keeps the document as a tree.
- Whether yaml-cpp's emitter writes enough digits for a double to read back
  exactly is not modelled. SaveThenLoad and SavedLoads require it of the seven
  numbers written. SavedDocumentRecord and SaveThenLoadUnreadable cover every
  other case.
- Composition.PipelineOutputReloads: the saved rotation reloads as the product's
  rotation block only if `extract` inverts the quaternion-to-matrix conversion on
  that block. The model states this as a condition rather than proving it of
  Eigen's algorithm.
