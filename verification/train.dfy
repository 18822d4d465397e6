/** The dataset checks of the YOLO training script: which files count as
    images, where each image's label file is expected, how many labels are
    missing per split, and what the data description lists. Paths are
    sequences of components; the filesystem is a map from path to kind. */
module Train {
  import opened Wrappers
  import Text

  /** A path as its components, `PurePath.parts` without the anchor. */
  type Path = seq<string>

  datatype Kind = Dir | File

  /** The paths that exist and what each is. */
  type Fs = map<Path, Kind>

  const Splits: seq<string> := ["train", "val", "test"]
  const Names: seq<string> := ["horse"]
  const ImageSuffixes: set<string> := {".jpg", ".jpeg", ".png", ".bmp", ".webp"}
  const LabelSuffix := ".txt"

  // ---------------------------------------------------------------------
  // PurePath.suffix and with_suffix
  // ---------------------------------------------------------------------

  /** The index of the last dot in `name`, or -1. */
  function LastDot(name: string): (i: int)
    ensures -1 <= i < |name|
    ensures i >= 0 ==> name[i] == '.'
    ensures forall k :: i < k < |name| ==> name[k] != '.'
  {
    if |name| == 0 then -1
    else if name[|name| - 1] == '.' then |name| - 1
    else LastDot(name[..|name| - 1])
  }

  /** `PurePath(name).suffix`: from the last dot on, when that dot is
      neither the first nor the last character; otherwise empty. */
  function Suffix(name: string): (s: string)
    ensures s == [] || (s[0] == '.' && |s| >= 2 && '.' !in s[1..])
    ensures Text.EndsWith(name, s)
  {
    var i := LastDot(name);
    if 0 < i < |name| - 1 then name[i..]
    else []
  }

  /** `PurePath(name).stem`: the name without its suffix. */
  function Stem(name: string): string {
    name[..|name| - |Suffix(name)|]
  }

  /** `with_suffix(suffix)` on the last component. */
  function WithSuffix(name: string, suffix: string): string {
    Stem(name) + suffix
  }

  /** Stem and suffix put back together give the name. */
  lemma StemSuffix(name: string)
    ensures Stem(name) + Suffix(name) == name
  {
  }

  /** The new suffix is what `suffix` then reads back, and the stem is
      kept, for every non-empty name (`with_suffix` raises `ValueError`
      on an empty one). */
  lemma WithSuffixRoundTrip(name: string, suffix: string)
    requires |suffix| >= 2 && suffix[0] == '.' && '.' !in suffix[1..]
    requires |name| > 0
    ensures Suffix(WithSuffix(name, suffix)) == suffix
    ensures Stem(WithSuffix(name, suffix)) == Stem(name)
  {
    var stem := Stem(name);
    var w := stem + suffix;
    assert w[|stem|] == '.';
    forall k | |stem| < k < |w| ensures w[k] != '.' {
      assert w[k] == suffix[1..][k - |stem| - 1];
    }
    assert |stem| > 0;
    assert LastDot(w) == |stem|;
    assert w[..|stem|] == stem;
  }

  // ---------------------------------------------------------------------
  // _assert_dir
  // ---------------------------------------------------------------------

  /** `_assert_dir(p, name)`: a missing path raises `FileNotFoundError`,
      one that is not a folder `NotADirectoryError`. */
  function AssertDir(fs: Fs, p: Path): (r: Option<string>)
    ensures r.None? <==> p in fs && fs[p] == Dir
    ensures p !in fs ==> r == Some("FileNotFoundError")
    ensures p in fs && fs[p] != Dir ==> r == Some("NotADirectoryError")
  {
    if p !in fs then Some("FileNotFoundError")
    else if fs[p] != Dir then Some("NotADirectoryError")
    else None
  }

  // ---------------------------------------------------------------------
  // validate_dataset
  // ---------------------------------------------------------------------

  /** `p.suffix.lower() in {...}`. */
  predicate IsImage(p: Path) {
    |p| > 0 && Text.Lower(Suffix(p[|p| - 1])) in ImageSuffixes
  }

  /** The test looks at the last component's suffix only, ignoring case;
      a name whose only dot is its first character, like `.png`, has no
      suffix and so is not an image. */
  lemma ImageNames(dir: Path)
    ensures IsImage(dir + ["a.JPG"])
    ensures !IsImage(dir + [".png"])
    ensures !IsImage(dir + ["a.png.txt"])
  {
    DotAt("a.JPG", 1);
    assert Suffix("a.JPG") == ".JPG";
    assert Text.Lower(".JPG") == ".jpg";
    DotAt(".png", 0);
    DotAt("a.png.txt", 5);
    assert Suffix("a.png.txt") == ".txt";
    assert Text.Lower(".txt") == ".txt";
  }

  /** A dot with no dot after it is the last dot. */
  lemma DotAt(name: string, i: nat)
    requires i < |name| && name[i] == '.'
    requires forall k :: i < k < |name| ==> name[k] != '.'
    ensures LastDot(name) == i
  {
  }

  /** `dir.rglob("*")`: everything strictly below `dir`. */
  predicate Below(dir: Path, p: Path) {
    |dir| < |p| && p[..|dir|] == dir
  }

  /** The images of a split. */
  function Images(fs: Fs, imgDir: Path): set<Path> {
    set p | p in fs.Keys && Below(imgDir, p) && IsImage(p)
  }

  /** `(lbl_dir / ip.relative_to(img_dir)).with_suffix(".txt")`. */
  function LabelPath(imgDir: Path, lblDir: Path, image: Path): (lp: Path)
    requires Below(imgDir, image)
    ensures |lp| == |lblDir| + |image| - |imgDir|
    ensures lp[..|lblDir|] == lblDir
  {
    var rel := image[|imgDir|..];
    lblDir + rel[..|rel| - 1] + [WithSuffix(rel[|rel| - 1], LabelSuffix)]
  }

  /** The images whose label file does not exist. */
  function Unlabelled(fs: Fs, imgDir: Path, lblDir: Path): set<Path> {
    set p | p in Images(fs, imgDir) && LabelPath(imgDir, lblDir, p) !in fs
  }

  /** What `validate_dataset` reports for one split. */
  datatype SplitReport =
    | NoImages(split: string)
    | Matched(split: string, images: nat, missing: nat)

  /** One split: both folders must be folders; no images is a warning and
      nothing else; otherwise the images and the missing labels are
      counted. */
  function ValidateSplit(fs: Fs, imagesDir: Path, labelsDir: Path, split: string): (r: Result<SplitReport>)
    ensures r.Success? <==> AssertDir(fs, imagesDir + [split]).None? && AssertDir(fs, labelsDir + [split]).None?
    ensures r.Success? && r.value.Matched? ==> r.value.missing <= r.value.images && r.value.images > 0
    ensures r.Success? ==> r.value.split == split
    ensures r.Success? ==> (r.value.NoImages? <==> Images(fs, imagesDir + [split]) == {})
    ensures r.Success? && r.value.Matched? ==>
      && r.value.images == |Images(fs, imagesDir + [split])|
      && r.value.missing == |Unlabelled(fs, imagesDir + [split], labelsDir + [split])|
  {
    var imgDir := imagesDir + [split];
    var lblDir := labelsDir + [split];
    match AssertDir(fs, imgDir)
    case Some(e) => Failure(e)
    case None =>
      match AssertDir(fs, lblDir)
      case Some(e) => Failure(e)
      case None =>
        var images := Images(fs, imgDir);
        if |images| == 0 then Success(NoImages(split))
        else
          SubsetCard(Unlabelled(fs, imgDir, lblDir), images);
          Success(Matched(split, |images|, |Unlabelled(fs, imgDir, lblDir)|))
  }

  lemma SubsetCard<T>(a: set<T>, b: set<T>)
    requires a <= b
    ensures |a| <= |b|
  {
    assert b == a + (b - a);
  }

  /** The outcome of `validate_dataset`: the reports printed, then the
      error that stopped it, if any. */
  datatype Validation = Validation(reports: seq<SplitReport>, error: Option<string>)

  /** What checking each split on its own gives, in split order. */
  function Outcomes(fs: Fs, imagesDir: Path, labelsDir: Path, splits: seq<string>): (r: seq<Result<SplitReport>>)
    ensures |r| == |splits|
    ensures forall i :: 0 <= i < |r| ==> r[i] == ValidateSplit(fs, imagesDir, labelsDir, splits[i])
  {
    seq(|splits|, i requires 0 <= i < |splits| => ValidateSplit(fs, imagesDir, labelsDir, splits[i]))
  }

  /** The loop of `validate_dataset`: each outcome in turn is reported, and
      the first error stops it. */
  function Collect(outcomes: seq<Result<SplitReport>>): (v: Validation)
    ensures |v.reports| <= |outcomes|
    ensures v.error.None? ==> |v.reports| == |outcomes|
    ensures forall i :: 0 <= i < |v.reports| ==> outcomes[i] == Success(v.reports[i])
  {
    if |outcomes| == 0 then Validation([], None)
    else match outcomes[0]
      case Failure(e) => Validation([], Some(e))
      case Success(report) =>
        var rest := Collect(outcomes[1..]);
        Validation([report] + rest.reports, rest.error)
  }

  /** `validate_dataset()`, splits in the given order. */
  function ValidateSplits(fs: Fs, imagesDir: Path, labelsDir: Path, splits: seq<string>): (v: Validation)
    ensures |v.reports| <= |splits|
    ensures v.error.None? ==> |v.reports| == |splits|
    ensures forall i :: 0 <= i < |v.reports| ==> v.reports[i].split == splits[i]
  {
    Collect(Outcomes(fs, imagesDir, labelsDir, splits))
  }

  function ValidateDataset(fs: Fs, imagesDir: Path, labelsDir: Path): Validation {
    ValidateSplits(fs, imagesDir, labelsDir, Splits)
  }

  /** The splits are checked in the order train, val, test; a split whose
      folders are in place is reported, and the first split whose folders
      are not stops the check with the error of its first bad folder. */
  lemma ValidationOrder(fs: Fs, imagesDir: Path, labelsDir: Path, splits: seq<string>, k: nat)
    requires k < |splits|
    requires forall j :: 0 <= j < k ==> ValidateSplit(fs, imagesDir, labelsDir, splits[j]).Success?
    ensures var v := ValidateSplits(fs, imagesDir, labelsDir, splits);
      && |v.reports| >= k
      && (forall j :: 0 <= j < k ==> v.reports[j] == ValidateSplit(fs, imagesDir, labelsDir, splits[j]).value)
      && (ValidateSplit(fs, imagesDir, labelsDir, splits[k]).Failure? ==>
            |v.reports| == k && v.error == Some(ValidateSplit(fs, imagesDir, labelsDir, splits[k]).error))
  {
    CollectOrder(Outcomes(fs, imagesDir, labelsDir, splits), k);
  }

  /** Outcomes before the `k`-th that all succeeded are reported, and a
      failing `k`-th stops the loop there with its error. */
  lemma {:induction false} CollectOrder(outcomes: seq<Result<SplitReport>>, k: nat)
    requires k < |outcomes|
    requires forall j :: 0 <= j < k ==> outcomes[j].Success?
    ensures var v := Collect(outcomes);
      && |v.reports| >= k
      && (outcomes[k].Failure? ==> |v.reports| == k && v.error == Some(outcomes[k].error))
  {
    if k > 0 {
      assert forall j :: 0 <= j < k - 1 ==> outcomes[1..][j] == outcomes[j + 1];
      CollectOrder(outcomes[1..], k - 1);
    }
  }

  /** The label expected for an image sits in the label folder at the
      image's relative place, with its suffix replaced by `.txt`. */
  lemma LabelPathShape(imgDir: Path, lblDir: Path, image: Path)
    requires Below(imgDir, image)
    requires |image[|image| - 1]| > 0
    ensures var lp := LabelPath(imgDir, lblDir, image);
      && lp[..|lp| - 1] == lblDir + image[|imgDir|..|image| - 1]
      && Suffix(lp[|lp| - 1]) == LabelSuffix
      && Stem(lp[|lp| - 1]) == Stem(image[|image| - 1])
  {
    LabelPathParts(imgDir, lblDir, image);
    LabelSuffixShape();
    WithSuffixRoundTrip(image[|image| - 1], LabelSuffix);
  }

  lemma LabelPathParts(imgDir: Path, lblDir: Path, image: Path)
    requires Below(imgDir, image)
    ensures var lp := LabelPath(imgDir, lblDir, image);
      && lp[..|lp| - 1] == lblDir + image[|imgDir|..|image| - 1]
      && lp[|lp| - 1] == WithSuffix(image[|image| - 1], LabelSuffix)
  {
    RelativeParts(imgDir, image);
    SnocParts(lblDir + image[|imgDir|..|image| - 1], WithSuffix(image[|image| - 1], LabelSuffix));
  }

  lemma RelativeParts(imgDir: Path, image: Path)
    requires Below(imgDir, image)
    ensures var rel := image[|imgDir|..];
      rel[|rel| - 1] == image[|image| - 1] && rel[..|rel| - 1] == image[|imgDir|..|image| - 1]
  {
  }

  lemma SnocParts<T>(a: seq<T>, x: T)
    ensures (a + [x])[..|a|] == a && (a + [x])[|a|] == x && |a + [x]| == |a| + 1
  {
  }

  lemma LabelSuffixShape()
    ensures |LabelSuffix| >= 2 && LabelSuffix[0] == '.' && '.' !in LabelSuffix[1..]
  {
    assert LabelSuffix[1..] == "txt";
  }

  /** A split whose images all have their label reports no missing label,
      and each missing label is an image whose label file is absent. */
  lemma MissingCountsUnlabelled(fs: Fs, imgDir: Path, lblDir: Path)
    ensures Unlabelled(fs, imgDir, lblDir) <= Images(fs, imgDir)
    ensures (forall p :: p in Images(fs, imgDir) ==> LabelPath(imgDir, lblDir, p) in fs) ==>
      |Unlabelled(fs, imgDir, lblDir)| == 0
  {
    if forall p :: p in Images(fs, imgDir) ==> LabelPath(imgDir, lblDir, p) in fs {
      assert Unlabelled(fs, imgDir, lblDir) == {};
    }
  }

  // ---------------------------------------------------------------------
  // write_data_yaml
  // ---------------------------------------------------------------------

  /** The data description: the three split image folders, the class
      count and the class names. */
  datatype DataYaml = DataYaml(train: string, val: string, test: string, nc: nat, names: seq<string>)

  /** `Path.as_posix()`: the components joined with `/`. */
  function AsPosix(p: Path): string {
    Text.Join(p, '/')
  }

  /** `write_data_yaml(path)`'s `data` for the images folder `imagesDir`. */
  function WriteDataYaml(imagesDir: Path): (d: DataYaml)
    ensures d.nc == |d.names| && d.names == Names
  {
    DataYaml(AsPosix(imagesDir + ["train"]), AsPosix(imagesDir + ["val"]), AsPosix(imagesDir + ["test"]), |Names|, Names)
  }

  /** Each split folder in the description reads back, split on `/`, as
      the images folder followed by the split's name, so the three are
      told apart. */
  lemma DataYamlFolders(imagesDir: Path)
    requires forall i :: 0 <= i < |imagesDir| ==> '/' !in imagesDir[i]
    ensures var d := WriteDataYaml(imagesDir);
      && Text.Split(d.train, '/') == imagesDir + ["train"]
      && Text.Split(d.val, '/') == imagesDir + ["val"]
      && Text.Split(d.test, '/') == imagesDir + ["test"]
      && d.train != d.val && d.val != d.test && d.train != d.test
      && d.nc == 1
  {
    forall s | s in Splits ensures Text.Split(AsPosix(imagesDir + [s]), '/') == imagesDir + [s] {
      assert forall i :: 0 <= i < |imagesDir + [s]| ==> '/' !in (imagesDir + [s])[i];
      Text.SplitJoin(imagesDir + [s], '/');
    }
    assert Splits[0] == "train" && Splits[1] == "val" && Splits[2] == "test";
    var t := imagesDir + ["train"];
    var v := imagesDir + ["val"];
    assert t[|imagesDir|] != v[|imagesDir|];
  }
}
