/** The inference service: the `/predict` request flow (content-type gate,
    decode gate, inference, drawing, saving one result file, the streamed
    answer), the `/health` report and the start-up check for the weights
    file. The decoder, the detector, the font metrics, the clock and the
    filesystem are parameters; pixels are not modelled, only the marks
    drawn on a picture. */
module Api {
  import opened Wrappers
  import opened Text
  import PosixPath
  import Seqs
  import opened Logging

  // ---------------------------------------------------------------------
  // Pictures and detections
  // ---------------------------------------------------------------------

  datatype Point = Point(x: int, y: int)

  /** A rectangle `[left, top, right, bottom]` as PIL takes it. */
  datatype Rect = Rect(left: int, top: int, right: int, bottom: int)

  datatype Colour = Red | White

  /** What `ImageDraw` puts on a picture. */
  datatype Mark =
    | Outline(box: Rect, colour: Colour, width: nat)
    | Fill(box: Rect, colour: Colour)
    | Caption(origin: Point, text: string, colour: Colour)

  /** A decoded RGB picture: its decoded content, left abstract, and the
      marks drawn on it so far, oldest first. */
  datatype Picture = Picture(content: seq<int>, marks: seq<Mark>)

  /** One detection: corners, the confidence already formatted with two
      decimals, and the class id after `int()`. */
  datatype Box = Box(x1: int, y1: int, x2: int, y2: int, confidence: string, cls: int)

  /** The first result of running the detector: its boxes (`None` when the
      result has none) and its class-name table; or the exception raised. */
  datatype Inference =
    | Detected(boxes: Option<seq<Box>>, names: map<int, string>)
    | InferenceFailed(error: string)

  /** The loaded detector, known by the weights file it was loaded from. */
  datatype Model = Model(weights: string)

  /** The uploaded file as the endpoint receives it. */
  datatype Upload = Upload(filename: string, contentType: Option<string>, body: seq<int>)

  /** A record written to the `horse-api` logger. */
  datatype Entry = Entry(level: Level, message: string)

  datatype Response =
    | Stream(mediaType: string, headers: map<string, string>, picture: Picture)
    | HttpError(status: nat, detail: string)
    | InternalError(error: string)

  /** What a request does besides answering: read the upload, run the
      detector, write a picture to disk. */
  datatype Effect = ReadBody | RunModel | Save(path: string, picture: Picture)

  datatype Outcome = Outcome(response: Response, effects: seq<Effect>, log: seq<Entry>)

  const InvalidTypeDetail := "이미지 파일만 업로드 가능합니다."
  const LoadFailDetail := "이미지 로딩에 실패했습니다."
  const NoDetectionText := "Prediction Failed: No object detected"
  const FailedPrefix := "failed_"
  const SuccessPrefix := "success_"
  const DispositionPrefix := "inline; filename=result_"
  const ModelFile := "src/model/saved/best.pt"

  // ---------------------------------------------------------------------
  // Small rules
  // ---------------------------------------------------------------------

  /** The content-type gate: a type is present and starts with `image/`. */
  predicate IsImageType(contentType: Option<string>) {
    contentType.Some? && StartsWith(contentType.value, "image/")
  }

  /** An empty content type is as absent as a missing one. */
  lemma EmptyTypeRejected()
    ensures !IsImageType(Some(""))
    ensures !IsImageType(None)
    ensures IsImageType(Some("image/png"))
  {
  }

  /** How an optional string appears inside an f-string. */
  function Shown(o: Option<string>): string {
    if o.None? then "None" else o.value
  }

  /** The stored file name: the timestamp, an underscore, the upload's
      name, behind the branch prefix. */
  function SaveName(prefix: string, timestamp: string, filename: string): string {
    prefix + timestamp + "_" + filename
  }

  /** A failed and a successful result never share a file name, whatever
      the timestamps and upload names. */
  lemma SaveNamesDistinct(t1: string, f1: string, t2: string, f2: string)
    ensures SaveName(FailedPrefix, t1, f1) != SaveName(SuccessPrefix, t2, f2)
  {
    assert SaveName(FailedPrefix, t1, f1)[0] == 'f';
    assert SaveName(SuccessPrefix, t2, f2)[0] == 's';
  }

  /** With timestamps of one fixed width (`%Y%m%d_%H%M%S` always gives
      fifteen characters for four-digit years), the stored name determines
      both the timestamp and the upload's name. */
  lemma SaveNameInjective(prefix: string, t1: string, f1: string, t2: string, f2: string)
    requires |t1| == |t2|
    requires SaveName(prefix, t1, f1) == SaveName(prefix, t2, f2)
    ensures t1 == t2 && f1 == f2
  {
    var n1 := SaveName(prefix, t1, f1);
    var n2 := SaveName(prefix, t2, f2);
    assert t1 == n1[|prefix|..|prefix| + |t1|];
    assert t2 == n2[|prefix|..|prefix| + |t2|];
    assert f1 == n1[|prefix| + |t1| + 1..];
    assert f2 == n2[|prefix| + |t2| + 1..];
  }

  /** The `Content-Disposition` value of the answer. */
  function Disposition(filename: string): string {
    DispositionPrefix + filename
  }

  /** The header names the upload: the upload's name is what follows the
      fixed prefix. */
  lemma DispositionNamesUpload(filename: string)
    ensures StartsWith(Disposition(filename), DispositionPrefix)
    ensures Disposition(filename)[|DispositionPrefix|..] == filename
  {
  }

  // ---------------------------------------------------------------------
  // Labels and their geometry
  // ---------------------------------------------------------------------

  /** `names.get(k, k)` as text: the class name when the table has one,
      otherwise the id itself. */
  function ClassName(names: map<int, string>, k: int): string {
    if k in names then names[k] else IntToString(k)
  }

  /** When the table has no name for a class, the label shows its id, and
      `int()` of that text gives the id back. */
  lemma ClassNameFallsBackToId(names: map<int, string>, k: int)
    ensures k in names ==> ClassName(names, k) == names[k]
    ensures k !in names ==> ParseInt(ClassName(names, k)) == Some(k)
  {
    if k !in names {
      ParseIntString(k);
    }
  }

  /** The caption drawn next to a box: class, one space, confidence. */
  function Label(names: map<int, string>, b: Box): string {
    ClassName(names, b.cls) + [' '] + b.confidence
  }

  /** A label splits back into its parts: the last space-separated field
      is the confidence, and the fields before it joined with spaces are
      the class name (which may itself contain spaces). */
  lemma LabelParts(names: map<int, string>, b: Box)
    requires ' ' !in b.confidence
    ensures var fields := Split(Label(names, b), ' ');
      && fields[|fields| - 1] == b.confidence
      && Join(fields[..|fields| - 1], ' ') == ClassName(names, b.cls)
  {
    var name := ClassName(names, b.cls);
    SplitAround(name, ' ', b.confidence);
    SplitNoSeparator(b.confidence, ' ');
    JoinSplit(name, ' ');
    var fields := Split(Label(names, b), ' ');
    assert fields == Split(name, ' ') + [b.confidence];
    assert fields[..|fields| - 1] == Split(name, ' ');
  }

  /** The width and height of a text box from `textbbox`. */
  function Width(r: Rect): int {
    r.right - r.left
  }

  function Height(r: Rect): int {
    r.bottom - r.top
  }

  /** The red background behind a label of size `size`: its bottom-left
      corner on the box's top-left corner. */
  function Background(b: Box, size: Rect): Rect {
    Rect(b.x1, b.y1 - Height(size) - 6, b.x1 + Width(size) + 6, b.y1)
  }

  /** Where the label's text is drawn. */
  function CaptionOrigin(b: Box, size: Rect): Point {
    Point(b.x1 + 3, b.y1 - Height(size) - 3)
  }

  predicate Inside(p: Point, r: Rect) {
    r.left <= p.x <= r.right && r.top <= p.y <= r.bottom
  }

  /** The background sits on the box's top edge, starting at its left
      edge, and the text occupies it with a margin of three on every
      side. */
  lemma LabelMargins(b: Box, size: Rect)
    ensures var bg := Background(b, size);
      var o := CaptionOrigin(b, size);
      && bg.left == b.x1 && bg.bottom == b.y1
      && o.x - bg.left == 3 && bg.right - (o.x + Width(size)) == 3
      && o.y - bg.top == 3 && bg.bottom - (o.y + Height(size)) == 3
  {
  }

  /** The text origin lies in the background exactly when the measured
      text is no more than three units smaller than empty in either
      direction; so it always does for a real text box. */
  lemma OriginInsideBackground(b: Box, size: Rect)
    ensures Inside(CaptionOrigin(b, size), Background(b, size))
            <==> Width(size) >= -3 && Height(size) >= -3
  {
  }

  /** The three marks for one detection: the box outline, the label
      background, the label text. `measure` is `textbbox((0, 0), label)`. */
  function BoxMarks(names: map<int, string>, measure: string -> Rect, b: Box): seq<Mark> {
    var caption := Label(names, b);
    var size := measure(caption);
    [ Outline(Rect(b.x1, b.y1, b.x2, b.y2), Red, 3),
      Fill(Background(b, size), Red),
      Caption(CaptionOrigin(b, size), caption, White) ]
  }

  /** The marks for all detections, box by box in the detector's order. */
  function DrawBoxes(names: map<int, string>, measure: string -> Rect, boxes: seq<Box>): seq<Mark> {
    Seqs.FlatMap(b => BoxMarks(names, measure, b), boxes)
  }

  /** Three marks per detection; the marks of box `i` are the three at
      `3 * i`: its outline, its label background, its label text. */
  lemma DrawBoxesAt(names: map<int, string>, measure: string -> Rect, boxes: seq<Box>, i: nat)
    requires i < |boxes|
    ensures |DrawBoxes(names, measure, boxes)| == 3 * |boxes|
    ensures DrawBoxes(names, measure, boxes)[3 * i..3 * i + 3] == BoxMarks(names, measure, boxes[i])
  {
    Seqs.FlatMapAt(b => BoxMarks(names, measure, b), boxes, i);
  }

  /** Drawing distributes over splitting the detections. */
  lemma DrawBoxesConcat(names: map<int, string>, measure: string -> Rect, a: seq<Box>, b: seq<Box>)
    ensures DrawBoxes(names, measure, a + b) == DrawBoxes(names, measure, a) + DrawBoxes(names, measure, b)
  {
    Seqs.FlatMapConcat(b => BoxMarks(names, measure, b), a, b);
  }

  // ---------------------------------------------------------------------
  // The request flow
  // ---------------------------------------------------------------------

  /** `OUTPUT_DIR`: the `outputs` folder of the project. */
  function OutputDir(projectDir: string): string {
    PosixPath.Join(projectDir, "outputs")
  }

  predicate NoDetections(boxes: Option<seq<Box>>) {
    boxes.None? || |boxes.value| == 0
  }

  /** The picture and the log line once the detector has answered: the
      failure text, or the marks of every box. */
  function Annotate(pic: Picture, boxes: Option<seq<Box>>, names: map<int, string>,
                    measure: string -> Rect): (r: Picture)
    ensures r.content == pic.content
    ensures |r.marks| >= |pic.marks| && r.marks[..|pic.marks|] == pic.marks
    ensures NoDetections(boxes) ==> r.marks[|pic.marks|..] == [Caption(Point(20, 20), NoDetectionText, Red)]
    ensures !NoDetections(boxes) ==> |r.marks| == |pic.marks| + 3 * |boxes.value|
    ensures !NoDetections(boxes) ==> r.marks[|pic.marks|..] == DrawBoxes(names, measure, boxes.value)
  {
    var added := if NoDetections(boxes) then [Caption(Point(20, 20), NoDetectionText, Red)]
                 else (Seqs.FlatMapLength(b => BoxMarks(names, measure, b), boxes.value); DrawBoxes(names, measure, boxes.value));
    var r := Picture(pic.content, pic.marks + added);
    assert r.marks[|pic.marks|..] == added;
    r
  }

  /** The paths written to disk, in order: a path is listed exactly when
      some `Save` effect wrote it. */
  function SavedPaths(effects: seq<Effect>): (paths: seq<string>)
    ensures |paths| <= |effects|
    ensures forall p :: p in paths <==> exists i :: 0 <= i < |effects| && effects[i].Save? && effects[i].path == p
  {
    if |effects| == 0 then []
    else SavedPaths(effects[..|effects| - 1])
         + (if effects[|effects| - 1].Save? then [effects[|effects| - 1].path] else [])
  }

  /** Steps 4 and 5 of `predict`: pick the branch on whether anything was
      detected, draw, save under `failed_` or `success_`, stream the
      picture back as PNG. */
  function Render(u: Upload, pic: Picture, boxes: Option<seq<Box>>, names: map<int, string>,
                  measure: string -> Rect, projectDir: string, timestamp: string,
                  elapsed: string): (o: Outcome)
    ensures o.response.Stream?
    ensures o.response.mediaType == "image/png"
    ensures o.response.headers == map["Content-Disposition" := Disposition(u.filename)]
    ensures |o.effects| == 3 && o.effects[0] == ReadBody && o.effects[1] == RunModel
    ensures o.effects[2].Save? && o.effects[2].picture == o.response.picture
    ensures var prefix := if NoDetections(boxes) then FailedPrefix else SuccessPrefix;
      SavedPaths(o.effects) == [PosixPath.Join(OutputDir(projectDir), SaveName(prefix, timestamp, u.filename))]
    ensures o.response.picture == Annotate(pic, boxes, names, measure)
    ensures o.log == [Entry(Info, RequestLine(u)), Entry(Info, ResultLine(u, boxes, elapsed))]
  {
    var drawn := Annotate(pic, boxes, names, measure);
    var prefix := if NoDetections(boxes) then FailedPrefix else SuccessPrefix;
    var path := PosixPath.Join(OutputDir(projectDir), SaveName(prefix, timestamp, u.filename));
    var effects := [ReadBody, RunModel, Save(path, drawn)];
    assert SavedPaths(effects[..2]) == [] by {
      assert effects[..2][..1] == [ReadBody];
      assert [ReadBody][..0] == [];
    }
    Outcome(Stream("image/png", map["Content-Disposition" := Disposition(u.filename)], drawn),
            effects,
            [Entry(Info, RequestLine(u)), Entry(Info, ResultLine(u, boxes, elapsed))])
  }

  /** The line every request logs first. */
  function RequestLine(u: Upload): string {
    "REQUEST | filename=" + u.filename + " content_type=" + Shown(u.contentType)
  }

  /** The warning logged for an upload that is not an image. */
  function InvalidFileLine(u: Upload): string {
    "INVALID_FILE | filename=" + u.filename + " content_type=" + Shown(u.contentType)
  }

  /** The error logged when the upload cannot be read as an image. */
  function LoadFailLine(u: Upload, error: string): string {
    "IMAGE_LOAD_FAIL | filename=" + u.filename + " error=" + error
  }

  /** The result line; `elapsed` is the inference time already formatted
      to three decimals. */
  function ResultLine(u: Upload, boxes: Option<seq<Box>>, elapsed: string): string {
    "RESULT | filename=" + u.filename + " status=" + ResultStatus(boxes) + " inference_time=" + elapsed + "s"
  }

  /** The result line's status field. */
  function ResultStatus(boxes: Option<seq<Box>>): string {
    if NoDetections(boxes) then "FAIL" else "SUCCESS boxes=" + NatToString(|boxes.value|)
  }

  /** The status says `FAIL` exactly when nothing was detected, and
      otherwise carries a count that reads back as the number of boxes. */
  lemma ResultStatusFields(boxes: Option<seq<Box>>)
    ensures |ResultStatus(boxes)| >= 4
    ensures ResultStatus(boxes)[..4] == "FAIL" <==> NoDetections(boxes)
    ensures !NoDetections(boxes) ==>
      && ResultStatus(boxes) == "SUCCESS boxes=" + NatToString(|boxes.value|)
      && ParseInt(NatToString(|boxes.value|)) == Some(|boxes.value|)
  {
    if !NoDetections(boxes) {
      var n := |boxes.value|;
      SuccessIsNotFail(NatToString(n));
      ParseIntString(n);
      assert IntToString(n) == NatToString(n);
    }
  }

  lemma SuccessIsNotFail(digits: string)
    ensures |"SUCCESS boxes=" + digits| >= 4 && ("SUCCESS boxes=" + digits)[..4] != "FAIL"
  {
    var status := "SUCCESS boxes=" + digits;
    assert status[0] == 'S';
  }

  /** The whole of `predict`. `model` is the handle set at start-up (calling
      an unset handle raises `TypeError`), `decode` is reading and
      converting the upload, `detect` is running the detector on a picture,
      `measure` is `textbbox`, and `timestamp` and `elapsed` are the
      formatted clock readings. */
  function Predict(model: Option<Model>, u: Upload, decode: seq<int> -> Result<Picture>,
                   detect: (Model, Picture) -> Inference, measure: string -> Rect,
                   projectDir: string, timestamp: string, elapsed: string): (o: Outcome)
    ensures !IsImageType(u.contentType) ==>
      o.response == HttpError(400, InvalidTypeDetail) && o.effects == []
    ensures IsImageType(u.contentType) && decode(u.body).Failure? ==>
      o.response == HttpError(400, LoadFailDetail) && o.effects == [ReadBody]
    ensures RunModel in o.effects <==>
      IsImageType(u.contentType) && decode(u.body).Success? && model.Some?
    ensures o.response.Stream? <==>
      && IsImageType(u.contentType) && decode(u.body).Success? && model.Some?
      && detect(model.value, decode(u.body).value).Detected?
    ensures o.response.Stream? ==>
      var inf := detect(model.value, decode(u.body).value);
      o == Render(u, decode(u.body).value, inf.boxes, inf.names, measure, projectDir, timestamp, elapsed)
    ensures |SavedPaths(o.effects)| == (if o.response.Stream? then 1 else 0)
    ensures |o.log| >= 1 && o.log[0] == Entry(Info, RequestLine(u))
    ensures !IsImageType(u.contentType) ==>
      o.log == [Entry(Info, RequestLine(u)), Entry(Warning, InvalidFileLine(u))]
    ensures IsImageType(u.contentType) && decode(u.body).Failure? ==>
      o.log == [Entry(Info, RequestLine(u)), Entry(Error, LoadFailLine(u, decode(u.body).error))]
    ensures IsImageType(u.contentType) && decode(u.body).Success? && model.None? ==>
      o == Outcome(InternalError("TypeError"), [ReadBody], [Entry(Info, RequestLine(u))])
    ensures IsImageType(u.contentType) && decode(u.body).Success? && model.Some?
            && detect(model.value, decode(u.body).value).InferenceFailed? ==>
      o == Outcome(InternalError(detect(model.value, decode(u.body).value).error), [ReadBody, RunModel],
                   [Entry(Info, RequestLine(u))])
  {
    var request := Entry(Info, RequestLine(u));
    if !IsImageType(u.contentType) then
      Outcome(HttpError(400, InvalidTypeDetail), [],
              [request, Entry(Warning, InvalidFileLine(u))])
    else match decode(u.body)
      case Failure(e) =>
        var o := Outcome(HttpError(400, LoadFailDetail), [ReadBody],
                         [request, Entry(Error, LoadFailLine(u, e))]);
        assert SavedPaths([ReadBody]) == [] by { assert [ReadBody][..0] == []; }
        o
      case Success(pic) =>
        if model.None? then
          assert SavedPaths([ReadBody]) == [] by { assert [ReadBody][..0] == []; }
          Outcome(InternalError("TypeError"), [ReadBody], [request])
        else match detect(model.value, pic)
          case InferenceFailed(e) =>
            assert SavedPaths([ReadBody, RunModel]) == [] by {
              assert [ReadBody, RunModel][..1] == [ReadBody];
              assert [ReadBody][..0] == [];
            }
            Outcome(InternalError(e), [ReadBody, RunModel], [request])
          case Detected(boxes, names) =>
            Render(u, pic, boxes, names, measure, projectDir, timestamp, elapsed)
  }

  /** Exactly one file is written per answered request, and it is the
      `failed_` one precisely when nothing was detected. */
  lemma OneResultFile(model: Option<Model>, u: Upload, decode: seq<int> -> Result<Picture>,
                      detect: (Model, Picture) -> Inference, measure: string -> Rect,
                      projectDir: string, timestamp: string, elapsed: string)
    requires IsImageType(u.contentType) && decode(u.body).Success? && model.Some?
    requires detect(model.value, decode(u.body).value).Detected?
    ensures var o := Predict(model, u, decode, detect, measure, projectDir, timestamp, elapsed);
      var boxes := detect(model.value, decode(u.body).value).boxes;
      && |SavedPaths(o.effects)| == 1
      && (StartsWith(SavedPaths(o.effects)[0], PosixPath.Join(OutputDir(projectDir), FailedPrefix))
          <==> NoDetections(boxes))
  {
    var stamped := timestamp + "_" + u.filename;
    assert SaveName(FailedPrefix, timestamp, u.filename) == FailedPrefix + stamped;
    assert SaveName(SuccessPrefix, timestamp, u.filename) == SuccessPrefix + stamped;
    BranchPrefix(OutputDir(projectDir), stamped);
  }

  /** Under one folder, a `failed_` path starts with the folder's `failed_`
      prefix and a `success_` path does not. */
  lemma BranchPrefix(dir: string, stamped: string)
    ensures StartsWith(PosixPath.Join(dir, FailedPrefix + stamped), PosixPath.Join(dir, FailedPrefix))
    ensures !StartsWith(PosixPath.Join(dir, SuccessPrefix + stamped), PosixPath.Join(dir, FailedPrefix))
  {
    JoinPrefix(dir, FailedPrefix, stamped);
    JoinPrefix(dir, SuccessPrefix, stamped);
    var f := PosixPath.Join(dir, FailedPrefix);
    var t := PosixPath.Join(dir, SuccessPrefix);
    assert |f| == |t| - 1;
    assert f[|f| - |FailedPrefix|] == 'f';
    assert t[|f| - |FailedPrefix|] == 's';
  }

  /** Joining a relative name onto a folder and then extending the name is
      the same as extending the joined path. */
  lemma JoinPrefix(dir: string, prefix: string, rest: string)
    requires |prefix| > 0 && prefix[0] != '/'
    ensures PosixPath.Join(dir, prefix + rest) == PosixPath.Join(dir, prefix) + rest
  {
    assert (prefix + rest)[0] == prefix[0];
    if |dir| == 0 || dir[|dir| - 1] == '/' {
      assert dir + (prefix + rest) == dir + prefix + rest;
    } else {
      assert dir + "/" + (prefix + rest) == dir + "/" + prefix + rest;
    }
  }

  // ---------------------------------------------------------------------
  // Start-up and health
  // ---------------------------------------------------------------------

  /** The process-wide state: the detector handle and the log. */
  datatype Server = Server(model: Option<Model>, log: seq<Entry>)

  datatype StartupResult = Started(server: Server) | Refused(error: string, server: Server)

  function ModelPath(projectDir: string): string {
    PosixPath.Join(projectDir, ModelFile)
  }

  /** `startup_event`: refuse to start when the weights file is missing,
      otherwise load it. `existing` is the set of paths on disk; `load`
      stands for the detector library's constructor, which may raise on a
      file it cannot read. A raising load aborts start-up after the first
      log line and leaves the handle as it was. */
  function StartUp(s: Server, projectDir: string, existing: set<string>,
                   load: string -> Result<Model>): (r: StartupResult)
    ensures r.Started? <==> ModelPath(projectDir) in existing && load(ModelPath(projectDir)).Success?
    ensures ModelPath(projectDir) !in existing ==> r.Refused? && r.error == "Model file not found"
    ensures ModelPath(projectDir) in existing && load(ModelPath(projectDir)).Failure?
            ==> r.Refused? && r.error == load(ModelPath(projectDir)).error
    ensures r.Refused? ==> r.server.model == s.model
    ensures r.Started? ==> r.server.model == Some(load(ModelPath(projectDir)).value)
    ensures |s.log| < |r.server.log| && r.server.log[..|s.log|] == s.log
    ensures |r.server.log| == |s.log| + 1 <==> ModelPath(projectDir) in existing && load(ModelPath(projectDir)).Failure?
  {
    var path := ModelPath(projectDir);
    var start := Entry(Info, "SERVER_START | loading_model=" + path);
    if path !in existing then
      Refused("Model file not found",
              Server(s.model, s.log + [start, Entry(Error, "MODEL_LOAD_FAIL | model file not found")]))
    else
      match load(path)
      case Failure(e) => Refused(e, Server(s.model, s.log + [start]))
      case Success(m) => Started(Server(Some(m), s.log + [start, Entry(Info, "MODEL_LOADED | status=SUCCESS")]))
  }

  datatype Health = Health(status: string, modelLoaded: bool)

  /** `/health`: always `ok`; reports whether the detector handle is set. */
  function HealthOf(s: Server): (h: Health)
    ensures h.status == "ok"
    ensures h.modelLoaded <==> s.model.Some?
  {
    Health("ok", s.model.Some?)
  }

  /** On a fresh process, health reports a loaded model after start-up
      exactly when the weights file exists and the library loads it. */
  lemma HealthAfterStartUp(projectDir: string, existing: set<string>, load: string -> Result<Model>)
    ensures HealthOf(StartUp(Server(None, []), projectDir, existing, load).server).modelLoaded
            <==> ModelPath(projectDir) in existing && load(ModelPath(projectDir)).Success?
  {
  }

  /** A server whose start-up succeeded answers an image request by
      running the detector: the missing-handle error cannot happen. */
  lemma StartedServerRunsModel(s: Server, projectDir: string, existing: set<string>,
                               load: string -> Result<Model>,
                               u: Upload, decode: seq<int> -> Result<Picture>,
                               detect: (Model, Picture) -> Inference, measure: string -> Rect,
                               timestamp: string, elapsed: string)
    requires StartUp(s, projectDir, existing, load).Started?
    requires IsImageType(u.contentType) && decode(u.body).Success?
    ensures var m := StartUp(s, projectDir, existing, load).server.model;
      RunModel in Predict(m, u, decode, detect, measure, projectDir, timestamp, elapsed).effects
  {
  }
}
