# horse_yolo, modelled in Dafny

This project models the decision logic of the horse-detection service and the
helpers it uses. The modelled parts are:

- **The inference endpoint.** This covers `/predict`, `/health` and the start-up
  check for the weights file.
- **The list and string helpers of `CommonUtilCodes`.**
- **The error-code tables and the two exception constructors.**
- **The path rules of `FilePathClass`.**
- **The logger bookkeeping of `SetupLogger`.**
- **The dataset validator and the data description of the YOLO training script.**

Everything is a pure function over immutable values:

- The decoder, the detector and the font metrics are function parameters.
- The clock, the git command and the filesystem are plain parameters: a set of
  existing paths, a listing function, or a map from path to kind.

Modules follow the source files:

- `Api` covers `src/api/main.py`.
- `Utils` covers `src/common/utils.py`.
- `ErrorCodes` covers `src/common/define_error_codes.py`.
- `Exceptions` covers `src/common/custom_exceptions.py`.
- `FilePath` covers `src/common/file_path.py`.
- `Logging` covers `src/common/setup_log.py`.
- `Train` covers `models/train_yolov8n.py`.

Shared modules hold the Python library behaviour the code relies on:

- `Text` holds `str.strip`, `split`, `join`, `replace`, ASCII `lower`, `int()` and `str()`.
- `PosixPath` holds `os.path` `dirname`, `basename`, `splitext` and `join`.
- `Seqs` holds sums, concatenation and filtering.
- `Wrappers` holds `Option` and `Result`.

Every file is verified together. No file `include`s another.

## Model

| member | source | states |
|---|---|---|
| Api.Predict | src/api/main.py:65-164 | A missing or non-`image/` content type gives 400 before the body is read, and the log is the REQUEST line then an INVALID_FILE warning. An undecodable body gives 400 after the read, with no inference, and the log is the REQUEST line then an IMAGE_LOAD_FAIL error carrying the decoder's error. The detector runs iff both gates pass and the model handle is set. An unset handle raises `TypeError`, and a failing detector raises its own error; either way only the REQUEST line is logged and nothing is saved. A picture is streamed iff the detector answered, and then exactly one file is saved. |
| Api.EmptyTypeRejected | src/api/main.py:74 | An empty content type fails the gate, like a missing one. `image/png` passes. |
| Api.Render | src/api/main.py:100-164 | The answer is a PNG stream with header `inline; filename=result_<name>`. The upload is read, the detector is run, and one file is saved. The saved file is the streamed picture. Its path is the outputs folder joined with `failed_` (nothing detected) or `success_` (something detected) + timestamp + `_` + name. The log is the REQUEST line, then the RESULT line at INFO. |
| Api.ResultStatusFields | src/api/main.py:104-143 | The RESULT line's status reads `FAIL` exactly when nothing was detected. Otherwise it is `SUCCESS boxes=` followed by a count that parses back to the number of boxes. |
| Api.OneResultFile | src/api/main.py:100-151 | For a request that reaches the detector, exactly one file is written. Its path starts with the outputs folder's `failed_` prefix iff there were no boxes, or an empty box list. |
| Api.SaveNamesDistinct | src/api/main.py:116-150 | A `failed_` file name never equals a `success_` one, whatever the timestamps and upload names. |
| Api.SaveNameInjective | src/api/main.py:100-101 | With timestamps of equal width, the stored name determines both the timestamp and the upload name. |
| Api.DispositionNamesUpload | src/api/main.py:158-163 | The header value starts with `inline; filename=result_`, and what follows is exactly the upload name. |
| Api.ClassNameFallsBackToId | src/api/main.py:126-128 | The label shows the class name when the table has one. Otherwise it shows the id, and `int()` of that text gives the id back. |
| Api.LabelParts | src/api/main.py:128 | When the confidence text has no space: the last space-separated field of a label is the confidence, and the earlier fields joined with spaces are the class name. |
| Api.LabelMargins | src/api/main.py:134-143 | The label background sits on the box's top edge from its left edge. The text fills it with a margin of exactly 3 on every side. |
| Api.OriginInsideBackground | src/api/main.py:139-143 | The text origin lies inside the background iff the measured width and height are both at least -3. This always holds for a real text box. |
| Api.DrawBoxesAt | src/api/main.py:126-143 | Each detection gets three marks, in detector order: its outline, its label background and its label text. The marks of box `i` are at positions `3i..3i+3`. |
| Api.DrawBoxesConcat | src/api/main.py:126-143 | Drawing a list of detections is drawing its two halves one after the other. |
| Api.Annotate | src/api/main.py:104-143 | Annotation keeps the decoded content and the earlier marks. With no detections it adds only the failure caption at (20, 20). Otherwise it adds exactly the marks of the boxes drawn in order, three per box. |
| Api.StartUp | src/api/main.py:36-47 | Start-up succeeds iff `best.pt` exists and the library loads it; the handle is then set to the loaded model and MODEL_LOADED is logged. A missing file is refused with "Model file not found" after two log lines. A file the library fails to load is refused with the library's error after the SERVER_START line alone. A refusal leaves the handle unchanged. |
| Api.HealthOf | src/api/main.py:52-56 | The status is always `ok`. `model_loaded` holds iff the handle is set. |
| Api.HealthAfterStartUp | src/api/main.py:36-56 | In a fresh process, health reports a loaded model after start-up iff the weights file exists and the library loads it. |
| Api.StartedServerRunsModel | src/api/main.py:42-92 | After a successful start-up, an image request that decodes always reaches the detector. |
| Utils.SplitLengths | src/common/utils.py:62-69 | Lengths fail iff the ratio is empty (`IndexError`) or sums to zero (`ZeroDivisionError`). Otherwise there is one length per ratio entry, they sum to the item count, each non-last length is the truncated share, and the last is at least its share. |
| Utils.SplitListParts | src/common/utils.py:52-77 | `get_split_list` fails only on an empty or all-zero ratio. Otherwise it gives one part per ratio entry with the share lengths above, and the parts concatenated in order are exactly the (shuffled) input. |
| Utils.DivideConcat | src/common/utils.py:71-75 | Cutting at the running sums of the lengths and concatenating the parts gives the list back. |
| Utils.DefaultSplitOfTen | src/common/utils.py:52-77 | With the default ratio (8, 1, 1), ten items split into the first eight, the ninth and the tenth. |
| Utils.PastedList | src/common/utils.py:80-92 | No item of the parsed list contains a `'`. |
| Utils.CleanLinesKeepsNonBlank | src/common/utils.py:91 | The comprehension yields exactly the non-blank lines, in order, each stripped with its quotes removed. |
| Utils.PastedListIgnoresOuterStrip | src/common/utils.py:91 | The outer `strip()` changes nothing. The result is the non-blank lines of the raw text, in order, each cleaned. |
| Utils.ImageNameIgnoresCase | src/common/utils.py:30 | The image-name test gives the same answer for a name and its lower-case form. `A.PNG` counts; `a.txt` does not. |
| Utils.FindErrorImages | src/common/utils.py:21-38 | The reported files are exactly the listing filtered to image names that fail to decode, in listing order. |
| Utils.ErrorImagesExactly | src/common/utils.py:29-36 | A file is reported iff it is listed, has an image extension (any case), and does not decode. |
| Utils.FolderSmallFiles | src/common/utils.py:217-230 | Every row of a folder is at most 100000 bytes, and its path is the folder joined with the file name. |
| Utils.FileSizeCheck | src/common/utils.py:209-249 | Every row of the whole walk is at most 100000 bytes. |
| Utils.FileSizeCheckConcat | src/common/utils.py:217-230 | The walk's rows are each folder's rows, folder after folder: checking two stretches of the walk one after the other gives the rows of the whole. |
| Utils.FolderMembers | src/common/utils.py:218-230 | When no file of a folder has gone missing, a row is listed iff it is the row (name, joined path, size) of one of its files of at most 100000 bytes. |
| Utils.FileSizeCheckMembers | src/common/utils.py:217-230 | When no file of the walk has gone missing, a row is listed iff it is the row of a file of at most 100000 bytes in some folder of the walk. |
| Utils.SmallFilesExactly | src/common/utils.py:219-226 | When no file of a folder vanishes, its rows are exactly its files of at most 100000 bytes, boundary included, in order, each with joined path and size. |
| Utils.MissingFileEndsFolder | src/common/utils.py:218-230 | A file that vanishes before `getsize` drops itself and every later file of the same folder. |
| ErrorCodes.ErrorMsg | src/common/define_error_codes.py:100-112 | A present entry gives its (type, desc, url). A missing one gives the all-`None` triple. The three fields are present together or absent together. |
| ErrorCodes.LookupFindsEntry | src/common/define_error_codes.py:90-98 | A lookup fails only when `int(code)` fails. It returns the table entry's fields for a known code and the sentinel for an unknown one. |
| ErrorCodes.TextAndIntCodesAgree | src/common/define_error_codes.py:90-98 | A code given as an int and as its decimal text resolves alike in both tables. |
| ErrorCodes.StatusCodesAreHttp | src/common/define_error_codes.py:33-87 | Every HTTP-table entry has type `HTTP`, and every key lies between 100 and 511. |
| ErrorCodes.HttpLookupType | src/common/define_error_codes.py:95-98 | Any triple the HTTP lookup finds names type `HTTP`. |
| ErrorCodes.CustomCodeKinds | src/common/define_error_codes.py:4-31 | The custom table holds exactly 1000-1020, 3000 and 4001. All of them are `VALID` except 3000, which is `SYSTEM`. |
| ErrorCodes.TablesDisjoint | src/common/define_error_codes.py:4-87 | No code is in both tables. |
| Exceptions.ResolvedMessageCases | src/common/custom_exceptions.py:39-48 | A non-numeric code raises. A known code logs the description from the table its type selects (HTTP for `HTTP`, custom otherwise). An unknown code logs the caller's message. |
| Exceptions.ExceptionLoggerName | src/common/setup_log.py:21-27 | The logger set up from `custom_exceptions.py` is named `custom_exceptions`. |
| Exceptions.ExceptionLogDirCases | src/common/file_path.py:100-157 | Without a project root the folder lookup raises what `FilePathClass()` raises. A failed `git config` raises `EnvironmentError`, and a blank user name raises `TypeError`. When found, the folder is `root/logs/<user>/<month>/` with the user name stripped. |
| Exceptions.Prepare | src/common/custom_exceptions.py:36-46 | Preparation is ready iff the log folder is found and the code resolves. Without a root nothing is touched. Without a log folder the logger's handlers are cleared. A code that does not resolve raises after both handlers were attached, and they stay attached. When ready, the logger carries the console and file handlers. Other loggers are untouched. |
| Exceptions.CustomExceptionWithoutRoot | src/common/custom_exceptions.py:36 | Without a project root, construction raises before any logger is touched, and the registry is returned unchanged. |
| Exceptions.CustomExceptionWithoutLogDir | src/common/custom_exceptions.py:37 | With a root but no user log folder, construction raises the folder lookup's error with nothing logged, and the exception logger has been left without handlers. |
| Exceptions.CustomExceptionBadCode | src/common/custom_exceptions.py:37-51 | A code that is not a number raises `ValueError` with nothing logged. `close_logger` is never reached, so both handlers stay on the exception logger. |
| Exceptions.NewCustomException | src/common/custom_exceptions.py:28-51 | Construction succeeds iff the exception log folder is found and the code resolves. Without a log folder it raises the set-up's error, and any raise logs nothing. On success the object keeps the caller's type, code text, message and func. It logs one line `func : type : code : resolved` to the console, the day's exception file and the root logger, and afterwards its logger has no handlers. On every path other loggers are untouched. |
| Exceptions.LogResolved | src/common/custom_exceptions.py:48-51 | On the logger `setup_logger` left (console at INFO, file at DEBUG), the logging step writes one line `func : type : code : m` to the console, the file and the root logger. It leaves the exception logger without handlers and every other logger as it was. |
| Exceptions.ImageNotFoundExample | src/common/utils.py:112-113 | The image helpers' `VALID`/`4001` exception logs the table's "Image not found" and keeps "Image Not Found". Under `HTTP`, code 4001 is unknown, so the caller's text is logged. Without a log folder the constructor raises the folder lookup's error instead. |
| Exceptions.NewSystemExceptionAsWritten | src/common/custom_exceptions.py:62-70 | As written, a `SystemException` succeeds iff its parent does, raising the parent's error otherwise with nothing logged. On success it keeps the caller's attributes and logs two lines, the second carrying the caller's message. |
| Exceptions.LogAfterClose | src/common/custom_exceptions.py:69-70 | The subclass's own line is appended after the parent's lines, with the caller's message, and is delivered wherever the already-closed logger sends it. The exception is unchanged. |
| Exceptions.SystemExceptionSecondLineLost | src/common/custom_exceptions.py:63-69 | As written, whenever construction succeeds, the second line reaches only the root logger. It never reaches the console handler or the exception log file. |
| Exceptions.NewSystemException | src/common/custom_exceptions.py:62-70 | Corrected: it succeeds iff the log folder is found and the code resolves, and raises the set-up's error without a log folder. On success the resolved line and the caller's-message line both reach the console, the exception file and the root logger, and the logger ends without handlers. |
| Exceptions.SystemExceptionCorrectionIsLocal | src/common/custom_exceptions.py:62-70 | The correction keeps the outcome and the final registry of the code as written. A construction that raises is identical in both. One that succeeds keeps the first line and the second line's text. |
| FilePath.Chain | src/common/file_path.py:51-54 | The examined directories are the start, then each `dirname` in turn, stopping before the first fixed point. |
| FilePath.ProjectRootPath | src/common/file_path.py:41-56 | The loop returns what the search over that chain returns. |
| FilePath.SearchFindsNearest | src/common/file_path.py:51-54 | The first directory listing `.git`, reached past readable directories without it, is the answer. |
| FilePath.SearchFoundAt | src/common/file_path.py:51-54 | Conversely, any answer lists `.git`, and every directory examined before it was readable and lacked `.git`. |
| FilePath.SearchNotFound | src/common/file_path.py:49-56 | Without an error and without `.git` on the way up, the result is `None`. |
| FilePath.NewFilePaths | src/common/file_path.py:20-38 | Construction succeeds iff the root was found. A root that was not found leads to `TypeError` from `os.path.exists(None)`. |
| FilePath.MakePath | src/common/file_path.py:81-89 | The path is returned and exists afterwards. Nothing is removed, and only the path and its ancestors are added. |
| FilePath.MakePathIdempotent | src/common/file_path.py:81-89 | A second `make_path` of the same path changes nothing. |
| FilePath.MakePathExisting | src/common/file_path.py:70-89 | On a path that exists, `make_path` changes nothing. |
| FilePath.ExistCheckAfterMakePath | src/common/file_path.py:70-89 | After `make_path(p)`, `is_path_exist_check(q)` answers yes iff `q` existed before, or is `p`, or `p` was absent and `q` is one of its parents up the chain. |
| FilePath.UnderComponents | src/common/file_path.py:97-98 | A folder string under the root splits into the root's components, the folder names and a trailing empty component. |
| FilePath.FolderLayout | src/common/file_path.py:91-132 | The getters give `root/logs/`, `root/data/`, `root/data/result/` and `root/data/temp/`. Result and temp lie inside the data folder, and the returned folder exists. |
| FilePath.GetUserIdLogPath | src/common/file_path.py:100-157 | A failed git command raises `EnvironmentError`. A blank user name leads to `TypeError`. Otherwise the folder is created and returned. |
| FilePath.UserLogLayout | src/common/file_path.py:100-107 | The user log folder is `root/logs/<stripped user>/<YYYYmm>/`, and it exists afterwards. |
| Logging.LogFileNameCases | src/common/setup_log.py:43-49 | The file name starts with the date. It ends in `_exception.log` iff the type is `exception`, in `_run.log` iff it is `run`, and in `_unknown_type.log` for any other type. |
| Logging.CallerNameOfModule | src/common/setup_log.py:21-23 | A module file `dir/stem.ext` gives the logger name `stem`. |
| Logging.SetupNamedLogger | src/common/setup_log.py:19-67 | Setup records the logger's name on the object and clears the logger's handlers. If the log folder lookup raises, the error is reported and the logger is left without handlers. Otherwise the logger has exactly two handlers: console at INFO, then the day's file at DEBUG. Other loggers are untouched either way. |
| Logging.NewSetupLogger | src/common/setup_log.py:15-17 | `SetupLogger()` succeeds iff the project root is found, with no logger yet. Otherwise it raises what `FilePathClass()` raises (`TypeError` when no folder holds `.git`). |
| Logging.UserLogDir | src/common/setup_log.py:41 | The log folder is the user's month folder `get_user_id_log_path` gives, and it fails with that function's error. |
| Logging.CloseLogger | src/common/setup_log.py:69-79 | Close removes every handler of the configured logger and touches no other logger. Without a configured logger it does nothing. |
| Logging.SetupTwiceIsSetupOnce | src/common/setup_log.py:29-31 | Setting a logger up twice against the same folder lookup gives the same object and registry as setting it up once, whether the lookup succeeds or fails. Handlers are not duplicated. |
| Logging.SetupThenClose | src/common/setup_log.py:19-79 | Setup then close leaves the logger without handlers, and every other logger as it was, whether or not the folder lookup failed. |
| Logging.Emit | src/common/setup_log.py:53-65 | A record reaches every handler whose level admits it, and only handlers of that logger, and always ends at the root logger. The logger's own level is taken to admit every record, as it does after `setup_logger` sets it to DEBUG (setup_log.py:35). |
| Logging.EmitAfterSetup | src/common/setup_log.py:53-65 | On a freshly set-up logger, an error record goes to the console, then the file, then the root logger. |
| Train.WithSuffixRoundTrip | models/train_yolov8n.py:52 | For every non-empty name, after `with_suffix(s)`, `suffix` reads back `s` and the stem is kept. Names whose stem is only dots, such as `..png`, are included. |
| Train.ImageNames | models/train_yolov8n.py:40-43 | `a.JPG` is an image (case ignored). `.png` is not, because it has no suffix. `a.png.txt` is not, because only the last suffix counts. |
| Train.AssertDir | models/train_yolov8n.py:25-29 | The check passes iff the path exists and is a folder. A missing path gives `FileNotFoundError`; a path that exists but is not a folder gives `NotADirectoryError`. |
| Train.LabelPathShape | models/train_yolov8n.py:50-52 | For every image file with a non-empty name, the expected label lies in the label folder at the image's relative place, with the image's stem and suffix `.txt`. |
| Train.ValidateSplit | models/train_yolov8n.py:33-59 | A split succeeds iff both its folders are folders. It reports no images iff it has none. Otherwise it reports the image count and the count of images whose label is absent, and the latter never exceeds the former. |
| Train.ValidateSplits | models/train_yolov8n.py:32-59 | There is one report per split, in split order, up to the first error. Without an error, every split is reported. |
| Train.ValidationOrder | models/train_yolov8n.py:33-38 | Splits are checked in order. The reports before the first bad split are those splits' reports, and the first bad split stops the run with its error. |
| Train.Collect | models/train_yolov8n.py:33-59 | The loop reports the split outcomes in order. Each report is the outcome of the split at its position. Without an error, every split is reported. |
| Train.CollectOrder | models/train_yolov8n.py:33-38 | When the outcomes before position `k` all succeeded, at least `k` reports are made. A failing outcome at `k` ends the loop there, with exactly `k` reports and its error. |
| Train.MissingCountsUnlabelled | models/train_yolov8n.py:49-54 | The unlabelled images are images. When every image has its label file, the missing count is zero. |
| Train.WriteDataYaml | models/train_yolov8n.py:62-72 | `nc` equals the number of class names, and the names are `["horse"]`. |
| Train.DataYamlFolders | models/train_yolov8n.py:63-72 | Each split entry, split on `/`, reads back as the images folder plus the split name, so the three entries differ. `nc` is 1. |

## Left out

- **Pixels, decoding and encoding.** PIL decode, PNG encode, pixels and `textbbox` font metrics are out. The decoder and `textbbox` are parameters, and a picture is its decoded content plus the list of marks drawn on it.
- **The detector.** YOLO loading, inference and training are opaque library calls. Loading and the detector are parameters; a load may fail with any message. Only the first result is used, as in the source.
- **Confidences and coordinates.** Confidence values arrive already formatted to two decimals, and box coordinates are integers. Float formatting and float geometry are not modelled.
- **Api.Predict: `elapsed` is a parameter.** The elapsed time and the timestamp are given as text, because they come from the wall clock.
- **Server errors.** An exception from the detector, or from calling an unset model handle, becomes a generic internal error. FastAPI's handling of it is not modelled.
- **Saving files.** Saving is recorded as an effect with a path. Failures of `img.save`, for example an upload name containing `/`, are not modelled.
- **Other endpoint plumbing.** FastAPI routing, the HTML template endpoint, the 10 MB request cap, streaming, and the creation of the `outputs`/`logs` folders at import are HTTP and I/O plumbing.
- Logging.Emit: the logger's own level is not modelled. A record below it would be dropped before any handler and would not reach the root logger either. Every logger in the model has been set to DEBUG by `setup_logger` (setup_log.py:35), which lets every record through.
- Utils.FindErrorImages: the info line logged for each broken image and the `tqdm` progress bar are not modelled. The result is the list of broken files only.
- **Logging in the endpoint.** The endpoint's logging is modelled as a list of (level, message) records. The logging configuration is not modelled.
- Utils.SplitLengths: ratio entries are natural numbers. A float ratio like (0.8, 0.1, 0.1) is written (8, 1, 1), which has the same exact shares. The source also accepts negative entries, which can give negative lengths and overlapping slices; those are not modelled.
- Text.ParseInt: only ASCII digits are accepted. Python's `int()` also accepts any Unicode decimal digit (for example `"٤٠٠١"`). No code in the tables or call sites uses one.
- Logging.UserLogDir: the folders `make_path` creates for the user log folder are not carried on to later steps. Only the folder's path is kept.
- **Utils.SplitLengths: integer floor division instead of float arithmetic.** The source computes `int(total * (r / sum))` in floats. That can come out one lower where the exact quotient is whole; for example, 49 * (1/49) is 0.999… in floats. The last part absorbs the difference either way.
- **Shuffling.** `random.shuffle` and `random.sample` are out. Splitting is modelled on an already-shuffled list.
- **`get_sample_list`.** It passes a float size to `random.sample`.
- **Other utilities.** Charts, image viewing, cropping, Excel export and file copying are I/O and plotting.
- **Utils.FileSizeCheck: the walk is an input.** The tree walk and the file sizes are inputs, as a sequence of folders with their files in listing order. The DataFrame and Excel output and the two summary log lines are not modelled.
- **Case folding.** `lower()` is modelled for ASCII letters only. Every suffix compared against is ASCII.
- **Path handling.** Paths are POSIX strings or component sequences. Drive letters, anchors, `abspath` normalisation and `os.getcwd()` are not modelled; the working directory is a parameter.
- **FilePath.MakePath: `makedirs` cannot fail.** Errors from `os.makedirs`, such as a file in the way or missing permission, are not modelled. The desktop and NAS getters are environment lookups and are also out.
- **Loggers.** Handlers are described by their destination and level only. Formatting, file writes and Python's last-resort stderr handler are not modelled; "root logger" means "passed on to the parent".
- **The YAML text.** The data description is modelled as its contents. The YAML serialisation, the file write and the script-level training call are out.

## Findings

| source | as written | input that shows it | evidently intended | confidence | as-written member | corrected member |
|---|---|---|---|---|---|---|
| src/common/custom_exceptions.py:63-70 | `SystemException` calls the parent constructor, which logs and then closes the exception logger. Only afterwards does it log its own line, through the same logger, which now has no handlers. | Any resolvable code, e.g. `SystemException("SYSTEM", "3000", "SYSTEM Error", f)`: the second line goes only to the root logger, not to the console handler or the exception log file. | Both lines are written to the console and to the exception log file, and the logger is closed after the last one. | not executed | Exceptions.NewSystemExceptionAsWritten (shown by Exceptions.SystemExceptionSecondLineLost) | Exceptions.NewSystemException |
