/** `FilePathClass`: finding the project root by walking up from the
    working directory to the first directory that lists `.git`, building
    the project's folder paths, and creating folders on demand. The
    filesystem is a listing function (for the search) and a set of
    existing paths (for `make_path`); the separator is `/`. */
module FilePath {
  import opened Wrappers
  import Text
  import PosixPath

  const Sep: char := '/'

  /** The folder names `PathConst` defines. */
  const DataDir := "data"
  const ResultDir := "result"
  const LogDir := "logs"
  const TempDir := "temp"

  // ---------------------------------------------------------------------
  // get_project_root_path
  // ---------------------------------------------------------------------

  /** What `os.listdir(d)` gives: the names in `d`, a `FileNotFoundError`
      (which the search catches), or any other error (which escapes it). */
  datatype Listing = Entries(names: set<string>) | Missing | Unreadable

  /** The outcome of the search: the project root, `None`, or an error
      raised out of `get_project_root_path`. */
  datatype RootSearch = Found(dir: string) | NotFound | Failed

  /** The directories the loop examines from `d`: `d`, its `dirname`, and
      so on, stopping before the first fixed point of `dirname`, which is
      never examined. */
  function Chain(d: string): (c: seq<string>)
    ensures forall i :: 0 <= i < |c| ==> PosixPath.Dirname(c[i]) != c[i]
    ensures |c| > 0 <==> PosixPath.Dirname(d) != d
    ensures |c| > 0 ==> c[0] == d
    ensures forall i :: 0 <= i < |c| - 1 ==> c[i + 1] == PosixPath.Dirname(c[i])
    decreases |d|
  {
    if PosixPath.Dirname(d) == d then []
    else
      PosixPath.DirnameShrinks(d);
      [d] + Chain(PosixPath.Dirname(d))
  }

  /** A listing the search passes over: readable, without `.git`. */
  predicate PassesOver(l: Listing) {
    l.Entries? && ".git" !in l.names
  }

  /** The search over the examined directories, one at a time. */
  function Search(chain: seq<string>, listing: string -> Listing): RootSearch {
    if |chain| == 0 then NotFound
    else match listing(chain[0])
      case Missing => NotFound
      case Unreadable => Failed
      case Entries(names) => if ".git" in names then Found(chain[0]) else Search(chain[1..], listing)
  }

  /** `get_project_root_path()` from the working directory `start`, as the
      loop does it. */
  method ProjectRootPath(start: string, listing: string -> Listing) returns (r: RootSearch)
    ensures r == Search(Chain(start), listing)
  {
    var current := start;
    while current != PosixPath.Dirname(current)
      invariant Search(Chain(current), listing) == Search(Chain(start), listing)
      decreases |current|
    {
      PosixPath.DirnameShrinks(current);
      var l := listing(current);
      if l.Missing? {
        return NotFound;
      } else if l.Unreadable? {
        return Failed;
      } else if ".git" in l.names {
        return Found(current);
      }
      current := PosixPath.Dirname(current);
    }
    return NotFound;
  }

  predicate ListsGit(l: Listing) {
    l.Entries? && ".git" in l.names
  }

  /** A directory that lists `.git`, reached past directories that were
      all readable and without it, is the answer. */
  lemma {:induction false} SearchFindsNearest(chain: seq<string>, listing: string -> Listing, i: nat)
    requires i < |chain| && ListsGit(listing(chain[i]))
    requires forall j :: 0 <= j < i ==> PassesOver(listing(chain[j]))
    ensures Search(chain, listing) == Found(chain[i])
  {
    if i > 0 {
      assert PassesOver(listing(chain[0]));
      forall j | 0 <= j < i - 1 ensures PassesOver(listing(chain[1..][j])) {
        assert chain[1..][j] == chain[j + 1];
      }
      SearchFindsNearest(chain[1..], listing, i - 1);
    }
  }

  /** Conversely, an answer is always such a directory: one that lists
      `.git`, with every directory examined before it passed over. */
  lemma {:induction false} SearchFoundAt(chain: seq<string>, listing: string -> Listing) returns (i: nat)
    requires Search(chain, listing).Found?
    ensures i < |chain| && chain[i] == Search(chain, listing).dir
    ensures ListsGit(listing(chain[i]))
    ensures forall j :: 0 <= j < i ==> PassesOver(listing(chain[j]))
  {
    if ListsGit(listing(chain[0])) {
      i := 0;
    } else {
      var k := SearchFoundAt(chain[1..], listing);
      i := k + 1;
      forall j | 0 <= j < i ensures PassesOver(listing(chain[j])) {
        if j > 0 {
          assert chain[j] == chain[1..][j - 1];
        }
      }
    }
  }

  /** Without an error and without `.git` anywhere on the way up, the
      search ends at the filesystem root with `None`. */
  lemma {:induction false} SearchNotFound(chain: seq<string>, listing: string -> Listing)
    requires forall j :: 0 <= j < |chain| ==> PassesOver(listing(chain[j]))
    ensures Search(chain, listing) == NotFound
  {
    if |chain| > 0 {
      SearchNotFound(chain[1..], listing);
    }
  }

  /** `FilePathClass()`: a root that was not found is `None`, and
      `os.path.exists(None)` raises `TypeError`; an error of the search
      escapes the constructor. */
  function NewFilePaths(search: RootSearch): (r: Result<string>)
    ensures r.Success? <==> search.Found?
    ensures r.Success? ==> r.value == search.dir
    ensures search.NotFound? ==> r == Failure("TypeError")
  {
    match search
    case Found(d) => Success(d)
    case NotFound => Failure("TypeError")
    case Failed => Failure("OSError")
  }

  // ---------------------------------------------------------------------
  // is_path_exist_check / make_path
  // ---------------------------------------------------------------------

  /** The paths that exist. */
  type Existing = set<string>

  function IsPathExistCheck(fs: Existing, path: string): bool {
    path in fs
  }

  /** `make_path(path)`: an absent path is created with every missing
      parent (`os.makedirs`); the path is returned either way. */
  function MakePath(fs: Existing, path: string): (r: (string, Existing))
    ensures r.0 == path
    ensures IsPathExistCheck(r.1, path)
    ensures fs <= r.1
    ensures forall q :: q in r.1 && q !in fs ==> q == path || q in Chain(path)
  {
    if IsPathExistCheck(fs, path) then (path, fs)
    else (path, fs + {path} + set q | q in Chain(path))
  }

  /** After `make_path(path)`, `is_path_exist_check` answers yes for what
      existed before, for `path`, and, when `path` was absent, for each of
      its parents up the chain; for nothing else. */
  lemma ExistCheckAfterMakePath(fs: Existing, path: string, q: string)
    ensures IsPathExistCheck(MakePath(fs, path).1, q) <==>
      IsPathExistCheck(fs, q) || q == path || (!IsPathExistCheck(fs, path) && q in Chain(path))
  {
  }

  /** A second `make_path` of the same path changes nothing. */
  lemma MakePathIdempotent(fs: Existing, path: string)
    ensures var (_, once) := MakePath(fs, path);
      MakePath(once, path) == MakePath(fs, path)
  {
  }

  /** On a path that exists, `make_path` changes nothing at all. */
  lemma MakePathExisting(fs: Existing, path: string)
    requires IsPathExistCheck(fs, path)
    ensures MakePath(fs, path) == (path, fs)
  {
  }

  // ---------------------------------------------------------------------
  // the folder getters
  // ---------------------------------------------------------------------

  /** `root + os.sep + name + os.sep` for each folder name in turn. */
  function Under(root: string, names: seq<string>): string
    decreases |names|
  {
    if |names| == 0 then root + [Sep]
    else Under(root, names[..|names| - 1]) + names[|names| - 1] + [Sep]
  }

  function LogFolder(root: string): string { Under(root, [LogDir]) }
  function DataFolder(root: string): string { Under(root, [DataDir]) }
  function ResultFolder(root: string): string { Under(root, [DataDir, ResultDir]) }
  function TempFolder(root: string): string { Under(root, [DataDir, TempDir]) }

  /** `get_log_path` and its siblings: the folder is created if missing
      and returned. */
  function GetLogPath(fs: Existing, root: string): (string, Existing) { MakePath(fs, LogFolder(root)) }
  function GetDataPath(fs: Existing, root: string): (string, Existing) { MakePath(fs, DataFolder(root)) }
  function GetResultPath(fs: Existing, root: string): (string, Existing) { MakePath(fs, ResultFolder(root)) }
  function GetTempPath(fs: Existing, root: string): (string, Existing) { MakePath(fs, TempFolder(root)) }

  /** The components of a folder under the root: the root's own, then the
      names, then an empty one for the trailing separator. */
  lemma {:induction false} UnderComponents(root: string, names: seq<string>)
    requires forall i :: 0 <= i < |names| ==> Sep !in names[i]
    ensures Text.Split(Under(root, names), Sep) == Text.Split(root, Sep) + names + [""]
    decreases |names|
  {
    if |names| == 0 {
      Text.SplitSnocSeparator(root, Sep);
    } else {
      var n := |names| - 1;
      UnderComponents(root, names[..n]);
      UnderEndsWithSep(root, names[..n]);
      UnderStep(Under(root, names[..n]), Text.Split(root, Sep) + names[..n], names[n]);
      assert names[..n] + [names[n]] == names;
    }
  }

  /** One more folder name on a path that ends in the separator. */
  lemma UnderStep(prev: string, parts: seq<string>, name: string)
    requires |prev| > 0 && prev[|prev| - 1] == Sep
    requires Text.Split(prev, Sep) == parts + [""]
    requires Sep !in name
    ensures Text.Split(prev + name + [Sep], Sep) == parts + [name] + [""]
  {
    var q := prev[..|prev| - 1];
    assert prev == q + [Sep];
    Text.SplitSnocSeparator(q, Sep);
    DropLast(Text.Split(q, Sep), parts, "");
    SplitAppendName(q, name);
    assert prev + name + [Sep] == q + [Sep] + (name + [Sep]);
  }

  /** Appending `name/` to a path adds the name and an empty last part. */
  lemma SplitAppendName(q: string, name: string)
    requires Sep !in name
    ensures Text.Split(q + [Sep] + (name + [Sep]), Sep) == Text.Split(q, Sep) + [name, ""]
  {
    Text.SplitAround(q, Sep, name + [Sep]);
    Text.SplitSnocSeparator(name, Sep);
    Text.SplitNoSeparator(name, Sep);
  }

  lemma DropLast<T>(x: seq<T>, y: seq<T>, e: T)
    requires x + [e] == y + [e]
    ensures x == y
  {
    assert x == (x + [e])[..|x|] && y == (y + [e])[..|y|];
  }

  lemma UnderEndsWithSep(root: string, names: seq<string>)
    ensures var u := Under(root, names); |u| > 0 && u[|u| - 1] == Sep
  {
  }

  /** Every folder getter returns a path ending in the separator, made of
      the root and the documented names, and leaves that folder existing;
      the result and temp folders sit inside the data folder. */
  lemma FolderLayout(fs: Existing, root: string)
    ensures Text.Split(GetLogPath(fs, root).0, Sep) == Text.Split(root, Sep) + ["logs", ""]
    ensures Text.Split(GetDataPath(fs, root).0, Sep) == Text.Split(root, Sep) + ["data", ""]
    ensures Text.Split(GetResultPath(fs, root).0, Sep) == Text.Split(root, Sep) + ["data", "result", ""]
    ensures Text.Split(GetTempPath(fs, root).0, Sep) == Text.Split(root, Sep) + ["data", "temp", ""]
    ensures Text.StartsWith(GetResultPath(fs, root).0, DataFolder(root))
    ensures Text.StartsWith(GetTempPath(fs, root).0, DataFolder(root))
    ensures GetLogPath(fs, root).0 in GetLogPath(fs, root).1
  {
    LogLayout(fs, root);
    DataLayout(fs, root);
    DataSubfolderLayout(root, ResultDir);
    DataSubfolderLayout(root, TempDir);
  }

  lemma LogLayout(fs: Existing, root: string)
    ensures Text.Split(GetLogPath(fs, root).0, Sep) == Text.Split(root, Sep) + ["logs", ""]
    ensures GetLogPath(fs, root).0 in GetLogPath(fs, root).1
  {
    UnderComponents(root, [LogDir]);
  }

  lemma DataLayout(fs: Existing, root: string)
    ensures Text.Split(GetDataPath(fs, root).0, Sep) == Text.Split(root, Sep) + ["data", ""]
  {
    UnderComponents(root, [DataDir]);
  }

  /** A folder directly under the data folder. */
  lemma DataSubfolderLayout(root: string, name: string)
    requires name == ResultDir || name == TempDir
    ensures Text.Split(Under(root, [DataDir, name]), Sep) == Text.Split(root, Sep) + ["data", name, ""]
    ensures Text.StartsWith(Under(root, [DataDir, name]), DataFolder(root))
  {
    UnderComponents(root, [DataDir, name]);
    assert [DataDir, name][..1] == [DataDir];
  }

  // ---------------------------------------------------------------------
  // get_git_user_id / get_user_id_log_path
  // ---------------------------------------------------------------------

  /** What `git config --get user.name` did: printed `stdout`, or failed.
      A failure with a non-zero exit status is re-raised as
      `EnvironmentError`; when `git` itself is missing, `subprocess.run`
      raises `FileNotFoundError` instead, which is not caught. Both are
      `OSError`, and the model names that case `EnvironmentError` too. */
  datatype GitConfig = Printed(stdout: string) | CommandFailed

  /** `get_user_id_log_path()` for the month `yyyymm`. A failed command
      raises `EnvironmentError`; an empty user name makes
      `get_git_user_id` return (not raise) a `ValueError`, and adding it to
      a string raises `TypeError`. */
  function GetUserIdLogPath(fs: Existing, root: string, git: GitConfig, yyyymm: string): (r: Result<(string, Existing)>)
    ensures git.CommandFailed? ==> r == Failure("EnvironmentError")
    ensures git.Printed? && Text.Strip(git.stdout) == "" ==> r == Failure("TypeError")
    ensures r.Success? ==> r.value == MakePath(fs, Under(root, [LogDir, Text.Strip(git.stdout), yyyymm]))
  {
    match git
    case CommandFailed => Failure("EnvironmentError")
    case Printed(out) =>
      var user := Text.Strip(out);
      if user == "" then Failure("TypeError")
      else Success(MakePath(fs, Under(root, [LogDir, user, yyyymm])))
  }

  /** The user log folder is `root/logs/{user}/{YYYYmm}/`, with the user
      name stripped of surrounding whitespace. */
  lemma UserLogLayout(fs: Existing, root: string, out: string, yyyymm: string)
    requires Text.Strip(out) != "" && Sep !in Text.Strip(out) && Sep !in yyyymm
    ensures var r := GetUserIdLogPath(fs, root, Printed(out), yyyymm);
      && r.Success?
      && Text.Split(r.value.0, Sep) == Text.Split(root, Sep) + ["logs", Text.Strip(out), yyyymm, ""]
      && r.value.0 in r.value.1
  {
    UnderComponents(root, [LogDir, Text.Strip(out), yyyymm]);
  }
}
