/** The logger bookkeeping of `SetupLogger`: which file a logger writes
    to, what the logger is called, and which handlers it holds after
    `setup_logger` and `close_logger`. Python's logging registry is a map
    from logger name to that logger's handler list; the handlers themselves
    are only described (where they write and from which level). */
module Logging {
  import opened Wrappers
  import PosixPath
  import FilePath

  datatype Level = Debug | Info | Warning | Error

  /** The numeric levels of Python's logging module. */
  function Severity(l: Level): nat {
    match l
    case Debug => 10
    case Info => 20
    case Warning => 30
    case Error => 40
  }

  /** Where a handler writes. `Root` stands for the root logger, to which
      every record is passed on after the logger's own handlers. */
  datatype Sink = Console | LogFile(path: string) | Root

  datatype Handler = Handler(sink: Sink, level: Level)

  /** `logging`'s registry: each named logger's handler list. */
  type Registry = map<string, seq<Handler>>

  function HandlersOf(reg: Registry, name: string): seq<Handler> {
    if name in reg then reg[name] else []
  }

  /** What the process gives a `SetupLogger`: the outcome of the search for
      the project root, the paths that exist, the output of
      `git config --get user.name`, and the clock's month (`YYYYmm`) and
      day (`YYYYMMDD`). */
  datatype Env = Env(search: FilePath.RootSearch, fs: FilePath.Existing, git: FilePath.GitConfig,
                     month: string, date: string)

  /** A `SetupLogger` object: the project root its `FilePathClass` found,
      and the name of the logger it configured, once `setup_logger` has
      run. */
  datatype SetupLogger = SetupLogger(root: string, logger: Option<string>)

  /** `SetupLogger()`: building its `FilePathClass` raises when the search
      finds no project root or fails. */
  function NewSetupLogger(search: FilePath.RootSearch): (r: Result<SetupLogger>)
    ensures r.Success? <==> search.Found?
    ensures r.Success? ==> r.value == SetupLogger(search.dir, None)
    ensures r.Failure? ==> r.error == FilePath.NewFilePaths(search).error
  {
    match FilePath.NewFilePaths(search)
    case Failure(e) => Failure(e)
    case Success(root) => Success(SetupLogger(root, None))
  }

  /** The folder `get_user_id_log_path()` gives for the root of `s`, or the
      error it raises. */
  function UserLogDir(s: SetupLogger, env: Env): (r: Result<string>)
    ensures r.Success? <==> FilePath.GetUserIdLogPath(env.fs, s.root, env.git, env.month).Success?
    ensures r.Failure? ==> r.error == FilePath.GetUserIdLogPath(env.fs, s.root, env.git, env.month).error
    ensures r.Success? ==> r.value == FilePath.GetUserIdLogPath(env.fs, s.root, env.git, env.month).value.0
  {
    match FilePath.GetUserIdLogPath(env.fs, s.root, env.git, env.month)
    case Failure(e) => Failure(e)
    case Success(made) => Success(made.0)
  }

  /** The log file name for a day (`YYYYMMDD`) and a `log_type`. */
  function LogFileName(date: string, logType: string): string {
    if logType == "exception" then date + "_exception.log"
    else if logType == "run" then date + "_run.log"
    else date + "_unknown_type.log"
  }

  /** The three kinds of log file are told apart by their name, and every
      `log_type` other than the two known ones shares one file. */
  lemma LogFileNameCases(date: string, logType: string)
    ensures var name := LogFileName(date, logType);
      && name[..|date|] == date
      && (name == date + "_exception.log" <==> logType == "exception")
      && (name == date + "_run.log" <==> logType == "run")
      && (name == date + "_unknown_type.log" <==> logType != "exception" && logType != "run")
  {
    var e := date + "_exception.log";
    var r := date + "_run.log";
    var u := date + "_unknown_type.log";
    assert e[|date| + 1] == 'e' && r[|date| + 1] == 'r' && u[|date| + 1] == 'u';
  }

  /** The file a logger of `logType` writes to, inside `logDir`. */
  function LogFilePath(logDir: string, date: string, logType: string): string {
    PosixPath.Join(logDir, LogFileName(date, logType))
  }

  /** The logger name derived from the calling module's file: its base
      name with the extension removed. */
  function CallerName(callerFile: string): string {
    PosixPath.SplitExt(PosixPath.Basename(callerFile)).0
  }

  /** A module file `dir/stem.ext` gives the logger name `stem`. */
  lemma CallerNameOfModule(dir: string, stem: string, ext: string)
    requires '/' !in stem && '/' !in ext && '.' !in ext
    requires exists k :: 0 <= k < |stem| && stem[k] != '.'
    ensures CallerName(dir + "/" + stem + "." + ext) == stem
  {
    assert dir + "/" + stem + "." + ext == dir + ['/'] + (stem + ['.'] + ext);
    BasenameAfterSlash(dir, stem + ['.'] + ext);
    StemOfName(stem, ext);
  }

  lemma BasenameAfterSlash(dir: string, base: string)
    requires '/' !in base
    ensures PosixPath.Basename(dir + ['/'] + base) == base
  {
    PosixPath.LastIndexAt(dir, '/', base);
  }

  lemma StemOfName(stem: string, ext: string)
    requires '/' !in stem && '/' !in ext && '.' !in ext
    requires exists k :: 0 <= k < |stem| && stem[k] != '.'
    ensures PosixPath.SplitExt(stem + ['.'] + ext).0 == stem
  {
    var base := stem + ['.'] + ext;
    PosixPath.LastIndexAt(stem, '.', ext);
    assert PosixPath.LastIndex(base, '/') == -1;
    var k :| 0 <= k < |stem| && stem[k] != '.';
    assert base[k] != '.';
    assert base[..|stem|] == stem;
  }

  /** What `setup_logger` leaves: the object, now naming its logger, the
      registry, and the error raised while asking for the log folder, if
      any. */
  datatype Setup = Setup(obj: SetupLogger, registry: Registry, error: Option<string>)

  /** `setup_logger` on the logger called `name`, where `logDir` is what
      `get_user_id_log_path()` gives: clears the logger's handlers, then
      adds a console handler at INFO and a file handler at DEBUG writing to
      that folder joined with the day's file name. When the folder cannot
      be had, its error escapes with the handlers already cleared and none
      added. Other loggers keep their handlers either way. */
  function SetupNamedLogger(s: SetupLogger, reg: Registry, name: string, logDir: Result<string>,
                            date: string, logType: string): (r: Setup)
    ensures r.obj == s.(logger := Some(name))
    ensures r.error.Some? <==> logDir.Failure?
    ensures logDir.Failure? ==> r.error == Some(logDir.error) && HandlersOf(r.registry, name) == []
    ensures logDir.Success? ==>
      HandlersOf(r.registry, name)
        == [Handler(Console, Info), Handler(LogFile(LogFilePath(logDir.value, date, logType)), Debug)]
    ensures forall n :: n != name ==> HandlersOf(r.registry, n) == HandlersOf(reg, n)
  {
    var cleared := reg[name := []];
    var obj := s.(logger := Some(name));
    match logDir
    case Failure(e) => Setup(obj, cleared, Some(e))
    case Success(dir) =>
      var console := Handler(Console, Info);
      var file := Handler(LogFile(LogFilePath(dir, date, logType)), Debug);
      Setup(obj, cleared[name := cleared[name] + [console] + [file]], None)
  }

  /** `setup_logger` as the object runs it: the folder is the user log
      folder under the object's root. */
  function SetupLoggerIn(s: SetupLogger, reg: Registry, name: string, env: Env, logType: string): Setup {
    SetupNamedLogger(s, reg, name, UserLogDir(s, env), env.date, logType)
  }

  /** `close_logger`: closes and removes every handler of the configured
      logger; without a configured logger it does nothing. */
  function CloseLogger(s: SetupLogger, reg: Registry): (r: Registry)
    ensures s.logger.None? ==> r == reg
    ensures s.logger.Some? ==> HandlersOf(r, s.logger.value) == []
    ensures forall n :: s.logger != Some(n) ==> HandlersOf(r, n) == HandlersOf(reg, n)
  {
    match s.logger
    case None => reg
    case Some(name) => reg[name := []]
  }

  /** Setting a logger up a second time leaves it as one setup does: the
      handlers of the first setup are cleared, not accumulated. */
  lemma SetupTwiceIsSetupOnce(s: SetupLogger, reg: Registry, name: string, logDir: Result<string>,
                              date: string, logType: string)
    ensures var once := SetupNamedLogger(s, reg, name, logDir, date, logType);
      SetupNamedLogger(once.obj, once.registry, name, logDir, date, logType) == once
  {
    var once := SetupNamedLogger(s, reg, name, logDir, date, logType);
    var twice := SetupNamedLogger(once.obj, once.registry, name, logDir, date, logType);
    assert once.registry == reg[name := once.registry[name]];
    assert twice.registry == once.registry[name := once.registry[name]];
    assert twice.registry == once.registry;
  }

  /** After `setup_logger`, whether it raised or not, then `close_logger`,
      the logger has no handlers, and every other logger has the handlers
      it had before. */
  lemma SetupThenClose(s: SetupLogger, reg: Registry, name: string, logDir: Result<string>,
                       date: string, logType: string)
    ensures var st := SetupNamedLogger(s, reg, name, logDir, date, logType);
      && HandlersOf(CloseLogger(st.obj, st.registry), name) == []
      && forall n :: n != name ==> HandlersOf(CloseLogger(st.obj, st.registry), n) == HandlersOf(reg, n)
  {
  }

  /** Where one record at `level` on logger `name` ends up: every handler
      of that logger whose level admits it, in order, then the root logger.
      The logger's own level is not modelled: every logger here has been
      set to DEBUG by `setup_logger`, which admits every record. */
  function Emit(reg: Registry, name: string, level: Level): (sinks: seq<Sink>)
    ensures |sinks| >= 1 && sinks[|sinks| - 1] == Root
    ensures forall h :: h in HandlersOf(reg, name) && Severity(h.level) <= Severity(level) ==> h.sink in sinks
    ensures forall s :: s in sinks && s != Root ==> exists h :: h in HandlersOf(reg, name) && h.sink == s
  {
    Deliver(HandlersOf(reg, name), level) + [Root]
  }

  function Deliver(hs: seq<Handler>, level: Level): (sinks: seq<Sink>)
    ensures forall i :: 0 <= i < |hs| && Severity(hs[i].level) <= Severity(level) ==> hs[i].sink in sinks
    ensures forall s :: s in sinks ==> exists h :: h in hs && h.sink == s
  {
    if |hs| == 0 then []
    else
      var rest := Deliver(hs[1..], level);
      assert forall i :: 1 <= i < |hs| ==> hs[i] == hs[1..][i - 1];
      (if Severity(hs[0].level) <= Severity(level) then [hs[0].sink] else []) + rest
  }

  /** A logger with no handlers passes an error record on to the root
      logger alone. */
  lemma EmitWithoutHandlers(reg: Registry, name: string, level: Level)
    requires HandlersOf(reg, name) == []
    ensures Emit(reg, name, level) == [Root]
  {
  }

  /** A logger as `setup_logger` leaves it writes an error record to the
      console, then to its file, then passes it on to the root logger. */
  lemma EmitAfterSetup(reg: Registry, name: string, file: Sink)
    requires HandlersOf(reg, name) == [Handler(Console, Info), Handler(file, Debug)]
    ensures Emit(reg, name, Error) == [Console, file, Root]
  {
    var hs := HandlersOf(reg, name);
    assert hs[1..][1..] == [];
    assert Deliver(hs[1..][1..], Error) == [];
    assert Deliver(hs[1..], Error) == [file];
    assert Deliver(hs, Error) == [Console, file];
  }
}
