/** What constructing a `CustomException` or a `SystemException` does: it
    keeps the caller's type, code, message and function name, resolves the
    code against the HTTP table (type `"HTTP"`) or the custom table (any
    other type), and logs one error line through a freshly set-up
    "exception" logger, which it closes again. Setting the logger up can
    itself raise (no project root, no git user), and so can the lookup (a
    code that is not a number); the registry is returned on every path,
    because handlers attached before the raise stay attached. */
module Exceptions {
  import opened Wrappers
  import Text
  import ErrorCodes
  import Logging
  import FilePath

  /** The attributes the exception object keeps. */
  datatype Raised = Raised(kind: string, code: string, msg: string, func: string)

  /** One line the constructor logged, with every place it was written to. */
  datatype Record = Record(line: string, sinks: seq<Logging.Sink>)

  /** What the constructor did: the exception it built, or the error it
      raised instead; the lines it logged; the logger registry after it. */
  datatype Constructed = Constructed(outcome: Result<Raised>, records: seq<Record>, registry: Logging.Registry)

  /** The module file both constructors live in, and the name of the logger
      `setup_logger` derives from it. */
  const ModuleFile := "src/common/custom_exceptions.py"
  const LoggerName := "custom_exceptions"

  lemma ExceptionLoggerName()
    ensures Logging.CallerName(ModuleFile) == LoggerName
  {
    assert ModuleFile == "src/common" + "/" + "custom_exceptions" + "." + "py";
    assert "custom_exceptions"[0] != '.';
    Logging.CallerNameOfModule("src/common", "custom_exceptions", "py");
  }

  /** `str(code)`. */
  function CodeString(code: ErrorCodes.Code): string {
    match code
    case IntCode(n) => Text.IntToString(n)
    case StrCode(t) => t
  }

  /** The message the constructor logs: the table description of a known
      code, the caller's message for an unknown one. Type `"HTTP"` selects
      the HTTP table, every other type the custom table; a code that is not
      a number raises `ValueError`. */
  function ResolvedMessage(kind: string, code: string, msg: string): Result<string> {
    Resolve(TableFor(kind), code, msg)
  }

  /** The table a type resolves against: `get_http_error_msg` for
      `"HTTP"`, `get_custom_error_msg` otherwise. */
  function TableFor(kind: string): map<int, ErrorCodes.ErrorInfo> {
    if kind == "HTTP" then ErrorCodes.StatusCodes else ErrorCodes.CustomErrCodes
  }

  /** The message logged for `code` against `table`. */
  function Resolve(table: map<int, ErrorCodes.ErrorInfo>, code: string, msg: string): Result<string> {
    match ErrorCodes.Lookup(table, ErrorCodes.StrCode(code))
    case Failure(e) => Failure(e)
    case Success(t) => Success(if t.1.None? then msg else t.1.value)
  }

  /** A known code logs the description from the table its type selects;
      an unknown one logs the caller's message; a non-numeric one raises. */
  lemma ResolvedMessageCases(kind: string, code: string, msg: string)
    ensures Text.ParseInt(code).None? <==> ResolvedMessage(kind, code, msg).Failure?
    ensures ResolvedMessage(kind, code, msg).Failure? ==> ResolvedMessage(kind, code, msg).error == "ValueError"
    ensures Text.ParseInt(code).Some? && Text.ParseInt(code).value in TableFor(kind) ==>
      ResolvedMessage(kind, code, msg) == Success(TableFor(kind)[Text.ParseInt(code).value].desc)
    ensures Text.ParseInt(code).Some? && Text.ParseInt(code).value !in TableFor(kind) ==>
      ResolvedMessage(kind, code, msg) == Success(msg)
  {
    ResolveCases(TableFor(kind), code, msg);
  }

  lemma ResolveCases(table: map<int, ErrorCodes.ErrorInfo>, code: string, msg: string)
    ensures Text.ParseInt(code).None? <==> Resolve(table, code, msg).Failure?
    ensures Resolve(table, code, msg).Failure? ==> Resolve(table, code, msg).error == "ValueError"
    ensures Text.ParseInt(code).Some? && Text.ParseInt(code).value in table ==>
      Resolve(table, code, msg) == Success(table[Text.ParseInt(code).value].desc)
    ensures Text.ParseInt(code).Some? && Text.ParseInt(code).value !in table ==>
      Resolve(table, code, msg) == Success(msg)
  {
    ErrorCodes.LookupFindsEntry(table, ErrorCodes.StrCode(code));
  }

  /** The logged line: `"{func} : {type} : {code} : {msg}"`. */
  function LogLine(func: string, kind: string, code: string, msg: string): string {
    func + " : " + kind + " : " + code + " : " + msg
  }

  /** The code `"4001"` resolves, under the custom table, to the table's
      "Image not found"; the HTTP table does not know it, so under type
      `"HTTP"` the caller's message is kept. */
  lemma ImageNotFoundMessages()
    ensures ResolvedMessage("VALID", "4001", "Image Not Found") == Success("Image not found")
    ensures ResolvedMessage("HTTP", "4001", "Image Not Found") == Success("Image Not Found")
  {
    ParseImageNotFoundCode();
    ResolvedMessageCases("VALID", "4001", "Image Not Found");
    ResolvedMessageCases("HTTP", "4001", "Image Not Found");
    ImageNotFoundEntry();
  }

  lemma ParseImageNotFoundCode()
    ensures Text.ParseInt("4001") == Some(4001)
  {
    assert Text.NatToString(4) == "4";
    assert Text.NatToString(40) == "40";
    assert Text.NatToString(400) == "400";
    assert Text.NatToString(4001) == "4001";
    Text.ParseIntString(4001);
  }

  lemma ImageNotFoundEntry()
    ensures 4001 in ErrorCodes.CustomErrCodes && ErrorCodes.CustomErrCodes[4001].desc == "Image not found"
    ensures 4001 !in ErrorCodes.StatusCodes
  {
    ErrorCodes.CustomCodeKinds();
    ErrorCodes.TablesDisjoint();
  }

  /** The folder the exception logger writes into: `SetupLogger()` must
      find the project root, then `get_user_id_log_path()` the user's month
      folder under it; either step can raise. */
  function ExceptionLogDir(env: Logging.Env): Result<string> {
    match Logging.NewSetupLogger(env.search)
    case Failure(e) => Failure(e)
    case Success(s) => Logging.UserLogDir(s, env)
  }

  /** The exception log file in `dir` for `date`. */
  function ExceptionLogFile(dir: string, date: string): Logging.Sink {
    Logging.LogFile(Logging.LogFilePath(dir, date, "exception"))
  }

  /** The handlers `setup_logger(log_type="exception")` leaves on the
      logger when it succeeds. */
  function Attached(dir: string, date: string): seq<Logging.Handler> {
    [Logging.Handler(Logging.Console, Logging.Info), Logging.Handler(ExceptionLogFile(dir, date), Logging.Debug)]
  }

  /** The exception logger's folder is the user's month folder under the
      project root; without a root the constructor raises what
      `FilePathClass()` raises, without a git user what
      `get_user_id_log_path` raises. */
  lemma ExceptionLogDirCases(env: Logging.Env)
    ensures !env.search.Found? ==> ExceptionLogDir(env) == Failure(FilePath.NewFilePaths(env.search).error)
    ensures env.search.Found? && env.git.CommandFailed? ==> ExceptionLogDir(env) == Failure("EnvironmentError")
    ensures env.search.Found? && env.git.Printed? && Text.Strip(env.git.stdout) == "" ==>
      ExceptionLogDir(env) == Failure("TypeError")
    ensures ExceptionLogDir(env).Success? ==>
      && env.search.Found? && env.git.Printed?
      && ExceptionLogDir(env).value == FilePath.Under(env.search.dir, [FilePath.LogDir, Text.Strip(env.git.stdout), env.month])
  {
  }

  /** How far the constructor got before logging: it raised `error`,
      leaving `registry` behind, or it has the set-up logger `st` writing
      into `dir` and the resolved message `m`. */
  datatype Prepared = Raise(error: string, registry: Logging.Registry) | Ready(st: Logging.Setup, dir: string, m: string)

  /** The registry a prepared constructor leaves. */
  function RegistryOf(p: Prepared): Logging.Registry {
    match p
    case Raise(_, r) => r
    case Ready(st, _, _) => st.registry
  }

  /** A prepared constructor whose logger carries the two handlers
      `setup_logger` attaches. */
  predicate Primed(p: Prepared, date: string) {
    p.Ready? ==>
      && p.st.obj.logger == Some(LoggerName)
      && Logging.HandlersOf(p.st.registry, LoggerName) == Attached(p.dir, date)
  }

  /** The steps both constructors take before logging: `SetupLogger()`
      (which gave `obj`), `setup_logger(log_type="exception")` with the
      folder `dir`, and the code lookup. The handlers are attached before
      the lookup runs, so a lookup that raises leaves them attached. */
  function Prepare(kind: string, text: string, msg: string, reg: Logging.Registry,
                   obj: Result<Logging.SetupLogger>, dir: Result<string>, date: string): (p: Prepared)
    requires obj.Failure? ==> dir == Failure(obj.error)
    ensures p.Ready? <==> dir.Success? && ResolvedMessage(kind, text, msg).Success?
    ensures obj.Failure? ==> p == Raise(obj.error, reg)
    ensures obj.Success? && dir.Failure? ==>
      p.Raise? && p.error == dir.error && Logging.HandlersOf(p.registry, LoggerName) == []
    ensures dir.Success? && ResolvedMessage(kind, text, msg).Failure? ==>
      && p.Raise? && p.error == ResolvedMessage(kind, text, msg).error
      && Logging.HandlersOf(p.registry, LoggerName) == Attached(dir.value, date)
    ensures p.Ready? ==> p.dir == dir.value && p.m == ResolvedMessage(kind, text, msg).value
    ensures Primed(p, date)
    ensures forall n :: n != LoggerName ==> Logging.HandlersOf(RegistryOf(p), n) == Logging.HandlersOf(reg, n)
  {
    match obj
    case Failure(e) => Raise(e, reg)
    case Success(s) =>
      var st := Logging.SetupNamedLogger(s, reg, LoggerName, dir, date, "exception");
      if st.error.Some? then Raise(st.error.value, st.registry)
      else
        match ResolvedMessage(kind, text, msg)
        case Failure(e) => Raise(e, st.registry)
        case Success(m) => Ready(st, dir.value, m)
  }

  /** `Prepare` in the environment `env`. */
  function PrepareIn(kind: string, text: string, msg: string, reg: Logging.Registry, env: Logging.Env): Prepared {
    Prepare(kind, text, msg, reg, Logging.NewSetupLogger(env.search), ExceptionLogDir(env), env.date)
  }

  /** `CustomException(type, code, msg, func)`: once the logger is set up
      and the code resolves, the exception keeps the caller's attributes,
      and its one logged line carries the resolved message and is written
      to the console, to the day's exception log file and on to the root
      logger; the logger is left without handlers. When the set-up or the
      lookup raises, nothing is logged and the error is the one raised. */
  function NewCustomException(kind: string, code: ErrorCodes.Code, msg: string, func: string,
                              reg: Logging.Registry, env: Logging.Env): (r: Constructed)
    ensures r.outcome.Success? <==> ExceptionLogDir(env).Success? && ResolvedMessage(kind, CodeString(code), msg).Success?
    ensures ExceptionLogDir(env).Failure? ==> r.outcome == Failure(ExceptionLogDir(env).error)
    ensures r.outcome.Failure? ==> r.records == []
    ensures r.outcome.Success? ==>
      && r.outcome.value == Raised(kind, CodeString(code), msg, func)
      && r.records == [Record(LogLine(func, kind, CodeString(code), ResolvedMessage(kind, CodeString(code), msg).value),
                              [Logging.Console, ExceptionLogFile(ExceptionLogDir(env).value, env.date), Logging.Root])]
      && Logging.HandlersOf(r.registry, LoggerName) == []
    ensures forall n :: n != LoggerName ==> Logging.HandlersOf(r.registry, n) == Logging.HandlersOf(reg, n)
  {
    var text := CodeString(code);
    Custom(kind, text, msg, func, PrepareIn(kind, text, msg, reg, env), env.date)
  }

  /** The rest of `CustomException` once prepared: a raise passes through,
      otherwise the resolved line is logged and the logger closed. */
  function Custom(kind: string, text: string, msg: string, func: string, p: Prepared, date: string): (r: Constructed)
    requires Primed(p, date)
    ensures r.outcome.Success? <==> p.Ready?
    ensures p.Raise? ==> r == Constructed(Failure(p.error), [], p.registry)
    ensures p.Ready? ==>
      && r.outcome == Success(Raised(kind, text, msg, func))
      && r.records == [Record(LogLine(func, kind, text, p.m), [Logging.Console, ExceptionLogFile(p.dir, date), Logging.Root])]
      && Logging.HandlersOf(r.registry, LoggerName) == []
    ensures forall n :: n != LoggerName ==> Logging.HandlersOf(r.registry, n) == Logging.HandlersOf(RegistryOf(p), n)
  {
    match p
    case Raise(e, after) => Constructed(Failure(e), [], after)
    case Ready(st, dir, m) => LogResolved(kind, text, msg, func, m, st, ExceptionLogFile(dir, date))
  }

  /** Log the line with the resolved message `m` through the set-up logger,
      then close it. */
  function LogResolved(kind: string, text: string, msg: string, func: string, m: string,
                       st: Logging.Setup, file: Logging.Sink): (c: Constructed)
    requires st.obj.logger == Some(LoggerName)
    requires Logging.HandlersOf(st.registry, LoggerName) == [Logging.Handler(Logging.Console, Logging.Info), Logging.Handler(file, Logging.Debug)]
    ensures c.outcome == Success(Raised(kind, text, msg, func))
    ensures c.records == [Record(LogLine(func, kind, text, m), [Logging.Console, file, Logging.Root])]
    ensures Logging.HandlersOf(c.registry, LoggerName) == []
    ensures forall n :: n != LoggerName ==> Logging.HandlersOf(c.registry, n) == Logging.HandlersOf(st.registry, n)
  {
    Logging.EmitAfterSetup(st.registry, LoggerName, file);
    var first := Record(LogLine(func, kind, text, m), Logging.Emit(st.registry, LoggerName, Logging.Error));
    Constructed(Success(Raised(kind, text, msg, func)), [first], Logging.CloseLogger(st.obj, st.registry))
  }

  /** Without a project root, `SetupLogger()` raises before the registry is
      touched. */
  lemma CustomExceptionWithoutRoot(kind: string, code: ErrorCodes.Code, msg: string, func: string,
                                   reg: Logging.Registry, env: Logging.Env)
    requires !env.search.Found?
    ensures NewCustomException(kind, code, msg, func, reg, env)
      == Constructed(Failure(FilePath.NewFilePaths(env.search).error), [], reg)
  {
  }

  /** With a root but no user log folder, `setup_logger` has already
      cleared the logger's handlers when `get_user_id_log_path` raises. */
  lemma CustomExceptionWithoutLogDir(kind: string, code: ErrorCodes.Code, msg: string, func: string,
                                     reg: Logging.Registry, env: Logging.Env)
    requires env.search.Found? && ExceptionLogDir(env).Failure?
    ensures var r := NewCustomException(kind, code, msg, func, reg, env);
      && r.outcome == Failure(ExceptionLogDir(env).error)
      && r.records == []
      && Logging.HandlersOf(r.registry, LoggerName) == []
  {
  }

  /** A code that is not a number raises `ValueError` after the handlers
      are attached and before `close_logger`, so both handlers stay on the
      logger. */
  lemma CustomExceptionBadCode(kind: string, code: ErrorCodes.Code, msg: string, func: string,
                               reg: Logging.Registry, env: Logging.Env)
    requires ExceptionLogDir(env).Success? && Text.ParseInt(CodeString(code)).None?
    ensures var r := NewCustomException(kind, code, msg, func, reg, env);
      && r.outcome == Failure("ValueError")
      && r.records == []
      && Logging.HandlersOf(r.registry, LoggerName) == Attached(ExceptionLogDir(env).value, env.date)
  {
    ResolvedMessageCases(kind, CodeString(code), msg);
  }

  /** The call site in the image helpers: a missing image raised as
      `VALID` code `"4001"` logs the table's "Image not found" while the
      exception keeps the caller's "Image Not Found"; the same code under
      type `"HTTP"` is unknown to the HTTP table, so the logged line
      carries the caller's text. Without a log folder the constructor
      raises the set-up's error instead. */
  lemma ImageNotFoundExample(kind: string, code: string, msg: string, reg: Logging.Registry, env: Logging.Env)
    requires kind == "VALID" || kind == "HTTP"
    requires code == "4001" && msg == "Image Not Found"
    ensures var r := NewCustomException(kind, ErrorCodes.StrCode(code), msg, "utils.CommonUtilCodes.select_all_table", reg, env);
      && (ExceptionLogDir(env).Failure? ==> r.outcome == Failure(ExceptionLogDir(env).error))
      && (ExceptionLogDir(env).Success? ==>
        && r.outcome.Success?
        && r.outcome.value.msg == "Image Not Found"
        && (kind == "VALID" ==> r.records[0].line == LogLine("utils.CommonUtilCodes.select_all_table", "VALID", "4001", "Image not found"))
        && (kind == "HTTP" ==> r.records[0].line == LogLine("utils.CommonUtilCodes.select_all_table", "HTTP", "4001", "Image Not Found")))
  {
    ImageNotFoundMessages();
  }

  /** `SystemException(type, code, msg, func)` as written: the parent
      constructor logs the resolved line and closes the logger, and only
      then is the second line, with the caller's message, logged through
      the same logger, which by now has no handlers. When the parent
      raises, so does this constructor, with the same error. */
  function NewSystemExceptionAsWritten(kind: string, code: ErrorCodes.Code, msg: string, func: string,
                                       reg: Logging.Registry, env: Logging.Env): (r: Constructed)
    ensures r.outcome.Success? <==> ExceptionLogDir(env).Success? && ResolvedMessage(kind, CodeString(code), msg).Success?
    ensures ExceptionLogDir(env).Failure? ==> r.outcome == Failure(ExceptionLogDir(env).error)
    ensures r.outcome.Failure? ==> r.records == []
    ensures r.outcome.Success? ==>
      && r.outcome.value == Raised(kind, CodeString(code), msg, func)
      && |r.records| == 2
      && r.records[1].line == LogLine(func, kind, CodeString(code), msg)
  {
    var text := CodeString(code);
    SystemAsWritten(kind, text, msg, func, PrepareIn(kind, text, msg, reg, env), env.date)
  }

  /** The rest of `SystemException` as written once prepared. */
  function SystemAsWritten(kind: string, text: string, msg: string, func: string, p: Prepared, date: string): (r: Constructed)
    requires Primed(p, date)
    ensures r.outcome.Success? <==> p.Ready?
    ensures p.Raise? ==> r == Constructed(Failure(p.error), [], p.registry)
    ensures p.Ready? ==>
      && r.outcome == Success(Raised(kind, text, msg, func))
      && |r.records| == 2
      && r.records[0] == Record(LogLine(func, kind, text, p.m), [Logging.Console, ExceptionLogFile(p.dir, date), Logging.Root])
      && r.records[1].line == LogLine(func, kind, text, msg)
  {
    match p
    case Raise(e, after) => Constructed(Failure(e), [], after)
    case Ready(st, dir, m) =>
      LogAfterClose(LogResolved(kind, text, msg, func, m, st, ExceptionLogFile(dir, date)), kind, text, msg, func, st.obj)
  }

  /** The second half of the constructor as written: log the caller's
      message through the logger the parent already closed, then close it
      again. */
  function LogAfterClose(c: Constructed, kind: string, text: string, msg: string, func: string,
                         obj: Logging.SetupLogger): (r: Constructed)
    ensures r.outcome == c.outcome
    ensures r.records == c.records + [Record(LogLine(func, kind, text, msg), Logging.Emit(c.registry, LoggerName, Logging.Error))]
  {
    var second := Record(LogLine(func, kind, text, msg), Logging.Emit(c.registry, LoggerName, Logging.Error));
    Constructed(c.outcome, c.records + [second], Logging.CloseLogger(obj, c.registry))
  }

  /** The second line of a `SystemException` as written reaches neither the
      console handler nor the exception log file: it is only passed on to
      the root logger. */
  lemma SystemExceptionSecondLineLost(kind: string, code: ErrorCodes.Code, msg: string, func: string,
                                      reg: Logging.Registry, env: Logging.Env)
    ensures var r := NewSystemExceptionAsWritten(kind, code, msg, func, reg, env);
      r.outcome.Success? ==>
        && r.records[1].sinks == [Logging.Root]
        && ExceptionLogFile(ExceptionLogDir(env).value, env.date) !in r.records[1].sinks
  {
    var text := CodeString(code);
    var p := PrepareIn(kind, text, msg, reg, env);
    if p.Ready? {
      SecondLineLost(kind, text, msg, func, p.m, p.st, ExceptionLogFile(p.dir, env.date));
    }
  }

  lemma SecondLineLost(kind: string, text: string, msg: string, func: string, m: string,
                       st: Logging.Setup, file: Logging.Sink)
    requires st.obj.logger == Some(LoggerName)
    requires file.LogFile?
    requires Logging.HandlersOf(st.registry, LoggerName) == [Logging.Handler(Logging.Console, Logging.Info), Logging.Handler(file, Logging.Debug)]
    ensures var r := LogAfterClose(LogResolved(kind, text, msg, func, m, st, file), kind, text, msg, func, st.obj);
      && |r.records| == 2
      && r.records[1].sinks == [Logging.Root]
      && file !in r.records[1].sinks
  {
    var c := LogResolved(kind, text, msg, func, m, st, file);
    Logging.EmitWithoutHandlers(c.registry, LoggerName, Logging.Error);
  }

  /** `SystemException` as evidently intended: both lines, the resolved one
      and the one with the caller's message, are logged while the handlers
      are attached, and the logger is closed once at the end. The set-up and
      the lookup raise as in the parent. */
  function NewSystemException(kind: string, code: ErrorCodes.Code, msg: string, func: string,
                              reg: Logging.Registry, env: Logging.Env): (r: Constructed)
    ensures r.outcome.Success? <==> ExceptionLogDir(env).Success? && ResolvedMessage(kind, CodeString(code), msg).Success?
    ensures ExceptionLogDir(env).Failure? ==> r.outcome == Failure(ExceptionLogDir(env).error)
    ensures r.outcome.Failure? ==> r.records == []
    ensures r.outcome.Success? ==>
      && r.outcome.value == Raised(kind, CodeString(code), msg, func)
      && |r.records| == 2
      && r.records[0].line == LogLine(func, kind, CodeString(code), ResolvedMessage(kind, CodeString(code), msg).value)
      && r.records[1].line == LogLine(func, kind, CodeString(code), msg)
      && (forall i :: 0 <= i < 2 ==>
            r.records[i].sinks == [Logging.Console, ExceptionLogFile(ExceptionLogDir(env).value, env.date), Logging.Root])
      && Logging.HandlersOf(r.registry, LoggerName) == []
  {
    var text := CodeString(code);
    System(kind, text, msg, func, PrepareIn(kind, text, msg, reg, env), env.date)
  }

  /** The rest of the corrected `SystemException` once prepared. */
  function System(kind: string, text: string, msg: string, func: string, p: Prepared, date: string): (r: Constructed)
    requires Primed(p, date)
    ensures r.outcome.Success? <==> p.Ready?
    ensures p.Raise? ==> r == Constructed(Failure(p.error), [], p.registry)
    ensures p.Ready? ==>
      && r.outcome == Success(Raised(kind, text, msg, func))
      && |r.records| == 2
      && r.records[0].line == LogLine(func, kind, text, p.m)
      && r.records[1].line == LogLine(func, kind, text, msg)
      && (forall i :: 0 <= i < 2 ==> r.records[i].sinks == [Logging.Console, ExceptionLogFile(p.dir, date), Logging.Root])
      && Logging.HandlersOf(r.registry, LoggerName) == []
  {
    match p
    case Raise(e, after) => Constructed(Failure(e), [], after)
    case Ready(st, dir, m) => LogBoth(kind, text, msg, func, m, st, ExceptionLogFile(dir, date))
  }

  /** Log the resolved line and then the caller's through the set-up
      logger, then close it. */
  function LogBoth(kind: string, text: string, msg: string, func: string, m: string,
                   st: Logging.Setup, file: Logging.Sink): (c: Constructed)
    requires st.obj.logger == Some(LoggerName)
    requires Logging.HandlersOf(st.registry, LoggerName) == [Logging.Handler(Logging.Console, Logging.Info), Logging.Handler(file, Logging.Debug)]
    ensures c.outcome == Success(Raised(kind, text, msg, func))
    ensures |c.records| == 2
    ensures c.records[0].line == LogLine(func, kind, text, m)
    ensures c.records[1].line == LogLine(func, kind, text, msg)
    ensures forall i :: 0 <= i < 2 ==> c.records[i].sinks == [Logging.Console, file, Logging.Root]
    ensures Logging.HandlersOf(c.registry, LoggerName) == []
  {
    Logging.EmitAfterSetup(st.registry, LoggerName, file);
    var sinks := Logging.Emit(st.registry, LoggerName, Logging.Error);
    var first := Record(LogLine(func, kind, text, m), sinks);
    var second := Record(LogLine(func, kind, text, msg), sinks);
    Constructed(Success(Raised(kind, text, msg, func)), [first, second], Logging.CloseLogger(st.obj, st.registry))
  }

  /** The correction changes nothing but where the second line goes: the
      outcome, the first line, the second line's text and the final
      registry are those of the code as written, and a constructor that
      raises is the same in both. */
  lemma SystemExceptionCorrectionIsLocal(kind: string, code: ErrorCodes.Code, msg: string, func: string,
                                         reg: Logging.Registry, env: Logging.Env)
    ensures var w := NewSystemExceptionAsWritten(kind, code, msg, func, reg, env);
      var f := NewSystemException(kind, code, msg, func, reg, env);
      && f.outcome == w.outcome
      && f.registry == w.registry
      && (f.outcome.Failure? ==> f == w)
      && (f.outcome.Success? ==> f.records[0] == w.records[0] && f.records[1].line == w.records[1].line)
  {
    var text := CodeString(code);
    var p := PrepareIn(kind, text, msg, reg, env);
    if p.Ready? {
      CorrectionIsLocal(kind, text, msg, func, p.m, p.st, ExceptionLogFile(p.dir, env.date));
    }
  }

  lemma CorrectionIsLocal(kind: string, text: string, msg: string, func: string, m: string,
                          st: Logging.Setup, file: Logging.Sink)
    requires st.obj.logger == Some(LoggerName)
    requires Logging.HandlersOf(st.registry, LoggerName) == [Logging.Handler(Logging.Console, Logging.Info), Logging.Handler(file, Logging.Debug)]
    ensures var w := LogAfterClose(LogResolved(kind, text, msg, func, m, st, file), kind, text, msg, func, st.obj);
      var f := LogBoth(kind, text, msg, func, m, st, file);
      && f.outcome == w.outcome
      && |w.records| == 2
      && f.records[0] == w.records[0]
      && f.records[1].line == w.records[1].line
      && f.registry == w.registry
  {
    var closed := Logging.CloseLogger(st.obj, st.registry);
    assert Logging.CloseLogger(st.obj, closed) == closed;
  }
}
