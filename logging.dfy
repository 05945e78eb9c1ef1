/**
 * The logger: a level threshold, and a callback that receives every message
 * at or above it. The default callback writes to an output; installing a
 * custom callback discards that output, after which changing the output is
 * refused with a warning.
 */
module Logging {
  import opened Outcomes

  /** LogLevel is a Go int: any value can occur, seven of them are named. */
  type LogLevel = int

  const DebugLevel: LogLevel := 0
  const TraceLevel: LogLevel := 1
  const InfoLevel: LogLevel := 2
  const WarningLevel: LogLevel := 3
  const ErrorLevel: LogLevel := 4
  const PanicLevel: LogLevel := 5
  const FatalLevel: LogLevel := 6

  /** The names of the levels, in level order. */
  const LevelNames: seq<string> := ["DEBUG", "TRACE", "INFO", "WARNING", "ERROR", "PANIC", "FATAL"]

  /** LogLevel.String. */
  function LevelName(l: LogLevel): string {
    match l
    case 0 => "DEBUG"
    case 1 => "TRACE"
    case 2 => "INFO"
    case 3 => "WARNING"
    case 4 => "ERROR"
    case 5 => "PANIC"
    case 6 => "FATAL"
    case _ => "UNKNOWN"
  }

  /** Each named level has its own name; every other value is UNKNOWN, a name no level has. */
  lemma LevelNameSpec(l: LogLevel)
    ensures DebugLevel <= l <= FatalLevel ==> LevelName(l) == LevelNames[l]
    ensures LevelName(l) == "UNKNOWN" <==> !(DebugLevel <= l <= FatalLevel)
  {
  }

  /** Different named levels have different names. */
  lemma LevelNamesDistinct(a: LogLevel, b: LogLevel)
    requires DebugLevel <= a <= FatalLevel && DebugLevel <= b <= FatalLevel && a != b
    ensures LevelName(a) != LevelName(b)
  {
    LevelNameSpec(a);
    LevelNameSpec(b);
  }

  /** An io.Writer, by identity. */
  datatype Sink = Discard | Writer(id: nat)

  /** A LogCallback: defaultCallback over an output, or one the user gave (by identity). */
  datatype Handler = DefaultCallback(output: Sink) | Custom(id: nat)

  /** What runtime.Caller reports about the logging call site. */
  datatype Caller = Caller(file: string, line: int)

  /** One call of the callback. */
  datatype Invocation = Invocation(handler: Handler, level: LogLevel, message: string, file: string, line: int)

  /** The logger's fields as a value. */
  datatype LogState = LogState(useCallback: bool, callback: Handler, level: LogLevel, output: Sink)

  /** defaultLogger. */
  const DefaultLogState: LogState := LogState(false, DefaultCallback(Discard), DebugLevel, Discard)

  /** logger.Print on an already formatted message: the callback call, if the level passes the threshold. */
  function Emit(st: LogState, level: LogLevel, message: string, caller: Option<Caller>): Option<Invocation> {
    if level < st.level then None
    else match caller
      case Some(c) => Some(Invocation(st.callback, level, message, c.file, c.line))
      case None => Some(Invocation(st.callback, level, message, "n/a", -1))
  }

  /**
   * Print calls the callback exactly when the message level is at least the
   * configured one, with that level and message, the caller's position or
   * "n/a" and -1 when there is none.
   */
  lemma EmitSpec(st: LogState, level: LogLevel, message: string, caller: Option<Caller>)
    ensures Emit(st, level, message, caller).Some? <==> level >= st.level
    ensures Emit(st, level, message, caller).Some? ==>
      var i := Emit(st, level, message, caller).value;
      && i.handler == st.callback && i.level == level && i.message == message
      && (caller.Some? ==> i.file == caller.value.file && i.line == caller.value.line)
      && (caller.None? ==> i.file == "n/a" && i.line == -1)
  {
  }

  /** A message that passes the threshold would also pass at any higher level. */
  lemma EmitMonotone(st: LogState, low: LogLevel, high: LogLevel, message: string, caller: Option<Caller>)
    requires low <= high && Emit(st, low, message, caller).Some?
    ensures Emit(st, high, message, caller).Some?
  {
  }

  /** The warning SetOutput gives when a callback is installed. */
  const OutputWithCallbackWarning: string := "log output feature is not usable when using callback"

  /** The log options: Callback, SetLevel and SetOutput. */
  datatype LogOption = UseCallback(id: nat) | SetLevel(level: LogLevel) | SetOutput(writer: Sink)

  /** The new fields after an option, and the warning it emitted, if any. */
  datatype Applied = Applied(state: LogState, warning: Option<Invocation>)

  function ApplyOption(st: LogState, o: LogOption, caller: Option<Caller>): Applied {
    match o
    case UseCallback(id) => Applied(st.(useCallback := true, callback := Custom(id), output := Discard), None)
    case SetLevel(level) => Applied(st.(level := level), None)
    case SetOutput(w) =>
      if !st.useCallback then Applied(st.(output := w, callback := DefaultCallback(w)), None)
      else Applied(st, Emit(st, WarningLevel, OutputWithCallbackWarning, caller))
  }

  /** Every option but SetOutput under a callback is silent; each changes only its own fields. */
  lemma ApplyOptionFrame(st: LogState, o: LogOption, caller: Option<Caller>)
    ensures var a := ApplyOption(st, o, caller);
      && (o.SetLevel? ==> a.state == st.(level := o.level) && a.warning.None?)
      && (!o.SetLevel? ==> a.state.level == st.level)
      && (o.UseCallback? ==> a.state.useCallback && a.state.callback == Custom(o.id) && a.state.output == Discard)
      && (a.warning.Some? ==> o.SetOutput? && st.useCallback)
  {
  }

  /**
   * After a callback is installed, SetOutput changes nothing: the output
   * stays discarded and the callback stays the user's; it only warns, at the
   * warning level, when that level passes the threshold.
   */
  lemma SetOutputAfterCallback(st: LogState, id: nat, w: Sink, c1: Option<Caller>, c2: Option<Caller>)
    ensures var s1 := ApplyOption(st, UseCallback(id), c1).state;
      var a := ApplyOption(s1, SetOutput(w), c2);
      && a.state == s1 && a.state.output == Discard && a.state.callback == Custom(id)
      && (a.warning.Some? <==> WarningLevel >= st.level)
      && (a.warning.Some? ==> a.warning.value.handler == Custom(id) && a.warning.value.level == WarningLevel
                               && a.warning.value.message == OutputWithCallbackWarning)
  {
    var s1 := ApplyOption(st, UseCallback(id), c1).state;
    EmitSpec(s1, WarningLevel, OutputWithCallbackWarning, c2);
  }

  /** Without a callback, SetOutput installs the default callback over the new output. */
  lemma SetOutputWithoutCallback(st: LogState, w: Sink, caller: Option<Caller>)
    requires !st.useCallback
    ensures ApplyOption(st, SetOutput(w), caller) == Applied(st.(output := w, callback := DefaultCallback(w)), None)
  {
  }

  /**
   * SetLevel moves the threshold: afterwards a message is printed iff its
   * level is at least the new one, so SetLevel(WarningLevel) silences Debug,
   * Trace and Info and lets Warning, Error, Panic and Fatal through.
   */
  lemma SetLevelThreshold(st: LogState, level: LogLevel, at: LogLevel, message: string, c1: Option<Caller>, c2: Option<Caller>)
    ensures Emit(ApplyOption(st, SetLevel(level), c1).state, at, message, c2).Some? <==> at >= level
    ensures var w := ApplyOption(st, SetLevel(WarningLevel), c1).state;
      && Emit(w, DebugLevel, message, c2).None? && Emit(w, TraceLevel, message, c2).None?
      && Emit(w, InfoLevel, message, c2).None? && Emit(w, WarningLevel, message, c2).Some?
      && Emit(w, ErrorLevel, message, c2).Some? && Emit(w, PanicLevel, message, c2).Some?
      && Emit(w, FatalLevel, message, c2).Some?
  {
  }

  class Logger {
    var useCallback: bool
    var callback: Handler
    var level: LogLevel
    var output: Sink

    function State(): LogState
      reads this
    {
      LogState(useCallback, callback, level, output)
    }

    /** defaultLogger: level Debug, output discarded, the default callback. */
    constructor ()
      ensures State() == DefaultLogState
      ensures level == DebugLevel && output == Discard && !useCallback
    {
      level := DebugLevel;
      output := Discard;
      useCallback := false;
      callback := DefaultCallback(Discard);
    }

    /** logger.Print. */
    method Print(msgLevel: LogLevel, message: string, caller: Option<Caller>) returns (call: Option<Invocation>)
      ensures call == Emit(State(), msgLevel, message, caller)
    {
      if msgLevel < level {
        return None;
      }
      match caller {
        case Some(c) => call := Some(Invocation(callback, msgLevel, message, c.file, c.line));
        case None => call := Some(Invocation(callback, msgLevel, message, "n/a", -1));
      }
    }

    method Debug(message: string, caller: Option<Caller>) returns (call: Option<Invocation>)
      ensures call == Emit(State(), DebugLevel, message, caller)
    {
      call := Print(DebugLevel, message, caller);
    }

    method Trace(message: string, caller: Option<Caller>) returns (call: Option<Invocation>)
      ensures call == Emit(State(), TraceLevel, message, caller)
    {
      call := Print(TraceLevel, message, caller);
    }

    method Info(message: string, caller: Option<Caller>) returns (call: Option<Invocation>)
      ensures call == Emit(State(), InfoLevel, message, caller)
    {
      call := Print(InfoLevel, message, caller);
    }

    method Warn(message: string, caller: Option<Caller>) returns (call: Option<Invocation>)
      ensures call == Emit(State(), WarningLevel, message, caller)
    {
      call := Print(WarningLevel, message, caller);
    }

    method Error(message: string, caller: Option<Caller>) returns (call: Option<Invocation>)
      ensures call == Emit(State(), ErrorLevel, message, caller)
    {
      call := Print(ErrorLevel, message, caller);
    }

    method Fatal(message: string, caller: Option<Caller>) returns (call: Option<Invocation>)
      ensures call == Emit(State(), FatalLevel, message, caller)
    {
      call := Print(FatalLevel, message, caller);
    }

    method Panic(message: string, caller: Option<Caller>) returns (call: Option<Invocation>)
      ensures call == Emit(State(), PanicLevel, message, caller)
    {
      call := Print(PanicLevel, message, caller);
    }

    /** The Callback option. */
    method Callback(id: nat)
      modifies this
      ensures State() == ApplyOption(old(State()), UseCallback(id), None).state
    {
      useCallback := true;
      callback := Custom(id);
      output := Discard;
    }

    /** The SetLevel option. */
    method SetLevel(l: LogLevel)
      modifies this
      ensures State() == ApplyOption(old(State()), LogOption.SetLevel(l), None).state
    {
      level := l;
    }

    /** The SetOutput option: refused with a warning once a callback is installed. */
    method SetOutput(writer: Sink, caller: Option<Caller>) returns (warning: Option<Invocation>)
      modifies this
      ensures Applied(State(), warning) == ApplyOption(old(State()), LogOption.SetOutput(writer), caller)
    {
      if !useCallback {
        output := writer;
        callback := DefaultCallback(writer);
        warning := None;
      } else {
        warning := Warn(OutputWithCallbackWarning, caller);
      }
    }
  }
}
