/** The coordinator's state and the effect of each event on it, as pure
    functions of the state before the event (src/index.ts, lines 50-147).
    `asyncMode` is the value of `isAsync()` when the event arrives. */
module Coordinator {
  import opened Common
  import opened Taps

  const NAME := "ForkTsCheckerAsyncOverlayWebpackPlugin"
  const DEV_SERVER := "webpack-dev-server"
  const MISSING_CHECKER := "Please pass checkerPlugin to " + NAME + "."
  const DEV_SERVER_NOT_SYNC := "webpack-dev-server's done tap is not sync. Please update logic of this plugin."

  /** A build's statistics, opaque to the coordinator; the token tells snapshots apart. */
  datatype Stats = Stats(build: nat)

  /** A compilation object, opaque to the coordinator. */
  datatype Compilation = Compilation(id: nat)

  datatype Severity = Error | Warning

  /** A diagnostic or lint message reported by the checker. */
  datatype Message = Message(severity: Severity, text: string)
  {
    predicate IsErrorSeverity()
    {
      severity == Error
    }
  }

  /** The checker's pending emit callback: whatever the checker installed
      itself (`Default`), or one created by `createEmitCallback` for a
      compilation, whose completion notifier is `maybeCallDevServerDone`. */
  datatype EmitCallback = Default | Bound(compilation: Compilation)

  /** Everything the coordinator reads or writes. `replays` logs each call of a
      captured dev-server tap with the stats passed to it; `flushed` logs each
      compilation onto which a bound emit callback recorded the checker's
      errors. */
  datatype State = State(
    checkerDone: bool,
    lastStats: Option<Stats>,
    doneTaps: seq<Tap>,
    callback: EmitCallback,
    replays: seq<(Tap, Stats)>,
    flushed: seq<Compilation>)

  /** The state of a freshly constructed coordinator over a checker whose
      callback slot holds `callback`. */
  function Initial(callback: EmitCallback): State
  {
    State(false, None, [], callback, [], [])
  }

  /** Every captured tap is the dev server's and is synchronous. */
  ghost predicate CapturedOk(taps: seq<Tap>)
  {
    forall i :: 0 <= i < |taps| ==> taps[i].name == DEV_SERVER && taps[i].kind == Sync
  }

  /** `Array.prototype.some` with `isErrorSeverity` over a message list. */
  function AnyError(ms: seq<Message>): (r: bool)
    ensures r <==> exists i :: 0 <= i < |ms| && ms[i].IsErrorSeverity()
  {
    if ms == [] then false
    else ms[0].IsErrorSeverity() || AnyError(ms[1..])
  }

  /** The calls `forEach` makes: each tap, in order, with the same stats. */
  function Replay(taps: seq<Tap>, stats: Stats): (r: seq<(Tap, Stats)>)
    ensures |r| == |taps|
    ensures forall i :: 0 <= i < |taps| ==> r[i] == (taps[i], stats)
  {
    if taps == [] then []
    else [(taps[0], stats)] + Replay(taps[1..], stats)
  }

  /** The `register` interceptor on the build's `done` hook: it throws exactly
      for a non-synchronous dev-server tap, captures a synchronous one at the
      end of the list, and leaves the state alone for any other name; captured
      taps stay dev-server and sync. */
  function AfterRegisterDone(s: State, tap: Tap): (r: Result<State>)
    ensures r.Err? <==> tap.name == DEV_SERVER && tap.kind != Sync
    ensures r.Err? ==> r.message == DEV_SERVER_NOT_SYNC
    ensures tap.name != DEV_SERVER ==> r == Ok(s)
    ensures r.Ok? && tap.name == DEV_SERVER ==> r.value.doneTaps == s.doneTaps + [tap]
    ensures r.Ok? ==> r.value.(doneTaps := s.doneTaps) == s
    ensures r.Ok? && CapturedOk(s.doneTaps) ==> CapturedOk(r.value.doneTaps)
  {
    if tap.name != DEV_SERVER then Ok(s)
    else if tap.kind != Sync then Err(DEV_SERVER_NOT_SYNC)
    else Ok(s.(doneTaps := s.doneTaps + [tap]))
  }

  /** `maybeCallDevServerDone`: the two-flag gate. It calls some tap iff both
      flags are set and a tap was captured, and changes nothing but the call
      log. */
  function AfterNotify(s: State): (r: State)
    ensures r == s.(replays := r.replays)
    ensures |r.replays| > |s.replays| <==> s.checkerDone && s.lastStats.Some? && s.doneTaps != []
    ensures !(s.checkerDone && s.lastStats.Some?) ==> r == s
    ensures s.checkerDone && s.lastStats.Some? ==>
      |r.replays| == |s.replays| + |s.doneTaps| && r.replays[..|s.replays|] == s.replays &&
      forall i :: 0 <= i < |s.doneTaps| ==> r.replays[|s.replays| + i] == (s.doneTaps[i], s.lastStats.value)
  {
    if s.checkerDone && s.lastStats.Some? then
      s.(replays := s.replays + Replay(s.doneTaps, s.lastStats.value))
    else s
  }

  /** The `compile` handler: both flags are cleared, whatever they were. */
  function AfterCompile(s: State): (r: State)
    ensures !r.checkerDone && r.lastStats == None
    ensures r.replays == s.replays && r.doneTaps == s.doneTaps && r.callback == s.callback
    ensures r.flushed == s.flushed
  {
    s.(checkerDone := false, lastStats := None)
  }

  /** The build's `emit` handler: it only ever rebinds the emit callback,
      and only in async mode. */
  function AfterEmit(s: State, asyncMode: bool, c: Compilation): (r: State)
    ensures !asyncMode ==> r == s
    ensures asyncMode ==> r.callback == Bound(c) && r.(callback := s.callback) == s
  {
    if !asyncMode then s else s.(callback := Bound(c))
  }

  /** The build's `done` handler: inert outside async mode; in async mode the
      new stats are stored, the flag is left as it was, and the gate runs,
      replaying every captured tap with the new stats if the checker has
      already reported an error. */
  function AfterBuildDone(s: State, asyncMode: bool, stats: Stats): (r: State)
    ensures !asyncMode ==> r == s
    ensures asyncMode ==> r.lastStats == Some(stats) && r.checkerDone == s.checkerDone
    ensures r.doneTaps == s.doneTaps && r.callback == s.callback && r.flushed == s.flushed
    ensures asyncMode ==> r.replays == s.replays + (if s.checkerDone then Replay(s.doneTaps, stats) else [])
  {
    if !asyncMode then s else AfterNotify(s.(lastStats := Some(stats)))
  }

  /** Invoking the checker's pending emit callback. */
  function AfterCallback(s: State): State
  {
    match s.callback
    case Default => s
    case Bound(c) => AfterNotify(s.(flushed := s.flushed + [c]))
  }

  /** The checker's `done` handler: inert outside async mode and for a
      report without error-severity entries; otherwise the flag is set, the
      stored stats are kept and the pending emit callback runs: a bound one
      records its compilation and then runs the gate, which replays every
      captured tap when stats are stored. */
  function AfterCheckerDone(s: State, asyncMode: bool, diagnostics: seq<Message>, lints: seq<Message>): (r: State)
    ensures !asyncMode || !AnyError(diagnostics + lints) ==> r == s
    ensures asyncMode && AnyError(diagnostics + lints) ==> r.checkerDone && r.lastStats == s.lastStats
    ensures r.doneTaps == s.doneTaps && r.callback == s.callback
    ensures asyncMode && AnyError(diagnostics + lints) ==>
      r.flushed == s.flushed + (if s.callback.Bound? then [s.callback.compilation] else [])
    ensures asyncMode && AnyError(diagnostics + lints) ==>
      r.replays == s.replays + (if s.callback.Bound? && s.lastStats.Some? then Replay(s.doneTaps, s.lastStats.value) else [])
  {
    if !asyncMode || !AnyError(diagnostics + lints) then s
    else AfterCallback(s.(checkerDone := true))
  }

  /** The lifecycle events the coordinator handles. */
  datatype Event =
    | Compile
    | Emit(compilation: Compilation)
    | BuildDone(stats: Stats)
    | CheckerDone(diagnostics: seq<Message>, lints: seq<Message>)
  {
    /** A checker report with at least one error-severity entry. */
    predicate ReportsError()
    {
      CheckerDone? && AnyError(diagnostics + lints)
    }
  }

  /** One event either replays nothing, or replays every captured tap once,
      in registration order, with the stats it leaves stored, and then only
      with both flags set. No event changes the captured taps. */
  function Step(s: State, asyncMode: bool, e: Event): (r: State)
    ensures r.doneTaps == s.doneTaps
    ensures r.replays == s.replays
         || (r.checkerDone && r.lastStats.Some? && r.replays == s.replays + Replay(s.doneTaps, r.lastStats.value))
  {
    match e
    case Compile => AfterCompile(s)
    case Emit(c) => AfterEmit(s, asyncMode, c)
    case BuildDone(stats) => AfterBuildDone(s, asyncMode, stats)
    case CheckerDone(d, l) => AfterCheckerDone(s, asyncMode, d, l)
  }

  /** The state after a sequence of events, delivered one at a time. */
  function Run(s: State, asyncMode: bool, events: seq<Event>): State
    decreases |events|
  {
    if events == [] then s
    else Run(Step(s, asyncMode, events[0]), asyncMode, events[1..])
  }
}
