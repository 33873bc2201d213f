/** The coordinator object `ForkTsCheckerAsyncOverlayWebpackPlugin` and the
    part of the checker plugin it reads and writes (src/index.ts, lines 6-11
    and 50-147). Each hook handler is a method whose new state is tied to the
    matching step function of module Coordinator. */
module AsyncOverlay {
  import opened Common
  import opened Taps
  import opened Coordinator

  /** The checker plugin, as far as the coordinator sees it: two flags it
      reads and the emit-callback slot it overwrites. `flushed` logs each
      compilation onto which a bound emit callback recorded the checker's
      errors before calling its completion notifier. */
  class Checker {
    var async: bool
    var isWatching: bool
    var emitCallback: EmitCallback
    ghost var flushed: seq<Compilation>

    constructor (async: bool, isWatching: bool)
      ensures this.async == async && this.isWatching == isWatching
      ensures emitCallback == Default && flushed == []
    {
      this.async := async;
      this.isWatching := isWatching;
      emitCallback := Default;
      flushed := [];
    }
  }

  /** An entry of the plugin list handed to the build configuration. */
  datatype PluginRef = CheckerPlugin(checker: Checker) | OverlayPlugin(overlay: Overlay)

  class Overlay {
    const checker: Checker
    var interceptedDoneTaps: seq<Tap>
    var isCheckerDone: bool
    var lastStats: Option<Stats>
    /** Each call of a captured dev-server tap, with the stats passed to it. */
    ghost var replays: seq<(Tap, Stats)>
    /** Whether construction printed the "does nothing" warning. */
    ghost var warned: bool

    /** The object invariant: only synchronous dev-server taps are captured. */
    ghost predicate Valid()
      reads this
    {
      CapturedOk(interceptedDoneTaps)
    }

    /** The coordinator's state as a value of the pure model. */
    ghost function Model(): State
      reads this, checker
    {
      Coordinator.State(isCheckerDone, lastStats, interceptedDoneTaps, checker.emitCallback, replays, checker.flushed)
    }

    /** The constructor once the handle is known to be present; the warning
        is issued when the checker's `async` flag is TRUE, as written. */
    constructor (checker: Checker)
      ensures this.checker == checker && Valid()
      ensures Model() == Initial(checker.emitCallback).(flushed := checker.flushed)
      ensures warned == checker.async
    {
      this.checker := checker;
      interceptedDoneTaps := [];
      isCheckerDone := false;
      lastStats := None;
      replays := [];
      new;
      warned := checker.async;
    }

    /** `new ForkTsCheckerAsyncOverlayWebpackPlugin({ checkerPlugin })`: throws
        when no checker is passed, otherwise builds the coordinator. */
    static method Create(checker: Checker?) returns (r: Result<Overlay>)
      ensures r.Err? <==> checker == null
      ensures r.Err? ==> r.message == MISSING_CHECKER
      ensures r.Ok? ==> fresh(r.value) && r.value.checker == checker && r.value.Valid()
      ensures r.Ok? ==> r.value.interceptedDoneTaps == [] && !r.value.isCheckerDone && r.value.lastStats == None
      ensures r.Ok? ==> r.value.replays == [] && r.value.warned == checker.async
    {
      if checker == null {
        return Err(MISSING_CHECKER);
      }
      var o := new Overlay(checker);
      r := Ok(o);
    }

    /** `plugins()`: the checker first, then this coordinator, nothing else. */
    function Plugins(): (r: seq<PluginRef>)
      ensures |r| == 2
      ensures r[0].CheckerPlugin? && r[0].checker == checker
      ensures r[1].OverlayPlugin? && r[1].overlay == this
    {
      [CheckerPlugin(checker), OverlayPlugin(this)]
    }

    /** `isAsync()`: async mode needs both a watch session and the checker's
        `async` option. */
    predicate IsAsync(): (r: bool)
      reads checker
      ensures !checker.async ==> !r
      ensures !checker.isWatching ==> !r
      ensures checker.async && checker.isWatching ==> r
    {
      checker.isWatching && checker.async
    }

    /** The `register` interceptor on the build's `done` hook: a non-sync
        dev-server tap throws; a sync one is captured; every tap is returned
        unchanged. */
    method RegisterDoneTap(tap: Tap) returns (r: Result<Tap>)
      requires Valid()
      modifies this`interceptedDoneTaps
      ensures Valid()
      ensures r.Err? <==> tap.name == DEV_SERVER && tap.kind != Sync
      ensures r.Err? ==> r.message == DEV_SERVER_NOT_SYNC
      ensures r.Ok? ==> r.value == tap
      ensures interceptedDoneTaps ==
        if tap.name == DEV_SERVER && tap.kind == Sync then old(interceptedDoneTaps) + [tap] else old(interceptedDoneTaps)
      ensures AfterRegisterDone(old(Model()), tap) == if r.Ok? then Ok(Model()) else Err(DEV_SERVER_NOT_SYNC)
    {
      if tap.name == DEV_SERVER {
        if tap.kind != Sync {
          return Err(DEV_SERVER_NOT_SYNC);
        }
        interceptedDoneTaps := interceptedDoneTaps + [tap];
      }
      r := Ok(tap);
    }

    /** The `register` interceptor on the checker's `emit` hook: guard the
        tap's function with the condition `!isAsync()`. */
    method RegisterCheckerEmitTap(tap: Tap) returns (r: Tap)
      modifies tap
      ensures r == tap && tap.fn == Guarded(old(tap.fn), tap.kind)
    {
      r := ConditionalTap(tap);
    }

    /** What a call of a guarded checker `emit` tap does now: outside async
        mode it runs the original listener with the same arguments; in async
        mode it returns the no-op for its kind, or throws for an unknown kind. */
    function CallCheckerEmitTap<A>(tap: Tap, args: seq<A>): (r: Outcome<A>)
      requires tap.fn.Guarded?
      reads this, checker, tap
      ensures !IsAsync() ==> r == Returned(Ran(Root(tap.fn), args))
      ensures IsAsync() ==> r == NoopFor(tap.fn.kind)
      ensures IsAsync() ==> (r.Threw? <==> tap.fn.kind.Other?) && (r.Returned? ==> !r.value.Ran?)
    {
      Call(tap.fn, args, !IsAsync())
    }

    /** The `compile` handler: forget the previous cycle. */
    method OnCompile()
      requires Valid()
      modifies this`isCheckerDone, this`lastStats
      ensures Valid()
      ensures !isCheckerDone && lastStats == None
      ensures Model() == AfterCompile(old(Model()))
    {
      isCheckerDone := false;
      lastStats := None;
    }

    /** The build's `emit` handler: in async mode, replace the checker's
        pending emit callback by one bound to this compilation whose
        completion notifier is `MaybeCallDevServerDone`. */
    method OnEmit(compilation: Compilation)
      requires Valid()
      modifies checker`emitCallback
      ensures Valid()
      ensures checker.emitCallback == if IsAsync() then Bound(compilation) else old(checker.emitCallback)
      ensures Model() == AfterEmit(old(Model()), IsAsync(), compilation)
    {
      if !IsAsync() {
        return;
      }
      checker.emitCallback := Bound(compilation);
    }

    /** `maybeCallDevServerDone`: when both flags are set, call every captured
        tap, in registration order, with the stored stats. */
    method MaybeCallDevServerDone()
      requires Valid()
      modifies this`replays
      ensures Valid()
      ensures replays == if isCheckerDone && lastStats.Some? then old(replays) + Replay(interceptedDoneTaps, lastStats.value)
                         else old(replays)
      ensures Model() == AfterNotify(old(Model()))
    {
      if isCheckerDone && lastStats.Some? {
        var stats := lastStats.value;
        var i := 0;
        while i < |interceptedDoneTaps|
          invariant 0 <= i <= |interceptedDoneTaps|
          invariant replays == old(replays) + Replay(interceptedDoneTaps[..i], stats)
        {
          ghost var called := Replay(interceptedDoneTaps[..i + 1], stats);
          assert called == Replay(interceptedDoneTaps[..i], stats) + [(interceptedDoneTaps[i], stats)];
          replays := replays + [(interceptedDoneTaps[i], stats)];
          i := i + 1;
        }
        assert interceptedDoneTaps[..i] == interceptedDoneTaps;
      }
    }

    /** The build's `done` handler: in async mode, store the stats and try to
        notify the dev server. */
    method OnDone(stats: Stats)
      requires Valid()
      modifies this`lastStats, this`replays
      ensures Valid()
      ensures lastStats == if old(IsAsync()) then Some(stats) else old(lastStats)
      ensures replays == if IsAsync() && isCheckerDone then old(replays) + Replay(interceptedDoneTaps, stats)
                         else old(replays)
      ensures Model() == AfterBuildDone(old(Model()), IsAsync(), stats)
    {
      if !IsAsync() {
        return;
      }
      lastStats := Some(stats);
      MaybeCallDevServerDone();
    }

    /** The checker's `done` handler: in async mode, when some diagnostic or
        lint has error severity, set the checker-done flag and invoke the
        pending emit callback; a bound callback records the errors on its
        compilation and then calls `MaybeCallDevServerDone`. */
    method OnCheckerDone(diagnostics: seq<Message>, lints: seq<Message>)
      requires Valid()
      modifies this`isCheckerDone, this`replays, checker`flushed
      ensures Valid()
      ensures isCheckerDone == (old(isCheckerDone) || (IsAsync() && AnyError(diagnostics + lints)))
      ensures !IsAsync() || !AnyError(diagnostics + lints) ==> Model() == old(Model())
      ensures checker.flushed ==
        if IsAsync() && AnyError(diagnostics + lints) && checker.emitCallback.Bound?
        then old(checker.flushed) + [checker.emitCallback.compilation] else old(checker.flushed)
      ensures replays ==
        if IsAsync() && AnyError(diagnostics + lints) && checker.emitCallback.Bound? && lastStats.Some?
        then old(replays) + Replay(interceptedDoneTaps, lastStats.value) else old(replays)
      ensures Model() == AfterCheckerDone(old(Model()), IsAsync(), diagnostics, lints)
    {
      if !IsAsync() {
        return;
      }
      if AnyError(diagnostics + lints) {
        isCheckerDone := true;
        match checker.emitCallback
        case Default =>
        case Bound(c) =>
          checker.flushed := checker.flushed + [c];
          MaybeCallDevServerDone();
      }
    }
  }
}
