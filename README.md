# Async overlay coordinator for the fork-ts-checker webpack plugin, in Dafny

This project models `ForkTsCheckerAsyncOverlayWebpackPlugin` (`src/index.ts`).
The plugin sits between webpack, the fork-ts-checker type checker running in
async mode, and webpack-dev-server. Its job is to hold back the dev server's
"build done" notification until the checker has reported its errors.

The plugin:

- captures the dev server's synchronous `done` tap when it is registered;
- resets two flags on every `compile`;
- in async mode, on `emit`, rebinds the checker's pending emit callback to the
  current compilation, with `maybeCallDevServerDone` as its completion notifier;
- in async mode, stores the stats on the build's `done`;
- when the checker's `done` reports an error-severity diagnostic or lint, sets
  the checker-done flag and runs the pending emit callback;
- replays every captured dev-server tap with the stored stats, but only once
  both flags are set.

It also wraps each tap of the checker's own `emit` hook (`conditionalTap`).
In async mode the wrapped tap produces a no-op for its kind, or throws for an
unknown kind.

Modules:

- `Common` (common.dfy): `Option` and `Result`. `Err` carries a thrown error's
  message.
- `Taps` (taps.dfy): the `Tap` class and the listener it holds. Its name and
  kind are constants; its function is a field. It also holds
  `ConditionalTap`, which replaces that field in place, and `Call`, which
  gives the outcome of calling a tap's function.
- `Coordinator` (coordinator.dfy): the coordinator's state as a value, and
  one pure step function per hook handler. `Run` delivers a sequence of
  lifecycle events.
- `Lifecycle` (lifecycle.dfy): properties of whole event sequences. These
  cover reset on compile, "no replay until both events", "replayed stats are
  the latest", "inert outside async mode", and two worked scenarios.
- `AsyncOverlay` (plugin.dfy): the checker handle (`Checker`) and the
  coordinator class (`Overlay`). Its fields and hook handlers mirror the
  source. Each handler's postcondition ties the new state to the matching step
  function.

The following are logged in ghost fields:

- calls of the dev server's tap (`replays`);
- runs of a bound emit callback (`flushed`);
- the constructor's warning (`warned`).

Behaviour kept as the code has it, although it looks unintended:

- The "does nothing" warning is issued when the checker's `async` option is
  TRUE. The warning's own message says the option is *disabled*, and async
  is exactly the mode in which the plugin acts.
- When its guard fails, the wrapper returns a no-op function and does not call
  it. For a callback-style tap, the returned function is what would call the
  completion callback. Since nothing calls that function, the wrapper never
  completes the hook's callback.

## Model

| member | source | states |
|---|---|---|
| `Taps.KindOf` | src/index.ts:33-44 | "sync" gives `Sync`, "async" gives `Async` and "promise" gives `Promise`. Every other tag is an unknown kind carrying that tag. |
| `Taps.Tap.constructor` | src/index.ts:86-88 | A tap keeps its name and function, and its kind is the one its `type` tag names. A tap tagged "sync" is therefore of kind `Sync`. |
| `Taps.NoopFor` | src/index.ts:33-45 | The value a failed guard produces. `sync` gives a do-nothing function, `async` a callback-calling function, and `promise` a resolved-promise function. An unrecognised kind throws "Unknown tap type: " plus the tag. It never runs the listener. |
| `Taps.Call` | src/index.ts:31-46 | If the guard holds, a call reaches the original listener with the same arguments, through any number of wrappers. If it fails, a wrapped listener never runs and the result is its kind's no-op. |
| `Taps.ConditionalTap` | src/index.ts:29-48 | Replaces the tap's function in place by a guard around the previous function. It returns the same tap. |
| `Coordinator.AnyError` | src/index.ts:134 | True iff some message has error severity. |
| `Coordinator.Replay` | src/index.ts:145 | One call per captured tap, in registration order, each with the same stats. |
| `Coordinator.AfterRegisterDone` | src/index.ts:85-97 | Throws iff a dev-server tap is not sync. A sync dev-server tap is appended. Other names leave the state alone. Captured taps stay dev-server and sync. |
| `Coordinator.AfterNotify` | src/index.ts:143-147 | With the gate closed, nothing changes. With both flags set, the log gets one entry per captured tap, in registration order, each with the stored stats, and the old log is kept. Only the call log changes. |
| `Coordinator.AfterCompile` | src/index.ts:100-103 | The checker-done flag is false and no stats are stored, whatever the prior state. Taps, callback, call log and flushed compilations are kept. |
| `Coordinator.AfterEmit` | src/index.ts:107-113 | Outside async mode nothing changes. In async mode only the callback is rebound, to this compilation. |
| `Coordinator.AfterBuildDone` | src/index.ts:121-125 | Outside async mode nothing changes. In async mode the new stats are stored and the flag is kept. The gate then replays every captured tap with the new stats iff the checker flag is already set. Captured taps, callback slot and flushed compilations are always kept. |
| `Coordinator.AfterCheckerDone` | src/index.ts:129-140 | Nothing changes outside async mode, or when no diagnostic or lint is an error. Otherwise the flag is set, the stats are kept and the pending callback runs. A bound callback records its compilation. Every captured tap is then replayed with the stored stats iff the callback is bound and stats are stored. Captured taps and the callback slot are always kept. |
| `Coordinator.Step` | src/index.ts:99-147 | No event changes the captured taps. An event replays nothing, or replays every captured tap once, in order, with the stored stats, and then only with both flags set. |
| `Lifecycle.RunKeepsLog` | src/index.ts:143-147 | Over any event sequence the call log only grows and the captured taps never change. |
| `Lifecycle.InertRun` | src/index.ts:75-77 | Outside async mode, a sequence of events leaves the state unchanged, or only reset if it contains a `compile`. No tap is replayed and the callback is never replaced. |
| `Lifecycle.NoBuildNoReplay` | src/index.ts:121-125 | With no stats stored and no build `done`, no stats get stored and no tap is replayed. |
| `Lifecycle.NoErrorNoReplay` | src/index.ts:133-138 | With the flag clear and no error report, the flag stays clear and no tap is replayed. |
| `Lifecycle.NoReplayUntilBoth` | src/index.ts:100-147 | After `compile`, no tap is replayed until both a build `done` and an error-reporting checker `done` have arrived. |
| `Lifecycle.StoredStatsAreLatest` | src/index.ts:100-125 | In async mode the stored stats are those of the most recent build `done` since the last `compile`. |
| `Lifecycle.ReplayedStatsAreLatest` | src/index.ts:121-147 | In async mode every replay passes the stats of the most recent build `done` since the last `compile`. |
| `Lifecycle.ScenarioErrorAfterBuild` | src/index.ts:100-147 | Build done with S1, then one error reported: each captured tap is called exactly once, with S1. |
| `Lifecycle.ScenarioErrorBeforeBuild` | src/index.ts:121-138 | The error is reported before the build's `done`. Nothing is replayed on the report. When the build's `done` with S1 arrives, each captured tap is called exactly once, with S1. |
| `Lifecycle.ScenarioStaleStatsDropped` | src/index.ts:100-147 | S1 with a clean check, then a new cycle with S2 and an error: each captured tap is called exactly once, with S2. |
| `AsyncOverlay.Overlay.constructor` | src/index.ts:52-73 | Empty tap list, both flags clear, empty call log. The warning is issued iff the checker's `async` is true. |
| `AsyncOverlay.Overlay.Create` | src/index.ts:56-58 | Throws "Please pass checkerPlugin to ForkTsCheckerAsyncOverlayWebpackPlugin." iff no checker is given. Otherwise returns a fresh coordinator holding that checker. |
| `AsyncOverlay.Overlay.Plugins` | src/index.ts:62-64 | Exactly two entries: the checker first, then this coordinator. |
| `AsyncOverlay.Overlay.IsAsync` | src/index.ts:75-77 | False when either `async` or `isWatching` is false. True when both are true. |
| `AsyncOverlay.Overlay.RegisterDoneTap` | src/index.ts:85-97 | Throws iff a dev-server tap is not sync. Appends a sync dev-server tap. Returns every other tap unchanged. The new state is `AfterRegisterDone`'s. |
| `AsyncOverlay.Overlay.RegisterCheckerEmitTap` | src/index.ts:115-118 | The tap comes back with its function guarded. |
| `AsyncOverlay.Overlay.CallCheckerEmitTap` | src/index.ts:29-47 | Outside async mode a guarded checker `emit` tap runs its original listener with the same arguments. In async mode it yields its kind's no-op, or throws for an unknown kind. |
| `AsyncOverlay.Overlay.OnCompile` | src/index.ts:100-103 | Clears both flags. The new state is `AfterCompile`'s. |
| `AsyncOverlay.Overlay.OnEmit` | src/index.ts:107-113 | In async mode the callback slot holds a callback bound to this compilation. Otherwise the slot is untouched. The new state is `AfterEmit`'s. |
| `AsyncOverlay.Overlay.MaybeCallDevServerDone` | src/index.ts:143-147 | The loop calls every captured tap, in order, with the stored stats, iff both flags are set. The new state is `AfterNotify`'s. |
| `AsyncOverlay.Overlay.OnDone` | src/index.ts:121-125 | In async mode it stores the stats. It then replays every captured tap with them iff the checker flag is set. Otherwise nothing changes. The new state is `AfterBuildDone`'s. |
| `AsyncOverlay.Overlay.OnCheckerDone` | src/index.ts:129-140 | Sets the flag iff in async mode with some error entry, then invokes the pending callback. A bound callback records its compilation and replays every captured tap iff stats are stored. Otherwise nothing changes. The new state is `AfterCheckerDone`'s. |

## Left out

- The hook library itself is not modelled. That covers `intercept`, `tap`, `getCompilerHooks` (src/index.ts:82) and the wiring inside `apply`. Each handler is a method that the environment calls.
- webpack's own direct call of the original dev-server tap at `done` time is not modelled. It is the hook library's doing; only the coordinator's replays are logged.
- The `console.warn` output is not modelled. Only the ghost flag `warned` records that the warning was issued.
- The body of `createEmitCallback` is the checker's code and is not modelled. A bound callback is modelled as logging its compilation in `flushed` and then calling `MaybeCallDevServerDone`. What it records on the compilation, and its firing of the checker's `emit` hook, are not modelled.
- Invoking the checker's own `Default` callback has no effect in the model, because that code belongs to the checker.
- The returned no-op functions are tagged values. What they do when someone calls them later is not modelled, and neither are real promises or asynchrony.
- Taps.Call: the guard's condition is a boolean supplied at call time, with every wrapper in a chain reading the same condition. In this plugin the condition is always `!isAsync()`; wrappers from different conditions are not modelled.
- AsyncOverlay.Overlay.OnCheckerDone: a bound callback notifies the coordinator that holds the checker. Two coordinators sharing one checker are not modelled.
- Coordinator.Run: the async mode is fixed for a whole event sequence. The class methods instead read `isAsync()` at every call.
- The checker's `elapsed` argument to its `done` hook is not modelled, since the handler never reads it.
- sandbox/webpack.config.js is not part of this model: it is build configuration only.
- src/types.d.ts is not part of this model: it is a type declaration.
