/** Properties of the coordinator over whole sequences of lifecycle events. */
module Lifecycle {
  import opened Common
  import opened Taps
  import opened Coordinator

  /** Delivering one more event continues from where the sequence left off. */
  lemma {:induction false} RunAppend(s: State, asyncMode: bool, events: seq<Event>, e: Event)
    ensures Run(s, asyncMode, events + [e]) == Step(Run(s, asyncMode, events), asyncMode, e)
    decreases |events|
  {
    if events != [] {
      assert (events + [e])[1..] == events[1..] + [e];
      RunAppend(Step(s, asyncMode, events[0]), asyncMode, events[1..], e);
    }
  }

  /** The call log only grows and the captured taps never change. */
  lemma {:induction false} RunKeepsLog(s: State, asyncMode: bool, events: seq<Event>)
    ensures Run(s, asyncMode, events).doneTaps == s.doneTaps
    ensures s.replays <= Run(s, asyncMode, events).replays
    decreases |events|
  {
    if events != [] {
      RunKeepsLog(Step(s, asyncMode, events[0]), asyncMode, events[1..]);
    }
  }

  ghost predicate HasCompile(events: seq<Event>)
  {
    exists i :: 0 <= i < |events| && events[i].Compile?
  }

  /** When the checker is not in async mode, the coordinator is inert: no
      event but `compile` changes anything, no tap is replayed and the emit
      callback is never replaced. */
  lemma {:induction false} InertRun(s: State, events: seq<Event>)
    ensures Run(s, false, events) == if HasCompile(events) then AfterCompile(s) else s
    decreases |events|
  {
    if events != [] {
      var t := Step(s, false, events[0]);
      InertRun(t, events[1..]);
      if events[0].Compile? {
        assert HasCompile(events);
        assert AfterCompile(t) == t;
      } else {
        assert t == s;
        if HasCompile(events) {
          var i :| 0 <= i < |events| && events[i].Compile?;
          assert events[1..][i - 1].Compile?;
        }
        if HasCompile(events[1..]) {
          var i :| 0 <= i < |events[1..]| && events[1..][i].Compile?;
          assert events[i + 1].Compile?;
        }
      }
    }
  }

  /** Without a build `done`, no stats are stored and no tap is replayed. */
  lemma {:induction false} NoBuildNoReplay(s: State, asyncMode: bool, events: seq<Event>)
    requires s.lastStats.None?
    requires forall i :: 0 <= i < |events| ==> !events[i].BuildDone?
    ensures Run(s, asyncMode, events).lastStats.None?
    ensures Run(s, asyncMode, events).replays == s.replays
    decreases |events|
  {
    if events != [] {
      var t := Step(s, asyncMode, events[0]);
      assert t.lastStats.None? && t.replays == s.replays;
      forall i | 0 <= i < |events[1..]| ensures !events[1..][i].BuildDone? {
        assert events[1..][i] == events[i + 1];
      }
      NoBuildNoReplay(t, asyncMode, events[1..]);
    }
  }

  /** Without a checker report of an error, the checker-done flag stays unset
      and no tap is replayed. */
  lemma {:induction false} NoErrorNoReplay(s: State, asyncMode: bool, events: seq<Event>)
    requires !s.checkerDone
    requires forall i :: 0 <= i < |events| ==> !events[i].ReportsError()
    ensures !Run(s, asyncMode, events).checkerDone
    ensures Run(s, asyncMode, events).replays == s.replays
    decreases |events|
  {
    if events != [] {
      var t := Step(s, asyncMode, events[0]);
      assert !t.checkerDone && t.replays == s.replays;
      forall i | 0 <= i < |events[1..]| ensures !events[1..][i].ReportsError() {
        assert events[1..][i] == events[i + 1];
      }
      NoErrorNoReplay(t, asyncMode, events[1..]);
    }
  }

  /** After `compile`, no dev-server tap is replayed until both a build `done`
      and a checker `done` reporting an error have been delivered, whatever
      the state before the compile. */
  lemma NoReplayUntilBoth(s: State, asyncMode: bool, events: seq<Event>)
    requires (forall i :: 0 <= i < |events| ==> !events[i].BuildDone?)
          || (forall i :: 0 <= i < |events| ==> !events[i].ReportsError())
    ensures Run(s, asyncMode, [Compile] + events).replays == s.replays
  {
    assert ([Compile] + events)[1..] == events;
    var t := AfterCompile(s);
    if forall i :: 0 <= i < |events| ==> !events[i].BuildDone? {
      NoBuildNoReplay(t, asyncMode, events);
    } else {
      NoErrorNoReplay(t, asyncMode, events);
    }
  }

  /** The stats that should be stored after `events`, read from the end: those
      of the most recent build `done`, none if a `compile` came later, and
      `prior` if neither occurred. */
  function Latest(prior: Option<Stats>, events: seq<Event>): Option<Stats>
    decreases |events|
  {
    if events == [] then prior
    else
      match events[|events| - 1]
      case BuildDone(stats) => Some(stats)
      case Compile => None
      case _ => Latest(prior, events[..|events| - 1])
  }

  /** In async mode the stored stats are always those of the most recent
      build `done` since the last `compile`. */
  lemma {:induction false} StoredStatsAreLatest(s: State, events: seq<Event>)
    ensures Run(s, true, events).lastStats == Latest(s.lastStats, events)
    decreases |events|
  {
    if events != [] {
      var front := events[..|events| - 1];
      var e := events[|events| - 1];
      assert events == front + [e];
      RunAppend(s, true, front, e);
      StoredStatsAreLatest(s, front);
    }
  }

  /** In async mode, every replay caused by the last event of a sequence
      passes the stats of the most recent build `done` since the last
      `compile`. */
  lemma ReplayedStatsAreLatest(s: State, events: seq<Event>, e: Event)
    ensures Run(s, true, events).replays <= Run(s, true, events + [e]).replays
    ensures |Run(s, true, events + [e]).replays| > |Run(s, true, events).replays| ==>
      Latest(s.lastStats, events + [e]).Some? &&
      forall k :: |Run(s, true, events).replays| <= k < |Run(s, true, events + [e]).replays| ==>
        Run(s, true, events + [e]).replays[k].1 == Latest(s.lastStats, events + [e]).value
  {
    RunAppend(s, true, events, e);
    StoredStatsAreLatest(s, events + [e]);
  }

  /** A build finishes with stats `s1`, then the checker reports one error:
      every captured dev-server tap is called exactly once, with `s1`. */
  lemma ScenarioErrorAfterBuild(s: State, c: Compilation, s1: Stats, err: Message)
    requires err.IsErrorSeverity()
    ensures Run(s, true, [Compile, Emit(c), BuildDone(s1), CheckerDone([err], [])]).replays
         == s.replays + Replay(s.doneTaps, s1)
  {
    RunFour(s, true, Compile, Emit(c), BuildDone(s1), CheckerDone([err], []));
    assert AnyError([err] + []);
  }

  /** The checker reports one error before the build finishes with stats
      `s1`: nothing is replayed on the report, and every captured dev-server
      tap is called exactly once, with `s1`, when the build's `done` arrives. */
  lemma ScenarioErrorBeforeBuild(s: State, c: Compilation, s1: Stats, err: Message)
    requires err.IsErrorSeverity()
    ensures Run(s, true, [Compile, Emit(c), CheckerDone([err], [])]).replays == s.replays
    ensures Run(s, true, [Compile, Emit(c), CheckerDone([err], []), BuildDone(s1)]).replays
         == s.replays + Replay(s.doneTaps, s1)
  {
    RunFour(s, true, Compile, Emit(c), CheckerDone([err], []), BuildDone(s1));
    assert AnyError([err] + []);
    var evs := [Compile, Emit(c), CheckerDone([err], [])];
    assert evs + [BuildDone(s1)] == [Compile, Emit(c), CheckerDone([err], []), BuildDone(s1)];
    RunAppend(s, true, evs, BuildDone(s1));
    RunKeepsLog(Run(s, true, evs), true, [BuildDone(s1)]);
  }

  /** A build with stats `s1` whose check reports no error, then a new build
      with stats `s2` whose check reports one error: every captured tap is
      called exactly once, with `s2`, never with the stale `s1`. */
  lemma ScenarioStaleStatsDropped(s: State, c1: Compilation, c2: Compilation, s1: Stats, s2: Stats,
                                  warn: Message, err: Message)
    requires !warn.IsErrorSeverity() && err.IsErrorSeverity()
    ensures Run(s, true, [Compile, Emit(c1), BuildDone(s1), CheckerDone([warn], []),
                          Compile, Emit(c2), BuildDone(s2), CheckerDone([], [err])]).replays
         == s.replays + Replay(s.doneTaps, s2)
  {
    var first := [Compile, Emit(c1), BuildDone(s1), CheckerDone([warn], [])];
    var second := [Compile, Emit(c2), BuildDone(s2), CheckerDone([], [err])];
    assert first + second == [Compile, Emit(c1), BuildDone(s1), CheckerDone([warn], []),
                              Compile, Emit(c2), BuildDone(s2), CheckerDone([], [err])];
    RunConcat(s, true, first, second);
    RunFour(s, true, Compile, Emit(c1), BuildDone(s1), CheckerDone([warn], []));
    assert !AnyError([warn] + []);
    var mid := Run(s, true, first);
    assert mid.replays == s.replays && mid.doneTaps == s.doneTaps;
    RunFour(mid, true, Compile, Emit(c2), BuildDone(s2), CheckerDone([], [err]));
    assert AnyError([] + [err]);
  }

  /** Four events delivered one at a time. */
  lemma RunFour(s: State, asyncMode: bool, a: Event, b: Event, c: Event, d: Event)
    ensures Run(s, asyncMode, [a, b, c, d])
         == Step(Step(Step(Step(s, asyncMode, a), asyncMode, b), asyncMode, c), asyncMode, d)
  {
    var evs := [a, b, c, d];
    assert evs[1..] == [b, c, d] && evs[1..][1..] == [c, d] && evs[1..][1..][1..] == [d];
    var s1 := Step(s, asyncMode, a);
    var s2 := Step(s1, asyncMode, b);
    var s3 := Step(s2, asyncMode, c);
    assert Run(s3, asyncMode, [d]) == Step(s3, asyncMode, d);
    assert Run(s2, asyncMode, [c, d]) == Run(s3, asyncMode, [d]);
    assert Run(s1, asyncMode, [b, c, d]) == Run(s2, asyncMode, [c, d]);
  }

  /** Delivering two sequences one after the other. */
  lemma {:induction false} RunConcat(s: State, asyncMode: bool, first: seq<Event>, second: seq<Event>)
    ensures Run(s, asyncMode, first + second) == Run(Run(s, asyncMode, first), asyncMode, second)
    decreases |first|
  {
    if first != [] {
      assert (first + second)[1..] == first[1..] + second;
      RunConcat(Step(s, asyncMode, first[0]), asyncMode, first[1..], second);
    } else {
      assert first + second == second;
    }
  }
}
