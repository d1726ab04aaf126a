/**
 * StartRobotmonService and StopService: the decisions they take over the
 * outcomes of the process-id probes (GetPids for "app_process") and of the
 * shell commands they run. Each probe outcome is a parameter; the waiting,
 * the goroutine that runs the start command and the timer are not part of
 * the model, only the number of launch attempts is.
 */
module Service {
  import opened Wrappers
  import opened AdbTypes
  import opened Launch

  // =====================================================================
  // StartRobotmonService

  /** A probe after a launch that ends the attempts: an error, or more than
      one process. */
  predicate Settles(probe: PidProbe)
  {
    probe.Err? || |probe.value| > 1
  }

  /** What a start ends with, and how many times the start command ran. */
  datatype StartReport = StartReport(result: Result<seq<string>>, launches: nat)

  /** The attempts from the `i`-th on: launch, probe, stop at the first probe
      that settles; StartFailed after the third. */
  function Attempts(probe: nat -> PidProbe, i: nat): StartReport
    decreases 3 - i
  {
    if i >= 3 then StartReport(Err(StartFailed), i)
    else if Settles(probe(i)) then StartReport(probe(i), i + 1)
    else Attempts(probe, i + 1)
  }

  /** StartRobotmonService: the process ids when the service runs already;
      otherwise the error of the probe or of building the start command;
      otherwise up to three launches. `probe(i)` is what GetPids returns
      after the `i`-th launch. */
  function StartOutcome(initial: PidProbe, plan: Result<LaunchPlan>, probe: nat -> PidProbe): StartReport
  {
    match initial
    case Err(e) => StartReport(Err(e), 0)
    case Ok(pids) =>
      if |pids| > 0 then StartReport(Ok(pids), 0)
      else match plan
        case Err(e) => StartReport(Err(e), 0)
        case Ok(_) => Attempts(probe, 0)
  }

  /** StartRobotmonService as the loop it is. */
  method StartService(initial: PidProbe, plan: Result<LaunchPlan>, probe: nat -> PidProbe)
    returns (r: Result<seq<string>>, launches: nat)
    ensures StartReport(r, launches) == StartOutcome(initial, plan, probe)
  {
    if initial.Err? {
      return Err(initial.error), 0;
    }
    if |initial.value| > 0 {
      return initial, 0;
    }
    if plan.Err? {
      return Err(plan.error), 0;
    }
    launches := 0;
    for i := 0 to 3
      invariant launches == i
      invariant Attempts(probe, 0) == Attempts(probe, i)
    {
      // here plan.value.command runs on the device; its outcome is not looked at
      launches := launches + 1;
      var pids := probe(i);
      if pids.Err? {
        return Err(pids.error), launches;
      }
      if |pids.value| > 1 {
        return pids, launches;
      }
    }
    return Err(StartFailed), launches;
  }

  /** From the `i`-th attempt on: the attempts stop at the first probe that
      settles, whose outcome they return, and fail after the third. */
  lemma {:induction false} AttemptsSettle(probe: nat -> PidProbe, i: nat)
    requires i < 3
    ensures var rep := Attempts(probe, i);
            && i < rep.launches <= 3
            && (forall j :: i <= j < rep.launches - 1 ==> !Settles(probe(j)))
            && (Settles(probe(rep.launches - 1)) ==> rep.result == probe(rep.launches - 1))
            && (!Settles(probe(rep.launches - 1)) ==> rep.launches == 3 && rep.result == Err(StartFailed))
    decreases 3 - i
  {
    if !Settles(probe(i)) && i + 1 < 3 {
      AttemptsSettle(probe, i + 1);
    }
  }

  /** A start launches nothing when the first probe fails or finds the
      service running, or the command cannot be built; otherwise it
      launches at most three times, stops at the first probe that fails or
      finds more than one process, and fails with StartFailed when none of
      the three does. */
  lemma StartAttempts(initial: PidProbe, plan: Result<LaunchPlan>, probe: nat -> PidProbe)
    ensures var rep := StartOutcome(initial, plan, probe);
            rep.launches == 0 <==> initial.Err? || |initial.value| > 0 || plan.Err?
    ensures var rep := StartOutcome(initial, plan, probe);
            initial.Ok? && |initial.value| > 0 ==> rep == StartReport(initial, 0)
    ensures var rep := StartOutcome(initial, plan, probe);
            rep.launches > 0 ==>
              && rep.launches <= 3
              && (forall j :: 0 <= j < rep.launches - 1 ==> !Settles(probe(j)))
              && (Settles(probe(rep.launches - 1)) ==> rep.result == probe(rep.launches - 1))
              && (!Settles(probe(rep.launches - 1)) ==> rep.launches == 3 && rep.result == Err(StartFailed))
  {
    AttemptsSettle(probe, 0);
  }

  /** A start that succeeds either found the service running without
      launching, or saw more than one process after a launch. */
  lemma StartSuccess(initial: PidProbe, plan: Result<LaunchPlan>, probe: nat -> PidProbe)
    ensures var rep := StartOutcome(initial, plan, probe);
            rep.result.Ok? ==>
              || (rep.launches == 0 && rep.result == initial && |initial.value| > 0)
              || (rep.launches > 0 && rep.result == probe(rep.launches - 1) && |rep.result.value| > 1)
  {
    StartAttempts(initial, plan, probe);
  }

  // =====================================================================
  // StopService

  /** The commands that send `signal` to each process, in order. */
  function Kills(signal: string, pids: seq<string>): (cmds: seq<string>)
    ensures |cmds| == |pids|
    ensures forall j :: 0 <= j < |pids| ==> cmds[j] == signal + pids[j]
  {
    seq(|pids|, j requires 0 <= j < |pids| => signal + pids[j])
  }

  /** What a stop ends with, and the commands it ran, in order. */
  datatype StopReport = StopReport(error: Option<Error>, sent: seq<string>)

  /** Run the commands in order and stop at the first that fails. `run(c)`
      is the failure of running `c`, if it fails. */
  function RunAll(cmds: seq<string>, run: string -> Option<string>): StopReport
  {
    if |cmds| == 0 then StopReport(None, [])
    else if run(cmds[0]).Some? then StopReport(Some(CommandError(run(cmds[0]).value)), [cmds[0]])
    else
      var rest := RunAll(cmds[1..], run);
      StopReport(rest.error, [cmds[0]] + rest.sent)
  }

  /** StopService: the error of the first probe; otherwise `kill` for each
      process, then, unless the second probe finds nothing, `kill -9` for each
      process it finds. An error of the second probe counts as finding
      nothing. */
  function StopOutcome(first: PidProbe, second: PidProbe, run: string -> Option<string>): StopReport
  {
    match first
    case Err(e) => StopReport(Some(e), [])
    case Ok(pids) =>
      var graceful := RunAll(Kills("kill ", pids), run);
      if graceful.error.Some? then graceful
      else
        var again := Remaining(second);
        if |again| == 0 then graceful
        else
          var forced := RunAll(Kills("kill -9 ", again), run);
          StopReport(forced.error, graceful.sent + forced.sent)
  }

  /** One kill loop of StopService: run the commands in order and return
      at the first that fails. */
  method SendAll(cmds: seq<string>, run: string -> Option<string>)
    returns (err: Option<Error>, sent: seq<string>)
    ensures StopReport(err, sent) == RunAll(cmds, run)
  {
    sent := [];
    for i := 0 to |cmds|
      invariant sent == cmds[..i]
      invariant RunAll(cmds, run) == Behind(sent, RunAll(cmds[i..], run))
    {
      RunAllNext(cmds, i, run, sent);
      assert cmds[..i + 1] == cmds[..i] + [cmds[i]];
      sent := sent + [cmds[i]];
      var failure := run(cmds[i]);
      if failure.Some? {
        return Some(CommandError(failure.value)), sent;
      }
    }
    RunAllDone(cmds, run, sent);
    return None, sent;
  }

  /** StopService: the graceful kills, the second probe, the forced kills. */
  method StopService(first: PidProbe, second: PidProbe, run: string -> Option<string>)
    returns (err: Option<Error>, sent: seq<string>)
    ensures StopReport(err, sent) == StopOutcome(first, second, run)
  {
    if first.Err? {
      return Some(first.error), [];
    }
    err, sent := SendAll(Kills("kill ", first.value), run);
    if err.Some? {
      return err, sent;
    }
    var again := Remaining(second);
    if |again| == 0 {
      return None, sent;
    }
    var forcedSent;
    err, forcedSent := SendAll(Kills("kill -9 ", again), run);
    sent := sent + forcedSent;
  }

  /** A run's report with `done` ran before it. */
  function Behind(done: seq<string>, rep: StopReport): StopReport
  {
    StopReport(rep.error, done + rep.sent)
  }

  /** One step of running the commands: the `i`-th runs after those before it. */
  lemma RunAllNext(cmds: seq<string>, i: int, run: string -> Option<string>, done: seq<string>)
    requires 0 <= i < |cmds|
    ensures Behind(done, RunAll(cmds[i..], run))
            == if run(cmds[i]).Some? then StopReport(Some(CommandError(run(cmds[i]).value)), done + [cmds[i]])
               else Behind(done + [cmds[i]], RunAll(cmds[i + 1..], run))
  {
    assert cmds[i..][1..] == cmds[i + 1..];
    if run(cmds[i]).None? {
      var rest := RunAll(cmds[i + 1..], run);
      assert done + ([cmds[i]] + rest.sent) == (done + [cmds[i]]) + rest.sent;
    }
  }

  /** Nothing is left to run once every command has run. */
  lemma RunAllDone(cmds: seq<string>, run: string -> Option<string>, done: seq<string>)
    ensures Behind(done, RunAll(cmds[|cmds|..], run)) == StopReport(None, done)
  {
    assert cmds[|cmds|..] == [];
    assert done + [] == done;
  }

  /** Running commands in order: what ran is a non-empty prefix ending at the
      first failure, whose message the error carries, or all of them when
      none fails. */
  lemma {:induction false} RunAllStops(cmds: seq<string>, run: string -> Option<string>)
    ensures var rep := RunAll(cmds, run);
            && |rep.sent| <= |cmds| && rep.sent == cmds[..|rep.sent|]
            && (forall j :: 0 <= j < |rep.sent| - 1 ==> run(cmds[j]).None?)
            && (rep.error.None? <==> forall j :: 0 <= j < |cmds| ==> run(cmds[j]).None?)
            && (rep.error.None? ==> rep.sent == cmds)
            && (rep.error.Some? ==>
                  && |rep.sent| > 0 && run(cmds[|rep.sent| - 1]).Some?
                  && rep.error.value == CommandError(run(cmds[|rep.sent| - 1]).value))
  {
    if |cmds| > 0 && run(cmds[0]).None? {
      var tail := cmds[1..];
      RunAllStops(tail, run);
      var rest := RunAll(tail, run);
      assert [cmds[0]] + tail[..|rest.sent|] == cmds[..|rest.sent| + 1];
      assert forall j :: 1 <= j < |cmds| ==> cmds[j] == tail[j - 1];
    }
  }

  /** No command of the list fails. */
  predicate AllSucceed(cmds: seq<string>, run: string -> Option<string>)
  {
    forall j :: 0 <= j < |cmds| ==> run(cmds[j]).None?
  }

  /** What the second probe leaves to force-kill: nothing when it fails. */
  function Remaining(second: PidProbe): seq<string>
  {
    if second.Ok? then second.value else []
  }

  /** A stop fails only with the first probe's error or the failure of a
      kill command; it succeeds exactly when every graceful kill and every
      forced kill of what the second probe finds succeeds, having then sent
      each of them once, in that order; a forced kill is sent only after
      every graceful kill succeeded and only when the second probe found
      processes; and a failed second probe ends the stop as if it had found
      none. */
  lemma StopPhases(first: PidProbe, second: PidProbe, run: string -> Option<string>)
    ensures first.Err? ==> StopOutcome(first, second, run) == StopReport(Some(first.error), [])
    ensures first.Ok? ==>
              var rep := StopOutcome(first, second, run);
              var graceful := Kills("kill ", first.value);
              var forced := Kills("kill -9 ", Remaining(second));
              && (rep.error.None? <==> AllSucceed(graceful, run) && AllSucceed(forced, run))
              && (rep.error.None? ==> rep.sent == graceful + forced)
              && (rep.error.Some? ==> rep.error.value.CommandError?)
              && (|rep.sent| > |graceful| ==>
                    rep.sent[..|graceful|] == graceful && AllSucceed(graceful, run) && |Remaining(second)| > 0)
              && (second.Err? ==> rep == RunAll(graceful, run))
  {
    if first.Ok? {
      var graceful := Kills("kill ", first.value);
      var forced := Kills("kill -9 ", Remaining(second));
      RunAllStops(graceful, run);
      RunAllStops(forced, run);
      if |Remaining(second)| == 0 {
        assert forced == [];
        assert graceful + forced == graceful;
      } else {
        var g := RunAll(graceful, run);
        if g.error.None? {
          assert (g.sent + RunAll(forced, run).sent)[..|graceful|] == graceful;
        }
      }
    }
  }
}
