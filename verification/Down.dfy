/**
 `down`: stop the daemon a state directory names, if it is ours, and clear what it published.
 The host, the stop and the removals may each fail.
 */
module Down {
  import opened Prelude
  import opened PidFile

  datatype Signal = Term(pid: int) | Kill(pid: int)

  /** How a stop goes: the n-th liveness check, the checks before the deadline, and which calls fail. */
  datatype StopRun = StopRun(alive: nat -> bool, polls: nat, findFails: bool, requestFails: bool, forceFails: bool)

  datatype Outcome = Stopped | NothingToStop(reason: Ownership) | StopFailed

  datatype Removal = PidRecord | ConnectionFile

  /** The state directory, and every signal sent on its behalf. */
  class StateDir {
    var pidFile: File
    var connection: Option<string>
    var signals: seq<Signal>
    ghost var removals: seq<Removal> // what was tried to be removed, in order

    constructor (pidFile: File, connection: Option<string>)
      ensures this.pidFile == pidFile && this.connection == connection && signals == [] && removals == []
    {
      this.pidFile := pidFile;
      this.connection := connection;
      signals, removals := [], [];
    }

    /**
     stopDaemon. No error means that a check found the process gone: the first one; or, after
     a term that was sent, one before the deadline; or, after a kill that was sent, one of the
     five that follow. The term goes to every process found alive, and the kill only to one
     that outlived the whole grace period.
     */
    method StopDaemon(pid: int, run: StopRun) returns (ok: bool, ghost checks: nat)
      modifies this`signals
      ensures ok <==> !run.alive(0)
                      || (!run.findFails && !run.requestFails
                          && ((exists i :: 1 <= i <= run.polls && !run.alive(i))
                              || (!run.forceFails && exists i :: run.polls < i <= run.polls + 5 && !run.alive(i))))
      ensures signals == old(signals) +
                if !run.alive(0) || run.findFails then []
                else if run.requestFails || exists i :: 1 <= i <= run.polls && !run.alive(i) then [Term(pid)]
                else [Term(pid), Kill(pid)]
      ensures ok ==> checks > 0 && !run.alive(checks - 1)
      ensures forall i :: 0 <= i < checks - 1 ==> run.alive(i)
    {
      checks := 1;
      if !run.alive(0) {
        return true, checks;
      }
      if run.findFails {
        return false, checks;
      }
      signals := signals + [Term(pid)];
      if run.requestFails {
        return false, checks;
      }
      var n := 0;
      while n < run.polls
        invariant 0 <= n <= run.polls && checks == n + 1
        invariant forall i :: 0 <= i < checks ==> run.alive(i)
        invariant signals == old(signals) + [Term(pid)]
      {
        checks := checks + 1;
        if !run.alive(n + 1) {
          return true, checks;
        }
        n := n + 1;
      }
      signals := signals + [Kill(pid)];
      assert signals == old(signals) + [Term(pid), Kill(pid)];
      if run.forceFails {
        return false, checks;
      }
      for k := 0 to 5
        invariant checks == run.polls + 1 + k
        invariant forall i :: 0 <= i < checks ==> run.alive(i)
        invariant signals == old(signals) + [Term(pid), Kill(pid)]
      {
        checks := checks + 1;
        if !run.alive(run.polls + 1 + k) {
          return true, checks;
        }
      }
      ok := false;
    }

    /** removePIDFile: an absent file is no error. */
    method RemovePidFile(fails: bool)
      modifies this`pidFile, this`removals
      ensures removals == old(removals) + [PidRecord]
      ensures pidFile == if fails then old(pidFile) else Absent
    {
      removals := removals + [PidRecord];
      if !fails {
        pidFile := Absent;
      }
    }

    method ClearConnectionFile(fails: bool)
      modifies this`connection, this`removals
      ensures removals == old(removals) + [ConnectionFile]
      ensures connection == if fails then old(connection) else None
    {
      removals := removals + [ConnectionFile];
      if !fails {
        connection := None;
      }
    }

    /** downWithoutLiveDaemon: nothing is signalled, the record goes first and the connection second. */
    method DownWithoutLiveDaemon(o: Ownership, pidFails: bool, connFails: bool) returns (r: Outcome)
      requires !o.Live? && (o.NoFile? ==> pidFile.Absent?)
      modifies this`pidFile, this`connection, this`removals
      ensures r == NothingToStop(o)
      ensures removals == old(removals) + if o.NoFile? then [ConnectionFile] else [PidRecord, ConnectionFile]
      ensures pidFile == if pidFails then old(pidFile) else Absent
      ensures connection == if connFails then old(connection) else None
    {
      if !o.NoFile? {
        RemovePidFile(pidFails);
      }
      ClearConnectionFile(connFails);
      r := NothingToStop(o);
    }

    /**
     runDown. A completed run whose removals succeed leaves neither file, from every state.
     Only the recorded pid is signalled, and only when it lived and no token spoke against it.
     A failed stop leaves both files as they were.
     */
    method RunDown(h: Host, run: StopRun, pidFails: bool, connFails: bool) returns (r: Outcome)
      modifies this
      ensures r.StopFailed? ==> pidFile == old(pidFile) && connection == old(connection) && removals == old(removals)
      ensures r.Stopped? ==> removals == old(removals) + [PidRecord, ConnectionFile]
      ensures !r.StopFailed? && !pidFails ==> pidFile == Absent
      ensures !r.StopFailed? && !connFails ==> connection == None
      ensures r.NothingToStop? <==> !NamesOurs(old(pidFile), h)
      ensures r.Stopped? <==>
                NamesOurs(old(pidFile), h)
                && (!run.alive(0)
                    || (!run.findFails && !run.requestFails
                        && ((exists i :: 1 <= i <= run.polls && !run.alive(i))
                            || (!run.forceFails && exists i :: run.polls < i <= run.polls + 5 && !run.alive(i)))))
      ensures !NamesOurs(old(pidFile), h) || !run.alive(0) || run.findFails ==> signals == old(signals)
      ensures NamesOurs(old(pidFile), h) && run.alive(0) && !run.findFails ==>
                var pid := Parse(old(pidFile).raw).record.pid;
                signals == old(signals) +
                  if run.requestFails || exists i :: 1 <= i <= run.polls && !run.alive(i) then [Term(pid)]
                  else [Term(pid), Kill(pid)]
      ensures old(pidFile).Absent? ==> r == NothingToStop(NoFile)
    {
      var pid, ownership := ClassifyPidFile(pidFile, h);
      if !ownership.Live? {
        r := DownWithoutLiveDaemon(ownership, pidFails, connFails);
        return;
      }
      var ok, checks := StopDaemon(pid, run);
      if !ok {
        return StopFailed;
      }
      RemovePidFile(pidFails);
      ClearConnectionFile(connFails);
      r := Stopped;
    }

    /**
     A `down` that dies between its two removals is finished by the next one: the directory
     then names no process, nothing more is signalled, and the connection file goes.
     */
    method DownAfterAnInterruptedDown(h: Host, run: StopRun, next: Host, nextRun: StopRun)
      returns (first: Outcome, second: Outcome)
      modifies this
      ensures !first.StopFailed? ==> second == NothingToStop(NoFile) && pidFile == Absent && connection == None
      ensures |signals| <= |old(signals)| + 2
    {
      var pid, ownership := ClassifyPidFile(pidFile, h);
      if ownership.Live? {
        var ok, checks := StopDaemon(pid, run);
        if !ok {
          return StopFailed, StopFailed;
        }
        first := Stopped;
      } else {
        first := NothingToStop(ownership);
      }
      if !ownership.NoFile? {
        RemovePidFile(false);
      }
      ghost var sent := signals;
      second := RunDown(next, nextRun, false, false);
      assert signals == sent;
    }
  }
}
