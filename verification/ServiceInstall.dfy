/**
 Transactional service install: unitTxn and the systemd and launchd managers, against a
 supervisor whose every command may succeed, report "absent", or fail for real. The point
 is the truth of the error text: what "rolled back" promises about the definition file and
 the supervisor, what it does not, and that anything else is reported as incomplete.
 */
module ServiceInstall {
  import opened Prelude

  datatype Unit = Unit(bytes: string, perm: nat)

  datatype Outcome = Success | Absent | Failed

  function Bytes(f: Option<Unit>): Option<string> {
    if f.Some? then Some(f.value.bytes) else None
  }

  datatype Cause = ReloadFailed | EnableFailed | BootoutFailed | BootstrapFailed | KickstartFailed

  datatype Problem = DisableProblem | RestoreProblem | ReloadProblem | RestartProblem | UnloadProblem | NotLoadedProblem

  /** What install returns: nothing touched, installed, or wrapInstallRollback's two texts. */
  datatype Verdict =
    | Untouched
    | Installed
    | RolledBack(cause: Cause)
    | RollbackIncomplete(cause: Cause, problems: seq<Problem>)

  /** wrapInstallRollback: a clean undo exactly when no step of it reported a problem. */
  function WrapInstallRollback(cause: Cause, problems: seq<Problem>): Verdict {
    if problems == [] then RolledBack(cause) else RollbackIncomplete(cause, problems)
  }

  const UNIT_PERM := 420 // 0o644

  /** The definition file on disk. Every replacement is one rename, so it is never half there. */
  class Definition {
    var file: Option<Unit>

    constructor (f: Option<Unit>)
      ensures file == f
    {
      file := f;
    }
  }

  class UnitTxn {
    const def: Definition
    const perm: nat
    var prior: string
    var priorPerm: nat
    var had: bool

    constructor (d: Definition, p: nat)
      ensures def == d && perm == p && priorPerm == p && !had
    {
      def, perm := d, p;
      prior, priorPerm, had := "", p, false;
    }

    /** beginUnitTxn: remember what is there; `statOk` is whether its mode could be read. */
    method Begin(readable: bool, statOk: bool) returns (err: bool)
      requires !had && priorPerm == perm
      modifies this
      ensures err <==> !readable
      ensures err ==> had == old(had)
      ensures !err ==> had == def.file.Some?
      ensures !err && had ==> prior == def.file.value.bytes
      ensures !err && had ==> priorPerm == if statOk then def.file.value.perm else perm
    {
      if !readable {
        return true;
      }
      if def.file.Some? {
        prior, had := def.file.value.bytes, true;
        if statOk {
          priorPerm := def.file.value.perm;
        }
      }
      err := false;
    }

    /** writeBytes: a temp file and a rename; any failing step leaves the definition alone. */
    method WriteBytes(content: string, mode: nat, works: bool) returns (err: bool)
      modifies def
      ensures err <==> !works
      ensures def.file == if err then old(def.file) else Some(Unit(content, mode))
    {
      if works {
        def.file := Some(Unit(content, mode));
      }
      err := !works;
    }

    method Write(content: string, works: bool) returns (err: bool)
      modifies def
      ensures err <==> !works
      ensures def.file == if err then old(def.file) else Some(Unit(content, perm))
    {
      err := WriteBytes(content, perm, works);
    }

    /** rollback: the prior bytes and mode, or no file at all after a first-time install. */
    method Rollback(works: bool) returns (err: bool)
      modifies def
      ensures err <==> !works && (had || old(def.file).Some?)
      ensures err ==> def.file == old(def.file)
      ensures !err ==> def.file == if had then Some(Unit(prior, priorPerm)) else None
    {
      if had {
        err := WriteBytes(prior, priorPerm, works);
      } else {
        err := !works && def.file.Some?;
        if !err {
          def.file := None;
        }
      }
    }
  }

  /* ---- systemd ---- */

  datatype UnitState = UnitState(enabled: bool, active: bool)

  /** How a command ends, and what it leaves of the unit when it fails for real. */
  datatype Answer = Answer(outcome: Outcome, left: UnitState)

  /**
   Everything one install or uninstall meets: what can be read, probed and written, and how
   each command of it ends.
   */
  datatype UnitRun = UnitRun(readable: bool, statOk: bool, probe: Option<UnitState>, written: bool,
                             reload: Outcome, enable: Answer, disable: Answer,
                             restored: bool, reloadAgain: Outcome, restart: Answer)

  /**
   The user manager's view of one unit. A failing command leaves it in any state; a positive
   "absent" is taken to mean that nothing is enabled or running under that name.
   */
  class Systemd {
    var unit: UnitState

    constructor (u: UnitState)
      ensures unit == u
    {
      unit := u;
    }

    method EnableNow(a: Answer) returns (o: Outcome)
      modifies this
      ensures o == a.outcome && unit == if o.Success? then UnitState(true, true) else a.left
    {
      o := a.outcome;
      unit := if o.Success? then UnitState(true, true) else a.left;
    }

    method Enable(a: Answer) returns (o: Outcome)
      modifies this
      ensures o == a.outcome && unit == if o.Success? then old(unit).(enabled := true) else a.left
    {
      o := a.outcome;
      unit := if o.Success? then unit.(enabled := true) else a.left;
    }

    method Start(a: Answer) returns (o: Outcome)
      modifies this
      ensures o == a.outcome && unit == if o.Success? then old(unit).(active := true) else a.left
    {
      o := a.outcome;
      unit := if o.Success? then unit.(active := true) else a.left;
    }

    method DisableNow(a: Answer) returns (o: Outcome)
      modifies this
      ensures o == a.outcome && unit == if o.Failed? then a.left else UnitState(false, false)
    {
      o := a.outcome;
      unit := if o.Failed? then a.left else UnitState(false, false);
    }
  }

  /** The steps of an undo that failed, in the order they are taken. */
  function Failures(disable: bool, restore: bool, reload: bool, restart: bool): seq<Problem> {
    (if disable then [DisableProblem] else []) + (if restore then [RestoreProblem] else [])
    + (if reload then [ReloadProblem] else []) + (if restart then [RestartProblem] else [])
  }

  lemma FailuresAre(disable: bool, restore: bool, reload: bool, restart: bool)
    ensures var problems := Failures(disable, restore, reload, restart);
            && (DisableProblem in problems <==> disable) && (RestoreProblem in problems <==> restore)
            && (ReloadProblem in problems <==> reload) && (RestartProblem in problems <==> restart)
            && (problems == [] <==> !disable && !restore && !reload && !restart)
            && forall i, j :: 0 <= i < j < |problems| ==> Rank(problems[i]) < Rank(problems[j])
  {}

  lemma FailuresGrow(disable: bool, reload: bool, restart: bool)
    ensures var none := if disable then [DisableProblem] else [];
            && Failures(disable, true, false, false) == none + [RestoreProblem]
            && Failures(disable, false, reload, restart) == none + Failures(false, false, reload, restart)
  {}

  /** The order of the steps of an undo. */
  function Rank(p: Problem): nat {
    match p
    case DisableProblem => 0
    case UnloadProblem => 0
    case RestoreProblem => 1
    case ReloadProblem => 2
    case RestartProblem => 3
    case NotLoadedProblem => 3
  }

  class SystemdManager {
    const systemd: Systemd
    const def: Definition

    constructor (s: Systemd, d: Definition)
      ensures systemd == s && def == d
    {
      systemd, def := s, d;
    }

    /** restorePriorUnit: the command that re-establishes the captured state, and its problem. */
    method RestorePriorUnit(prior: UnitState, restart: Answer) returns (problems: seq<Problem>)
      modifies systemd
      ensures problems == if (prior.enabled || prior.active) && !restart.outcome.Success? then [RestartProblem] else []
      ensures problems == [] && old(systemd.unit) in {prior, UnitState(false, false)} ==> systemd.unit == prior
    {
      problems := [];
      var o := Success;
      if prior.enabled && prior.active {
        o := systemd.EnableNow(restart);
      } else if prior.enabled {
        o := systemd.Enable(restart);
      } else if prior.active {
        o := systemd.Start(restart);
      }
      if !o.Success? {
        problems := [RestartProblem];
      }
    }

    /** The steps of an undo after the file is back. */
    method Reestablish(had: bool, prior: UnitState, run: UnitRun) returns (problems: seq<Problem>)
      modifies systemd
      ensures problems == Failures(false, false, !run.reloadAgain.Success?,
                                   had && (prior.enabled || prior.active) && !run.restart.outcome.Success?)
      ensures problems == [] && had && old(systemd.unit) in {prior, UnitState(false, false)} ==> systemd.unit == prior
      ensures !had ==> systemd.unit == old(systemd.unit)
    {
      problems := [];
      if !run.reloadAgain.Success? {
        problems := problems + [ReloadProblem];
      }
      if had {
        var more := RestorePriorUnit(prior, run.restart);
        problems := problems + more;
      }
    }

    /** The steps of rollbackInstall; a failed restore of the file ends them. */
    method Undo(txn: UnitTxn, disableNew: bool, prior: UnitState, run: UnitRun) returns (problems: seq<Problem>)
      requires txn.def == def && def.file.Some?
      modifies def, systemd
      ensures problems == Failures(disableNew && run.disable.outcome.Failed?, !run.restored,
                                   run.restored && !run.reloadAgain.Success?,
                                   run.restored && txn.had && (prior.enabled || prior.active)
                                   && !run.restart.outcome.Success?)
      ensures def.file == if !run.restored then old(def.file)
                          else if txn.had then Some(Unit(txn.prior, txn.priorPerm)) else None
      ensures problems == [] && txn.had && (disableNew || old(systemd.unit) == prior) ==> systemd.unit == prior
      ensures problems == [] && !txn.had ==>
                systemd.unit == if disableNew then UnitState(false, false) else old(systemd.unit)
    {
      ghost var disable := disableNew && run.disable.outcome.Failed?;
      problems := [];
      if disableNew {
        var d := systemd.DisableNow(run.disable);
        if d.Failed? {
          problems := problems + [DisableProblem];
        }
      }
      FailuresGrow(disable, !run.reloadAgain.Success?, txn.had && (prior.enabled || prior.active)
                   && !run.restart.outcome.Success?);
      var failed := txn.Rollback(run.restored);
      if failed {
        problems := problems + [RestoreProblem];
        return;
      }
      var more := Reestablish(txn.had, prior, run);
      problems := problems + more;
    }

    /**
     rollbackInstall: "rolled back" exactly when every step of the undo worked, and otherwise
     the list of those that were taken and failed, in their order.
     */
    method RollbackInstall(txn: UnitTxn, disableNew: bool, prior: UnitState, cause: Cause, run: UnitRun)
      returns (v: Verdict)
      requires txn.def == def && def.file.Some?
      modifies def, systemd
      ensures v.RolledBack? <==>
                && (disableNew ==> !run.disable.outcome.Failed?)
                && run.restored && run.reloadAgain.Success?
                && (txn.had && (prior.enabled || prior.active) ==> run.restart.outcome.Success?)
      ensures v.RolledBack? ==> v.cause == cause
      ensures v.RollbackIncomplete? ==> v.cause == cause
      ensures v.RollbackIncomplete? ==>
                v.problems == Failures(disableNew && run.disable.outcome.Failed?, !run.restored,
                                       run.restored && !run.reloadAgain.Success?,
                                       run.restored && txn.had && (prior.enabled || prior.active)
                                       && !run.restart.outcome.Success?)
      ensures v.RollbackIncomplete? && RestoreProblem in v.problems ==> def.file == old(def.file)
      ensures v.RolledBack? || (v.RollbackIncomplete? && RestoreProblem !in v.problems) ==>
                def.file == if txn.had then Some(Unit(txn.prior, txn.priorPerm)) else None
      ensures !v.Untouched? && !v.Installed?
      ensures v.RolledBack? && txn.had && (disableNew || old(systemd.unit) == prior) ==> systemd.unit == prior
      ensures v.RolledBack? && !txn.had ==>
                systemd.unit == if disableNew then UnitState(false, false) else old(systemd.unit)
    {
      var problems := Undo(txn, disableNew, prior, run);
      FailuresAre(disableNew && run.disable.outcome.Failed?, !run.restored,
                  run.restored && !run.reloadAgain.Success?,
                  run.restored && txn.had && (prior.enabled || prior.active) && !run.restart.outcome.Success?);
      v := WrapInstallRollback(cause, problems);
    }

    /**
     install. The verdict says exactly how far it got and whether the undo worked. A "rolled
     back" error means the prior bytes are back. For a replaced unit whose state was probed
     accurately it also means the captured state is back; for a first-time install it does so
     exactly when the enable step was never reached or nothing of that name was enabled or
     running before.
     */
    method Install(content: string, run: UnitRun) returns (v: Verdict)
      modifies def, systemd
      ensures v.Untouched? <==> !run.readable || run.probe.None? || !run.written
      ensures v.Installed? <==> !v.Untouched? && run.reload.Success? && run.enable.outcome.Success?
      ensures v.RolledBack? <==>
                && run.readable && run.probe.Some? && run.written
                && !(run.reload.Success? && run.enable.outcome.Success?)
                && (run.reload.Success? ==> !run.disable.outcome.Failed?)
                && run.restored && run.reloadAgain.Success?
                && (old(def.file).Some? && (run.probe.value.enabled || run.probe.value.active) ==>
                      run.restart.outcome.Success?)
      ensures v.RollbackIncomplete? ==>
                && (DisableProblem in v.problems <==> run.reload.Success? && run.disable.outcome.Failed?)
                && (RestoreProblem in v.problems <==> !run.restored)
                && (ReloadProblem in v.problems <==> run.restored && !run.reloadAgain.Success?)
                && (RestartProblem in v.problems <==>
                      run.restored && old(def.file).Some? && (run.probe.value.enabled || run.probe.value.active)
                      && !run.restart.outcome.Success?)
      ensures v.RolledBack? || v.RollbackIncomplete? ==>
                v.cause == if run.reload.Success? then EnableFailed else ReloadFailed
      ensures v.Untouched? ==> def.file == old(def.file) && systemd.unit == old(systemd.unit)
      ensures v.Installed? ==> def.file == Some(Unit(content, UNIT_PERM)) && systemd.unit == UnitState(true, true)
      ensures v.RolledBack? ==> Bytes(def.file) == Bytes(old(def.file))
      ensures v.RolledBack? && run.statOk ==> def.file == old(def.file)
      ensures v.RolledBack? && old(def.file).Some? && run.probe == Some(old(systemd.unit)) ==>
                systemd.unit == old(systemd.unit)
      ensures v.RolledBack? && old(def.file).None? && v.cause.EnableFailed? ==> systemd.unit == UnitState(false, false)
      ensures v.RolledBack? && old(def.file).None? ==>
                (systemd.unit == old(systemd.unit) <==>
                 (v.cause.ReloadFailed? || old(systemd.unit) == UnitState(false, false)))
      ensures v.RollbackIncomplete? ==> v.problems != []
      ensures v.RollbackIncomplete? && RestoreProblem !in v.problems ==> Bytes(def.file) == Bytes(old(def.file))
      ensures v.RollbackIncomplete? && RestoreProblem in v.problems ==> def.file == Some(Unit(content, UNIT_PERM))
    {
      var txn := new UnitTxn(def, UNIT_PERM);
      var err := txn.Begin(run.readable, run.statOk);
      if err || run.probe.None? {
        return Untouched;
      }
      err := txn.Write(content, run.written);
      if err {
        return Untouched;
      }
      v := Activate(txn, run.probe.value, run);
    }

    /** What follows the write: the reload and the enable, and the undo if one of them fails. */
    method Activate(txn: UnitTxn, prior: UnitState, run: UnitRun) returns (v: Verdict)
      requires txn.def == def && def.file.Some?
      modifies def, systemd
      ensures !v.Untouched?
      ensures v.Installed? <==> run.reload.Success? && run.enable.outcome.Success?
      ensures v.RolledBack? <==>
                && !v.Installed?
                && (run.reload.Success? ==> !run.disable.outcome.Failed?)
                && run.restored && run.reloadAgain.Success?
                && (txn.had && (prior.enabled || prior.active) ==> run.restart.outcome.Success?)
      ensures v.RolledBack? || v.RollbackIncomplete? ==>
                v.cause == if run.reload.Success? then EnableFailed else ReloadFailed
      ensures v.RollbackIncomplete? ==>
                && (DisableProblem in v.problems <==> run.reload.Success? && run.disable.outcome.Failed?)
                && (RestoreProblem in v.problems <==> !run.restored)
                && (ReloadProblem in v.problems <==> run.restored && !run.reloadAgain.Success?)
                && (RestartProblem in v.problems <==>
                      run.restored && txn.had && (prior.enabled || prior.active) && !run.restart.outcome.Success?)
                && v.problems != []
      ensures v.Installed? ==> def.file == old(def.file) && systemd.unit == UnitState(true, true)
      ensures v.RolledBack? || (v.RollbackIncomplete? && RestoreProblem !in v.problems) ==>
                def.file == if txn.had then Some(Unit(txn.prior, txn.priorPerm)) else None
      ensures v.RollbackIncomplete? && RestoreProblem in v.problems ==> def.file == old(def.file)
      ensures v.RolledBack? && txn.had && (run.reload.Success? || old(systemd.unit) == prior) ==> systemd.unit == prior
      ensures v.RolledBack? && !txn.had ==>
                systemd.unit == if run.reload.Success? then UnitState(false, false) else old(systemd.unit)
    {
      if !run.reload.Success? {
        v := RollbackInstall(txn, false, prior, ReloadFailed, run);
        return;
      }
      var o := systemd.EnableNow(run.enable);
      if !o.Success? {
        v := RollbackInstall(txn, true, prior, EnableFailed, run);
        return;
      }
      v := Installed;
    }

    /** uninstall: the file goes only after a disable that worked or positively found nothing. */
    method Uninstall(disable: Answer, readable: bool, removable: bool, reload: Outcome)
      returns (removed: bool, err: bool)
      modifies def, systemd
      ensures removed <==> !disable.outcome.Failed? && readable && removable && old(def.file).Some?
      ensures disable.outcome.Failed? ==> err && !removed
      ensures def.file == if removed then None else old(def.file)
      ensures removed ==> systemd.unit == UnitState(false, false)
      ensures err <==> disable.outcome.Failed? || !readable
                       || (old(def.file).Some? && (!removable || !reload.Success?))
    {
      var o := systemd.DisableNow(disable);
      if o.Failed? || !readable {
        return false, true;
      }
      if def.file.None? {
        return false, false;
      }
      if !removable {
        return false, true;
      }
      def.file := None;
      return true, !reload.Success?;
    }
  }

  /**
   A first-time install beside a unit of that name that runs without a definition here: the
   enable fails, every step of the undo works, the error says "rolled back", and the unit
   that was enabled and running is neither.
   */
  method FirstInstallStopsARunningUnit() returns (v: Verdict, before: UnitState, after: UnitState)
    ensures v == RolledBack(EnableFailed) && before == UnitState(true, true) && after == UnitState(false, false)
  {
    before := UnitState(true, true);
    var systemd := new Systemd(before);
    var def := new Definition(None);
    var manager := new SystemdManager(systemd, def);
    var fine := Answer(Success, before);
    v := manager.Install("[Unit]", UnitRun(true, true, Some(before), true, Success, Answer(Failed, before), fine,
                                           true, Success, fine));
    after := systemd.unit;
  }

  /* ---- launchd ---- */

  /** How a command ends, and whether it leaves the service loaded when it fails for real. */
  datatype LaunchAnswer = LaunchAnswer(outcome: Outcome, left: bool)

  datatype PlistRun = PlistRun(readable: bool, statOk: bool, printed: bool, written: bool,
                               bootout: LaunchAnswer, bootstrap: LaunchAnswer, kickstart: LaunchAnswer,
                               unload: LaunchAnswer, restored: bool, reload: LaunchAnswer)

  /** The GUI domain's view of one label. */
  class Launchd {
    var loaded: bool

    constructor (isLoaded: bool)
      ensures loaded == isLoaded
    {
      loaded := isLoaded;
    }

    /** A bootout that works, or positively finds nothing, leaves nothing loaded. */
    method Bootout(a: LaunchAnswer) returns (o: Outcome)
      modifies this
      ensures o == a.outcome && loaded == if o.Failed? then a.left else false
    {
      o := a.outcome;
      loaded := if o.Failed? then a.left else false;
    }

    method Bootstrap(a: LaunchAnswer) returns (o: Outcome)
      modifies this
      ensures o == a.outcome && loaded == if o.Success? then true else a.left
    {
      o := a.outcome;
      loaded := if o.Success? then true else a.left;
    }

    method Kickstart(a: LaunchAnswer) returns (o: Outcome)
      modifies this
      ensures o == a.outcome && loaded == if o.Success? then old(loaded) else a.left
    {
      o := a.outcome;
      loaded := if o.Success? then loaded else a.left;
    }
  }

  /** The steps of an undo that failed, in the order they are taken. */
  function UnloadFailures(unload: bool, restore: bool, load: bool): seq<Problem> {
    (if unload then [UnloadProblem] else []) + (if restore then [RestoreProblem] else [])
    + (if load then [NotLoadedProblem] else [])
  }

  lemma UnloadFailuresAre(unload: bool, restore: bool, load: bool)
    ensures var problems := UnloadFailures(unload, restore, load);
            && (UnloadProblem in problems <==> unload) && (RestoreProblem in problems <==> restore)
            && (NotLoadedProblem in problems <==> load) && (problems == [] <==> !unload && !restore && !load)
            && forall i, j :: 0 <= i < j < |problems| ==> Rank(problems[i]) < Rank(problems[j])
  {}

  class LaunchdManager {
    const launchd: Launchd
    const def: Definition

    constructor (l: Launchd, d: Definition)
      ensures launchd == l && def == d
    {
      launchd, def := l, d;
    }

    /**
     rollbackInstall: "rolled back" exactly when every step of the undo worked, and otherwise
     the list of those that were taken and failed, in their order.
     */
    method RollbackInstall(txn: UnitTxn, unloadNew: bool, reloadPrior: bool, cause: Cause, run: PlistRun)
      returns (v: Verdict)
      requires txn.def == def && def.file.Some?
      modifies def, launchd
      ensures v.RolledBack? <==>
                && (unloadNew ==> !run.unload.outcome.Failed?)
                && run.restored
                && (reloadPrior ==> run.reload.outcome.Success?)
      ensures v.RolledBack? ==> v.cause == cause
      ensures v.RollbackIncomplete? ==> v.cause == cause
      ensures v.RollbackIncomplete? ==>
                v.problems == UnloadFailures(unloadNew && run.unload.outcome.Failed?, !run.restored,
                                             run.restored && reloadPrior && !run.reload.outcome.Success?)
      ensures v.RollbackIncomplete? && RestoreProblem in v.problems ==> def.file == old(def.file)
      ensures v.RolledBack? || (v.RollbackIncomplete? && RestoreProblem !in v.problems) ==>
                def.file == if txn.had then Some(Unit(txn.prior, txn.priorPerm)) else None
      ensures !v.Untouched? && !v.Installed?
      ensures v.RolledBack? ==> launchd.loaded == (reloadPrior || (!unloadNew && old(launchd.loaded)))
    {
      var problems: seq<Problem> := [];
      if unloadNew {
        var o := launchd.Bootout(run.unload);
        if o.Failed? {
          problems := problems + [UnloadProblem];
        }
      }
      var failed := txn.Rollback(run.restored);
      if failed {
        problems := problems + [RestoreProblem];
        return WrapInstallRollback(cause, problems);
      }
      if reloadPrior {
        var o := launchd.Bootstrap(run.reload);
        if !o.Success? {
          problems := problems + [NotLoadedProblem];
        }
      }
      v := WrapInstallRollback(cause, problems);
    }

    /**
     install. "Rolled back" means the prior bytes are back. After a failed bootout the service
     is what that bootout left of it, which the source takes to be what it was. After a later
     failure a replaced plist whose service was probed accurately has it loaded exactly when it
     was; after a first-time install nothing is loaded, whatever was before.
     */
    method Install(content: string, run: PlistRun) returns (v: Verdict)
      modifies def, launchd
      ensures v.Untouched? <==> !run.readable || !run.written
      ensures v.Installed? <==> !v.Untouched? && !run.bootout.outcome.Failed?
                                && run.bootstrap.outcome.Success? && run.kickstart.outcome.Success?
      ensures v.RolledBack? || v.RollbackIncomplete? ==>
                && (v.cause.BootoutFailed? <==> run.bootout.outcome.Failed?)
                && (v.cause.BootstrapFailed? <==> !run.bootout.outcome.Failed? && !run.bootstrap.outcome.Success?)
                && (v.cause.KickstartFailed? <==> !run.bootout.outcome.Failed? && run.bootstrap.outcome.Success?)
      ensures v.RolledBack? <==>
                && !v.Untouched? && !v.Installed? && run.restored
                && (!run.bootout.outcome.Failed? ==> !run.unload.outcome.Failed?)
                && (!run.bootout.outcome.Failed? && old(def.file).Some? && run.printed ==> run.reload.outcome.Success?)
      ensures v.RollbackIncomplete? ==>
                && (UnloadProblem in v.problems <==> !v.cause.BootoutFailed? && run.unload.outcome.Failed?)
                && (RestoreProblem in v.problems <==> !run.restored)
                && (NotLoadedProblem in v.problems <==>
                      run.restored && !v.cause.BootoutFailed? && old(def.file).Some? && run.printed
                      && !run.reload.outcome.Success?)
      ensures v.Untouched? ==> def.file == old(def.file) && launchd.loaded == old(launchd.loaded)
      ensures v.Installed? ==> def.file == Some(Unit(content, UNIT_PERM)) && launchd.loaded
      ensures v.RolledBack? ==> Bytes(def.file) == Bytes(old(def.file))
      ensures v.RolledBack? && run.statOk ==> def.file == old(def.file)
      ensures v.RolledBack? ==>
                launchd.loaded ==
                  if v.cause.BootoutFailed? then run.bootout.left else old(def.file).Some? && run.printed
      ensures v.RollbackIncomplete? ==> v.problems != []
      ensures v.RollbackIncomplete? && RestoreProblem !in v.problems ==> Bytes(def.file) == Bytes(old(def.file))
      ensures v.RollbackIncomplete? && RestoreProblem in v.problems ==> def.file == Some(Unit(content, UNIT_PERM))
    {
      var txn := new UnitTxn(def, UNIT_PERM);
      var err := txn.Begin(run.readable, run.statOk);
      if err {
        return Untouched;
      }
      var priorLoaded := txn.had && run.printed;
      UnloadFailuresAre(!run.bootout.outcome.Failed? && run.unload.outcome.Failed?, !run.restored,
                        run.restored && !run.bootout.outcome.Failed? && priorLoaded && !run.reload.outcome.Success?);
      err := txn.Write(content, run.written);
      if err {
        return Untouched;
      }
      var o := launchd.Bootout(run.bootout);
      if o.Failed? {
        v := RollbackInstall(txn, false, false, BootoutFailed, run);
        return;
      }
      o := launchd.Bootstrap(run.bootstrap);
      if !o.Success? {
        v := RollbackInstall(txn, true, priorLoaded, BootstrapFailed, run);
        return;
      }
      o := launchd.Kickstart(run.kickstart);
      if !o.Success? {
        v := RollbackInstall(txn, true, priorLoaded, KickstartFailed, run);
        return;
      }
      v := Installed;
    }

    /** uninstall: the plist goes only after a bootout that worked or positively found nothing. */
    method Uninstall(bootout: LaunchAnswer, readable: bool, removable: bool) returns (removed: bool, err: bool)
      modifies def, launchd
      ensures removed <==> !bootout.outcome.Failed? && readable && removable && old(def.file).Some?
      ensures bootout.outcome.Failed? ==> err && !removed
      ensures def.file == if removed then None else old(def.file)
      ensures removed ==> !launchd.loaded
      ensures err <==> bootout.outcome.Failed? || !readable || (old(def.file).Some? && !removable)
    {
      var o := launchd.Bootout(bootout);
      if o.Failed? || !readable {
        return false, true;
      }
      if def.file.None? {
        return false, false;
      }
      if !removable {
        return false, true;
      }
      def.file := None;
      return true, false;
    }
  }

  /**
   A loaded service without a plist here: the bootstrap of the new one fails, every step of
   the undo works, the error says "rolled back", and the service is gone.
   */
  method FirstInstallUnloadsAService() returns (v: Verdict, before: bool, after: bool)
    ensures v == RolledBack(BootstrapFailed) && before && !after
  {
    before := true;
    var launchd := new Launchd(before);
    var def := new Definition(None);
    var manager := new LaunchdManager(launchd, def);
    var fine := LaunchAnswer(Success, true);
    v := manager.Install("<plist>", PlistRun(true, true, true, true, fine, LaunchAnswer(Failed, false), fine,
                                             fine, true, fine));
    after := launchd.loaded;
  }

  /** A failed bootout that stopped the service all the same: "rolled back", and not loaded any more. */
  method FailedBootoutStopsTheService() returns (v: Verdict, before: bool, after: bool)
    ensures v == RolledBack(BootoutFailed) && before && !after
  {
    before := true;
    var launchd := new Launchd(before);
    var def := new Definition(Some(Unit("<plist>", UNIT_PERM)));
    var manager := new LaunchdManager(launchd, def);
    var fine := LaunchAnswer(Success, true);
    v := manager.Install("<new>", PlistRun(true, true, true, true, LaunchAnswer(Failed, false), fine, fine,
                                           fine, true, fine));
    after := launchd.loaded;
  }
}
