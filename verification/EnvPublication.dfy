/**
 * The publication code of app/config.py as methods over a directory. Every
 * method keeps a trace of the file operations made, by it and by others, and
 * that trace is a run of the step machine in EnvProtocol, so its theorems hold
 * of every execution.
 */
module EnvPublication {
  import opened Basics
  import opened EnvFile
  import opened EnvProtocol
  import Text

  /** What another process does to the target. */
  datatype Act = Put(content: Content) | Remove | Promote(n: nat)

  /**
   * The outside world, by the clock of the object: the name a random source
   * draws, whether a file operation fails, what others do in a gap, and whether
   * the process dies there.
   */
  datatype Luck = Luck(names: nat -> nat, fails: nat -> bool, others: nat -> seq<Act>, crashes: nat -> bool)

  /** Why an update failed, as the exceptions tell it. */
  datatype Cause = Unreadable | Unprintable | TargetMissing | BackupMissing | NoFreeName | OperationFailed

  datatype Outcome = Written(payload: Content) | Raced | Failed(cause: Cause) | Crashed

  datatype Recovery = NotNeeded | Recovered | Refused

  const ATTEMPTS := 32

  /** `states` and `actions` were extended by steps that published nothing. */
  ghost predicate Quiet(states: seq<World>, from: nat) {
    forall i :: from < i < |states| ==> !states[i].phase.Published?
  }

  /** From tick `from` on nothing fails, nobody interferes, and the process lives. */
  ghost predicate Calm(luck: Luck, from: nat) {
    forall k: nat :: k >= from ==> !luck.fails(k) && luck.others(k) == [] && !luck.crashes(k)
  }

  /** No backup name drawn from tick `from` on is taken. */
  ghost predicate FreshBackups(luck: Luck, from: nat, files: Directory) {
    forall k: nat :: k >= from ==> Backup(luck.names(k)) !in files
  }

  /** No name drawn from tick `from` on is taken. */
  ghost predicate FreshNames(luck: Luck, from: nat, files: Directory) {
    FreshBackups(luck, from, files) && forall k: nat :: k >= from ==> Temp(luck.names(k)) !in files
  }

  ghost predicate AllTaken(luck: Luck, k: nat, files: Directory) {
    || (forall j: nat :: k <= j < k + 32 ==> Temp(luck.names(j)) in files)
    || (forall j: nat :: k <= j < k + 32 ==> Backup(luck.names(j)) in files)
  }

  class ConfigDirectory {
    const luck: Luck
    var files: Directory
    var tick: nat
    ghost var states: seq<World>
    ghost var actions: seq<Action>

    ghost predicate Valid()
      reads this
    {
      Run(states, actions) && Now().files == files
    }

    ghost function Now(): World
      reads this
      requires |states| == |actions| + 1
    {
      states[|actions|]
    }

    constructor (content: Option<Content>, luck: Luck)
      ensures Valid() && Now() == Start(content) && this.luck == luck && tick == 0
    {
      this.luck, tick := luck, 0;
      files := if content.Some? then map[Target := content.value] else map[];
      states, actions := [Start(content)], [];
      new;
      assert states[0] == Start(content);
    }

    /** Records one step whose effect on the files has been made. */
    ghost method Log(a: Action)
      requires Run(states, actions) && Enabled(Now(), a) && Apply(Now(), a).files == files
      modifies `states, `actions
      ensures Valid() && states == old(states) + [Apply(old(Now()), a)] && actions == old(actions) + [a]
    {
      states, actions := Prolong(states, actions, a);
    }

    method Fails() returns (fails: bool)
      modifies `tick
      ensures fails == luck.fails(old(tick)) && tick == old(tick) + 1
    {
      fails := luck.fails(tick);
      tick := tick + 1;
    }

    method NextName() returns (n: nat)
      modifies `tick
      ensures n == luck.names(old(tick)) && tick == old(tick) + 1
    {
      n := luck.names(tick);
      tick := tick + 1;
    }

    /** One act of another process, if it is possible. */
    method Perform(act: Act)
      requires Valid()
      modifies `files, `states, `actions
      ensures Valid() && old(states) <= states && old(actions) <= actions && Now().phase == old(Now().phase)
      ensures !old(Now().phase.Published?) ==> Quiet(states, |old(actions)|)
      ensures forall n :: Temp(n) in files <==> Temp(n) in old(files)
    {
      match act {
        case Put(content) =>
          ghost var was := Target in files;
          files := files[Target := content];
          if was {
            Log(Replace(content));
          } else {
            Log(Create(content));
          }
        case Remove =>
          if Target in files {
            files := files - {Target};
            Log(Delete);
          }
        case Promote(n) =>
          if Target !in files && BackupNames() == {n} {
            SoleBackup(files, BackupNames(), n);
            files := Move(files, Backup(n), Target);
            Log(Recover(n));
          }
      }
    }

    /** A gap between two file operations: others act, and the process may die. */
    method Between() returns (crashed: bool)
      requires Valid()
      modifies this
      ensures Valid() && old(states) <= states && old(actions) <= actions && tick == old(tick) + 1
      ensures Now().phase == if crashed then Idle else old(Now().phase)
      ensures !old(Now().phase.Published?) ==> Quiet(states, |old(actions)|)
      ensures forall n :: Temp(n) in files <==> Temp(n) in old(files)
      ensures crashed == luck.crashes(old(tick))
      ensures luck.others(old(tick)) == [] ==> files == old(files)
    {
      var acts := luck.others(tick);
      crashed := luck.crashes(tick);
      for i := 0 to |acts|
        invariant Valid() && old(states) <= states && old(actions) <= actions
        invariant Now().phase == old(Now().phase) && tick == old(tick) && acts == luck.others(old(tick))
        invariant !old(Now().phase.Published?) ==> Quiet(states, |old(actions)|)
        invariant forall n :: Temp(n) in files <==> Temp(n) in old(files)
        invariant i == 0 ==> files == old(files)
      {
        Perform(acts[i]);
      }
      tick := tick + 1;
      if crashed {
        Log(Crash);
      }
    }

    function BackupNames(): set<nat>
      reads this
    {
      set name | name in files && name.Backup? :: name.n
    }

    lemma SoleBackup(files: Directory, backups: set<nat>, n: nat)
      requires backups == (set name | name in files && name.Backup? :: name.n) && backups == {n}
      ensures Sole(files, n)
    {
      forall m: nat | Backup(m) in files ensures m == n {
        assert m in backups;
      }
      assert n in backups;
    }

    // ----- what the call may blame -----

    /** Some file operation since tick `from` failed. */
    ghost predicate FailedSince(from: nat)
      reads this
    {
      exists k: nat :: from <= k < tick && luck.fails(k)
    }

    /** Thirty-two names drawn in a row since were all taken, at some time since. */
    ghost predicate TakenSince(from: nat, begun: nat)
      reads this
    {
      exists k: nat, i: nat :: from <= k && k + 32 <= tick && begun <= i < |states| && AllTaken(luck, k, states[i].files)
    }

    /** The target was vacant at some time since step `begun`. */
    ghost predicate VacantSince(begun: nat)
      reads this
    {
      exists i: nat :: begun <= i < |states| && Target !in states[i].files
    }

    /** Somebody else's content was found where the expected one should be, or at a target that should be vacant. */
    ghost predicate ConflictSince(begun: nat)
      reads this
      requires |states| == |actions| + 1
    {
      exists i: nat :: begun <= i < |actions| && IsConflict(states[i], actions[i], states[i + 1])
    }

    /** The captured target was gone from its backup: somebody promoted it. */
    ghost predicate HeldGoneSince(begun: nat)
      reads this
    {
      exists i: nat :: begun <= i < |states| && states[i].phase.Holding? && Backup(states[i].phase.backup) !in states[i].files
    }

    ghost predicate CrashedSince(from: nat)
      reads this
    {
      exists k: nat :: from <= k < tick && luck.crashes(k)
    }

    /** Every unhappy outcome has its cause in the world outside. */
    ghost predicate Blames(outcome: Outcome, from: nat, begun: nat)
      reads this
      requires |states| == |actions| + 1
    {
      match outcome
      case Written(_) => true
      case Raced => ConflictSince(begun)
      case Crashed => CrashedSince(from)
      case Failed(OperationFailed) => FailedSince(from)
      case Failed(NoFreeName) => TakenSince(from, begun)
      case Failed(TargetMissing) => VacantSince(begun)
      case Failed(BackupMissing) => HeldGoneSince(begun)
      case Failed(_) => false
    }

    // ----- the operations -----

    /** Without a name for it, or on the way out of a failure, `outcome` says what went wrong. */
    method WritePrivateTemp(expected: Option<Content>, payload: Content) returns (temp: Option<nat>, outcome: Outcome)
      requires Valid() && Now().phase.Idle?
      modifies this
      ensures Valid() && old(states) <= states && old(actions) <= actions && Quiet(states, |old(actions)|) && tick >= old(tick)
      ensures temp.Some? ==> Now().phase == Prepared(temp.value, expected, payload)
      ensures temp.None? ==> Now().phase.Idle? && (outcome.Failed? || outcome.Crashed?) && Blames(outcome, old(tick), |old(actions)|)
      ensures Calm(luck, old(tick)) && FreshNames(luck, old(tick), old(files)) ==>
                temp.Some? && Temp(temp.value) !in old(files) && files == old(files)[Temp(temp.value) := payload]
    {
      temp := None;
      var tries := 0;
      while tries < ATTEMPTS
        invariant tries <= ATTEMPTS && tick == old(tick) + tries
        invariant Valid() && states == old(states) && actions == old(actions) && files == old(files)
        invariant forall j: nat :: old(tick) <= j < tick ==> Temp(luck.names(j)) in files
      {
        tries := tries + 1;
        var n := NextName();
        if Temp(n) !in files {
          temp, outcome := FillTemp(n, expected, payload);
          return;
        }
      }
      assert Temp(luck.names(old(tick))) in files;
      assert AllTaken(luck, old(tick), states[|actions|].files);
      outcome := Failed(NoFreeName);
    }

    method FillTemp(n: nat, expected: Option<Content>, payload: Content) returns (temp: Option<nat>, outcome: Outcome)
      requires Valid() && Now().phase.Idle? && Temp(n) !in files
      modifies this
      ensures Valid() && old(states) <= states && old(actions) <= actions && Quiet(states, |old(actions)|) && tick >= old(tick)
      ensures temp.Some? ==> temp.value == n && Now().phase == Prepared(n, expected, payload)
      ensures temp.None? ==> Now().phase.Idle? && (outcome.Failed? || outcome.Crashed?) && Blames(outcome, old(tick), |old(actions)|)
      ensures Calm(luck, old(tick)) ==> temp.Some? && files == old(files)[Temp(n) := payload]
    {
      files := files[Temp(n) := ""];
      Log(Open(n, expected, payload));
      temp, outcome := WriteTemp(n, expected, payload);
    }

    method WriteTemp(n: nat, expected: Option<Content>, payload: Content) returns (temp: Option<nat>, outcome: Outcome)
      requires Valid() && Now().phase == Opened(n, expected, payload)
      modifies this
      ensures Valid() && old(states) <= states && old(actions) <= actions && Quiet(states, |old(actions)|) && tick >= old(tick)
      ensures temp.Some? ==> temp.value == n && Now().phase == Prepared(n, expected, payload)
      ensures temp.None? ==> Now().phase.Idle? && (outcome.Failed? || outcome.Crashed?) && Blames(outcome, old(tick), |old(actions)|)
      ensures Calm(luck, old(tick)) ==> temp.Some? && files == old(files)[Temp(n) := payload]
    {
      temp, outcome := None, Crashed;
      var crashed := Between();
      if crashed {
        return;
      }
      var fails := Fails();
      if fails {
        Log(Throw);
        crashed := Abandon(n, None);
        outcome := if crashed then Crashed else Failed(OperationFailed);
        return;
      }
      files := files[Temp(n) := payload];
      Log(Fill);
      temp := Some(n);
    }

    /** The exception path: put a held backup back if the target is vacant, then clean the temporary file up. */
    method Abandon(temp: nat, held: Option<nat>) returns (crashed: bool)
      requires Valid() && Now().phase == Failing(temp, held)
      modifies this
      ensures Valid() && old(states) <= states && old(actions) <= actions && Quiet(states, |old(actions)|)
      ensures Now().phase.Idle? && tick >= old(tick)
      ensures crashed ==> CrashedSince(old(tick))
      ensures Calm(luck, old(tick)) ==>
                !crashed && files == (if held.Some? && Backup(held.value) in old(files) && Target !in old(files)
                                      then Move(old(files), Backup(held.value), Target) else old(files)) - {Temp(temp)}
    {
      crashed := Between();
      if crashed {
        return;
      }
      var fails := Fails();
      if held.Some? && !fails && Backup(held.value) in files && Target !in files {
        files := Move(files, Backup(held.value), Target);
      }
      Log(Rescue(!fails));
      crashed := CleanTemp(temp);
    }

    /** Scrub and unlink, each as far as it goes; a file that cannot be opened safely is left alone. */
    method CleanTemp(temp: nat) returns (crashed: bool)
      requires Valid() && Now().phase == Cleaning(temp)
      modifies this
      ensures Valid() && old(states) <= states && old(actions) <= actions && Quiet(states, |old(actions)|)
      ensures Now().phase.Idle? && tick >= old(tick)
      ensures crashed ==> CrashedSince(old(tick))
      ensures !crashed && !luck.fails(old(tick) + 1) && !luck.fails(old(tick) + 3) ==> Temp(temp) !in files
      ensures !crashed && !luck.fails(old(tick) + 1) && !luck.fails(old(tick) + 2) ==> Temp(temp) in files ==> files[Temp(temp)] == ""
      ensures Calm(luck, old(tick)) ==> !crashed && files == old(files) - {Temp(temp)}
    {
      crashed := Between();
      if crashed {
        return;
      }
      var untrusted := Fails();
      var unscrubbed := Fails();
      var linked := Fails();
      var how := if untrusted || (unscrubbed && linked) then Kept else if linked then Scrubbed else Removed;
      match how {
        case Kept =>
        case Scrubbed => if Temp(temp) in files { files := files[Temp(temp) := ""]; }
        case Removed => files := files - {Temp(temp)};
      }
      Log(Clean(how));
    }

    /** The target is renamed to a free name; a captured file that is no private regular file is put back. */
    method CaptureExistingTarget() returns (backup: Option<nat>, crashed: bool, cause: Cause)
      requires Valid() && Now().phase.Prepared? && Now().phase.expected.Some?
      modifies this
      ensures Valid() && old(states) <= states && old(actions) <= actions && Quiet(states, |old(actions)|) && tick >= old(tick)
      ensures var p := old(Now().phase);
              && (backup.Some? ==> !crashed && Now().phase == Holding(p.temp, backup.value, p.expected, p.payload))
              && (backup.None? ==> Now().phase == if crashed then Idle else Failing(p.temp, None))
      ensures crashed ==> CrashedSince(old(tick))
      ensures backup.None? && !crashed ==> Blames(Failed(cause), old(tick), |old(actions)|)
      ensures Calm(luck, old(tick)) && Target !in old(files) ==> backup.None? && !crashed && cause.TargetMissing? && files == old(files)
      ensures Calm(luck, old(tick)) && FreshBackups(luck, old(tick), old(files)) && Target in old(files) ==>
                backup.Some? && Backup(backup.value) !in old(files) && files == Move(old(files), Target, Backup(backup.value))
    {
      backup, crashed, cause := None, false, TargetMissing;
      if Target !in files {
        Log(Throw);
        return;
      }
      var fails := Fails();
      if fails {
        Log(Throw);
        cause := OperationFailed;
        return;
      }
      var tries := 0;
      ghost var start := tick;
      while tries < ATTEMPTS
        invariant tries <= ATTEMPTS && tick == start + tries && start == old(tick) + 1
        invariant Valid() && states == old(states) && actions == old(actions) && files == old(files)
        invariant forall j: nat :: start <= j < tick ==> Backup(luck.names(j)) in files
      {
        tries := tries + 1;
        var n := NextName();
        if Backup(n) !in files {
          backup, crashed, cause := TakeTarget(n);
          return;
        }
      }
      assert Backup(luck.names(start)) in files;
      assert AllTaken(luck, start, states[|actions|].files);
      Log(Throw);
      cause := NoFreeName;
    }

    /** The rename to the free name and the check of what was captured. */
    method TakeTarget(n: nat) returns (backup: Option<nat>, crashed: bool, cause: Cause)
      requires Valid() && Now().phase.Prepared? && Now().phase.expected.Some? && Target in files && Backup(n) !in files
      modifies this
      ensures Valid() && old(states) <= states && old(actions) <= actions && Quiet(states, |old(actions)|) && tick >= old(tick)
      ensures var p := old(Now().phase);
              && (backup.Some? ==> backup.value == n && !crashed && Now().phase == Holding(p.temp, n, p.expected, p.payload))
              && (backup.None? ==> Now().phase == if crashed then Idle else Failing(p.temp, None))
      ensures crashed ==> CrashedSince(old(tick))
      ensures backup.None? && !crashed ==> cause.OperationFailed? && FailedSince(old(tick))
      ensures Calm(luck, old(tick)) ==> backup.Some? && files == Move(old(files), Target, Backup(n))
    {
      backup, crashed, cause := None, false, OperationFailed;
      var fails := Fails();
      if fails {
        Log(Throw);
        return;
      }
      files := Move(files, Target, Backup(n));
      Log(Capture(n));
      var rejected;
      rejected, crashed := CheckCaptured(n);
      if !rejected && !crashed {
        backup := Some(n);
      }
    }

    /** A captured file that is no private regular file goes back at once. */
    method CheckCaptured(n: nat) returns (rejects: bool, crashed: bool)
      requires Valid() && Now().phase.Holding? && Now().phase.backup == n
      modifies this
      ensures Valid() && old(states) <= states && old(actions) <= actions && Quiet(states, |old(actions)|) && tick >= old(tick)
      ensures Now().phase == if crashed then Idle else if rejects then Failing(old(Now().phase.temp), None) else old(Now().phase)
      ensures crashed ==> CrashedSince(old(tick))
      ensures rejects && !crashed ==> FailedSince(old(tick))
      ensures Calm(luck, old(tick)) ==> !rejects && !crashed && files == old(files)
    {
      rejects := false;
      crashed := Between();
      if crashed {
        return;
      }
      rejects := Fails();
      if rejects {
        var stuck := Fails();
        if !stuck && Backup(n) in files && Target !in files {
          files := Move(files, Backup(n), Target);
        }
        Log(Reject(!stuck));
      }
    }

    /**
     * Capture, verify, publish. In calm the outcome is determined: exactly the
     * target changes, from the expected content to the payload; any other content
     * is left where it was.
     */
    method TransactionalRecoveryUpdate(expected: Content, payload: Content) returns (outcome: Outcome)
      requires Valid() && Now().phase.Idle?
      modifies this
      ensures Valid() && old(states) <= states && old(actions) <= actions && Now().phase.Idle? && tick >= old(tick)
      ensures outcome.Written? ==> outcome.payload == payload && PublishedSince(|old(actions)|, Some(expected), payload)
      ensures outcome.Raced? || outcome.Failed? ==> Quiet(states, |old(actions)|)
      ensures Blames(outcome, old(tick), |old(actions)|)
      ensures Calm(luck, old(tick)) && FreshNames(luck, old(tick), old(files)) ==>
                if Target !in old(files) then outcome == Failed(TargetMissing) && files == old(files)
                else if old(files)[Target] != expected then outcome.Raced? && files == old(files)
                else outcome == Written(payload) && files == old(files)[Target := payload]
    {
      var temp;
      temp, outcome := WritePrivateTemp(Some(expected), payload);
      if temp.None? {
        return;
      }
      outcome := CaptureAndSet(temp.value, expected, payload);
    }

    method CaptureAndSet(temp: nat, expected: Content, payload: Content) returns (outcome: Outcome)
      requires Valid() && Now().phase == Prepared(temp, Some(expected), payload)
      modifies this
      ensures Valid() && old(states) <= states && old(actions) <= actions && Now().phase.Idle? && tick >= old(tick)
      ensures outcome.Written? ==> outcome.payload == payload && PublishedSince(|old(actions)|, Some(expected), payload)
      ensures outcome.Raced? || outcome.Failed? ==> Quiet(states, |old(actions)|)
      ensures Blames(outcome, old(tick), |old(actions)|)
      ensures Calm(luck, old(tick)) && FreshBackups(luck, old(tick), old(files)) && Carries(old(files), temp, payload) ==>
                if Target !in old(files) then outcome == Failed(TargetMissing) && files == old(files) - {Temp(temp)}
                else if old(files)[Target] != expected then outcome.Raced? && files == old(files) - {Temp(temp)}
                else outcome == Written(payload) && files == (old(files) - {Temp(temp)})[Target := payload]
    {
      var crashed := Between();
      if crashed {
        return Crashed;
      }
      var backup, cause;
      backup, crashed, cause := CaptureExistingTarget();
      if crashed {
        return Crashed;
      }
      if backup.None? {
        crashed := Abandon(temp, None);
        return if crashed then Crashed else Failed(cause);
      }
      ghost var captured := files;
      outcome := VerifyCaptured(temp, backup.value, expected, payload);
      if Carries(old(files), temp, payload) && Target in old(files) && Backup(backup.value) !in old(files) {
        CaptureUndone(old(files), temp, backup.value);
      }
    }

    method VerifyCaptured(temp: nat, backup: nat, expected: Content, payload: Content) returns (outcome: Outcome)
      requires Valid() && Now().phase == Holding(temp, backup, Some(expected), payload)
      modifies this
      ensures Valid() && old(states) <= states && old(actions) <= actions && Now().phase.Idle? && tick >= old(tick)
      ensures outcome.Written? ==> outcome.payload == payload && PublishedSince(|old(actions)|, Some(expected), payload)
      ensures outcome.Raced? || outcome.Failed? ==> Quiet(states, |old(actions)|)
      ensures Blames(outcome, old(tick), |old(actions)|)
      ensures Calm(luck, old(tick)) && Backup(backup) in old(files) && Target !in old(files) && Carries(old(files), temp, payload) ==>
                if old(files)[Backup(backup)] != expected then outcome.Raced? && files == Move(old(files), Backup(backup), Target) - {Temp(temp)}
                else outcome == Written(payload) && files == Move(old(files), Temp(temp), Target) - {Backup(backup)}
    {
      var crashed := Between();
      if crashed {
        return Crashed;
      }
      outcome := Compare(temp, backup, expected, payload);
    }

    method Compare(temp: nat, backup: nat, expected: Content, payload: Content) returns (outcome: Outcome)
      requires Valid() && Now().phase == Holding(temp, backup, Some(expected), payload)
      modifies this
      ensures Valid() && old(states) <= states && old(actions) <= actions && Now().phase.Idle? && tick >= old(tick)
      ensures outcome.Written? ==> outcome.payload == payload && PublishedSince(|old(actions)|, Some(expected), payload)
      ensures outcome.Raced? || outcome.Failed? ==> Quiet(states, |old(actions)|)
      ensures Blames(outcome, old(tick), |old(actions)|)
      ensures Calm(luck, old(tick)) && Backup(backup) in old(files) && Target !in old(files) && Carries(old(files), temp, payload) ==>
                if old(files)[Backup(backup)] != expected then outcome.Raced? && files == Move(old(files), Backup(backup), Target) - {Temp(temp)}
                else outcome == Written(payload) && files == Move(old(files), Temp(temp), Target) - {Backup(backup)}
    {
      var fails := Fails();
      ghost var (seen, world) := (|actions|, states[|actions|]);
      if fails || Backup(backup) !in files {
        Log(Inspect(false));
        var crashed := Abandon(temp, Some(backup));
        assert states[seen] == world;
        return if crashed then Crashed else if fails then Failed(OperationFailed) else Failed(BackupMissing);
      }
      var captured := files[Backup(backup)];
      Log(Inspect(true));
      if captured != expected {
        assert IsConflict(states[|actions| - 1], actions[|actions| - 1], states[|actions|]);
        var crashed := RestoreCaptured(temp, backup);
        return if crashed then Crashed else Raced;
      }
      outcome := Publish(temp, Some(backup), Some(expected), payload);
    }

    /** `_restore_captured_target` and what follows it: the held backup goes back, and only onto a vacant target. */
    method RestoreCaptured(temp: nat, backup: nat) returns (crashed: bool)
      requires Valid() && Now().phase == Mismatched(temp, backup)
      modifies this
      ensures Valid() && old(states) <= states && old(actions) <= actions && Now().phase.Idle? && tick >= old(tick)
      ensures Quiet(states, |old(actions)|)
      ensures crashed ==> CrashedSince(old(tick))
      ensures Calm(luck, old(tick)) ==>
                !crashed && files == (if Backup(backup) in old(files) && Target !in old(files)
                                      then Move(old(files), Backup(backup), Target) else old(files)) - {Temp(temp)}
    {
      crashed := Between();
      if crashed {
        return;
      }
      var fails := Fails();
      var restored := !fails && Backup(backup) in files && Target !in files;
      if restored {
        files := Move(files, Backup(backup), Target);
      }
      Log(Restore(!fails));
      crashed := Abandon(temp, if restored then None else Some(backup));
    }

    /** The no-replace rename of the temporary file, and the clean-up on either side of it. */
    method Publish(temp: nat, held: Option<nat>, expected: Option<Content>, payload: Content) returns (outcome: Outcome)
      requires Valid()
      requires Now().phase == if held.Some? then Verified(temp, held.value, expected, payload) else Prepared(temp, expected, payload)
      requires held.Some? <==> expected.Some?
      modifies this
      ensures Valid() && old(states) <= states && old(actions) <= actions && Now().phase.Idle? && tick >= old(tick)
      ensures outcome.Written? ==> outcome.payload == payload && PublishedSince(|old(actions)|, expected, payload)
      ensures outcome.Raced? || outcome.Failed? ==> Quiet(states, |old(actions)|)
      ensures Blames(outcome, old(tick), |old(actions)|)
      ensures Calm(luck, old(tick)) && Temp(temp) in old(files) ==>
                if Target in old(files) then outcome.Raced? && files == old(files) - {Temp(temp)}
                else outcome == Written(payload) &&
                     files == Move(old(files), Temp(temp), Target) - (if held.Some? then {Backup(held.value)} else {})
    {
      var crashed := Between();
      if crashed {
        return Crashed;
      }
      outcome := RenameIntoPlace(temp, held, expected, payload);
    }

    method RenameIntoPlace(temp: nat, held: Option<nat>, expected: Option<Content>, payload: Content) returns (outcome: Outcome)
      requires Valid()
      requires Now().phase == if held.Some? then Verified(temp, held.value, expected, payload) else Prepared(temp, expected, payload)
      requires held.Some? <==> expected.Some?
      modifies this
      ensures Valid() && old(states) <= states && old(actions) <= actions && Now().phase.Idle? && tick >= old(tick)
      ensures outcome.Written? ==> outcome.payload == payload && PublishedSince(|old(actions)|, expected, payload)
      ensures outcome.Raced? || outcome.Failed? ==> Quiet(states, |old(actions)|)
      ensures Blames(outcome, old(tick), |old(actions)|)
      ensures Calm(luck, old(tick)) && Temp(temp) in old(files) ==>
                if Target in old(files) then outcome.Raced? && files == old(files) - {Temp(temp)}
                else outcome == Written(payload) &&
                     files == Move(old(files), Temp(temp), Target) - (if held.Some? then {Backup(held.value)} else {})
    {
      assert Temp(temp) in files by {
        InvAlways(states, actions, |actions|);
      }
      var fails := Fails();
      var taken := Target in files;
      if !fails && !taken {
        var crashed := MoveIntoPlace(temp, held, expected, payload);
        return if crashed then Crashed else Written(payload);
      }
      Log(Link(false));
      assert taken ==> IsConflict(states[|actions| - 1], actions[|actions| - 1], states[|actions|]);
      var crashed := Abandon(temp, held);
      outcome := if crashed then Crashed else if taken then Raced else Failed(OperationFailed);
    }

    method MoveIntoPlace(temp: nat, held: Option<nat>, expected: Option<Content>, payload: Content) returns (crashed: bool)
      requires Valid() && Target !in files && Temp(temp) in files
      requires Now().phase == if held.Some? then Verified(temp, held.value, expected, payload) else Prepared(temp, expected, payload)
      requires held.Some? <==> expected.Some?
      modifies this
      ensures Valid() && old(states) <= states && old(actions) <= actions && Now().phase.Idle? && tick >= old(tick)
      ensures PublishedSince(|old(actions)|, expected, payload)
      ensures crashed ==> CrashedSince(old(tick))
      ensures Calm(luck, old(tick)) ==>
                !crashed && files == Move(old(files), Temp(temp), Target) - (if held.Some? then {Backup(held.value)} else {})
    {
      files := Move(files, Temp(temp), Target);
      Log(Link(true));
      assert IsPublication(states[|old(actions)|], actions[|old(actions)|], states[|old(actions)| + 1], expected, payload);
      crashed := CleanUp(held);
    }

    /**
     * After publication: keep the backup, whole, when the directory could not be synced or
     * the backup cannot be opened safely, else try to empty it, and to unlink it
     * even if that failed.
     */
    method CleanUp(held: Option<nat>) returns (crashed: bool)
      requires Valid() && Now().phase.Published? && Now().phase.held == held
      modifies this
      ensures Valid() && old(states) <= states && old(actions) <= actions && Now().phase.Idle? && tick >= old(tick)
      ensures crashed ==> CrashedSince(old(tick))
      ensures luck.others(old(tick)) == [] && (luck.fails(old(tick) + 1) || luck.fails(old(tick) + 2)) ==> files == old(files)
      ensures Calm(luck, old(tick)) ==> !crashed && files == old(files) - (if held.Some? then {Backup(held.value)} else {})
    {
      crashed := Between();
      if crashed {
        return;
      }
      var unsynced := Fails();
      var untrusted := Fails();
      if unsynced || untrusted || held.None? || Backup(held.value) !in files {
        Log(Settle(unsynced || untrusted));
        return;
      }
      crashed := DropBackup(held.value);
    }

    method DropBackup(backup: nat) returns (crashed: bool)
      requires Valid() && Now().phase.Published? && Now().phase.held == Some(backup) && Backup(backup) in files
      modifies this
      ensures Valid() && old(states) <= states && old(actions) <= actions && Now().phase.Idle? && tick >= old(tick)
      ensures crashed ==> CrashedSince(old(tick))
      ensures Calm(luck, old(tick)) ==> !crashed && files == old(files) - {Backup(backup)}
    {
      var unscrubbed := Fails();
      if !unscrubbed {
        files := files[Backup(backup) := ""];
      }
      Log(Truncate(!unscrubbed));
      crashed := UnlinkBackup(backup);
    }

    method UnlinkBackup(backup: nat) returns (crashed: bool)
      requires Valid() && Now().phase.Truncated? && Now().phase.backup == backup
      modifies this
      ensures Valid() && old(states) <= states && old(actions) <= actions && Now().phase.Idle? && tick >= old(tick)
      ensures crashed ==> CrashedSince(old(tick))
      ensures luck.others(old(tick)) == [] && !crashed ==>
                files == if luck.fails(old(tick) + 1) then old(files) else old(files) - {Backup(backup)}
    {
      crashed := Between();
      if crashed {
        return;
      }
      var linked := Fails();
      if !linked {
        files := files - {Backup(backup)};
      }
      Log(Unlink(!linked));
    }

    /** `write_env_file(replace=False)`: creates the target, never replaces it. */
    method CreateEnvFile(payload: Content) returns (outcome: Outcome)
      requires Valid() && Now().phase.Idle?
      modifies this
      ensures Valid() && old(states) <= states && old(actions) <= actions && Now().phase.Idle? && tick >= old(tick)
      ensures outcome.Written? ==> outcome.payload == payload && PublishedSince(|old(actions)|, None, payload)
      ensures outcome.Raced? || outcome.Failed? ==> Quiet(states, |old(actions)|)
      ensures Blames(outcome, old(tick), |old(actions)|)
      ensures Calm(luck, old(tick)) && FreshNames(luck, old(tick), old(files)) ==>
                if Target in old(files) then outcome.Raced? && files == old(files)
                else outcome == Written(payload) && files == old(files)[Target := payload]
    {
      var temp;
      temp, outcome := WritePrivateTemp(None, payload);
      if temp.None? {
        return;
      }
      outcome := Publish(temp.value, None, None, payload);
    }

    /**
     * Success means: the target went from exactly the expected bytes to the merged
     * mapping, which reads back as such. In calm, success is what happens, if the
     * expected text is readable, the updates are valid, and the target is as
     * expected; nothing else changes.
     */
    method UpdateEnvFile(updates: Env, expected: Option<Content>) returns (outcome: Outcome)
      requires Valid() && Now().phase.Idle? && EnvFile.Distinct(updates)
      modifies this
      ensures Valid() && old(states) <= states && old(actions) <= actions && Now().phase.Idle? && tick >= old(tick)
      ensures outcome.Raced? || outcome.Failed? ==> Quiet(states, |old(actions)|)
      ensures outcome.Written? ==>
                PublishedSince(|old(actions)|, expected, outcome.payload) && IsMerge(expected, updates, outcome.payload)
      ensures outcome == Failed(Unreadable) <==> Before(expected).Malformed?
      ensures outcome == Failed(Unprintable) <==> Before(expected).Parsed? && !Printable(Merged(Before(expected).env, updates))
      ensures outcome != Failed(Unreadable) && outcome != Failed(Unprintable) ==> Blames(outcome, old(tick), |old(actions)|)
      ensures outcome == Failed(Unreadable) || outcome == Failed(Unprintable) ==> files == old(files)
      ensures Calm(luck, old(tick)) && FreshNames(luck, old(tick), old(files)) &&
              Before(expected).Parsed? && Printable(Merged(Before(expected).env, updates)) ==>
                if expected == Found(old(files)) then outcome.Written? && files == old(files)[Target := outcome.payload]
                else files == old(files) && if Target in old(files) then outcome.Raced? else outcome == Failed(TargetMissing)
    {
      var current: Env := [];
      if expected.Some? {
        var reading := ReadEnvText(expected.value);
        if reading.Malformed? {
          return Failed(Unreadable);
        }
        current := reading.env;
        ReadLinesDistinct([], Text.SplitLines(expected.value), 1);
      }
      var merged := Merged(current, updates);
      MergedDistinct(current, updates);
      var payload := SerializeEnv(merged);
      if payload.None? {
        return Failed(Unprintable);
      }
      RoundTrip(merged);
      if expected.None? {
        outcome := CreateEnvFile(payload.value);
      } else {
        outcome := TransactionalRecoveryUpdate(expected.value, payload.value);
      }
    }

    /** `_recover_missing_env_target` as one atomic call. */
    method RecoverMissingTarget() returns (result: Recovery)
      requires Valid()
      modifies this
      ensures Valid() && old(states) <= states && old(actions) <= actions && tick >= old(tick)
      ensures result.NotNeeded? <==> Target in old(files) || forall n: nat :: Backup(n) !in old(files)
      ensures result.Recovered? ==> exists n: nat :: Sole(old(files), n) && Target !in old(files) && files == Move(old(files), Backup(n), Target)
      ensures !result.Recovered? ==> files == old(files)
      ensures result.Refused? ==>
                || (exists m: nat, n: nat :: m != n && Backup(m) in old(files) && Backup(n) in old(files))
                || (exists n: nat :: Sole(old(files), n) && Before(Some(old(files)[Backup(n)])).Malformed?)
                || FailedSince(old(tick))
      ensures old(Now().newest).Some? && result != Refused ==>
                Target in files && files[Target] == old(Now().newest).value
      ensures !old(Now().deleted) && old(Now().newest).None? ==> result == NotNeeded
    {
      InvAlways(states, actions, |actions|);
      if Target in files {
        return NotNeeded;
      }
      var backups := BackupNames();
      if backups == {} {
        assert forall n: nat :: Backup(n) in files ==> n in backups;
        return NotNeeded;
      }
      var n :| n in backups;
      assert Backup(n) in files;
      if backups != {n} {
        var m :| m in backups && m != n;
        assert Backup(m) in files;
        return Refused;
      }
      SoleBackup(files, backups, n);
      var unreadable := Fails();
      var reading := ReadEnvText(files[Backup(n)]);
      if reading.Malformed? || unreadable {
        return Refused;
      }
      var stuck := Fails();
      if stuck {
        return Refused;
      }
      files := Move(files, Backup(n), Target);
      Log(Recover(n));
      InvAlways(states, actions, |actions|);
      result := Recovered;
    }

    /** Some step since `from` put the payload at the vacant target, having verified that it replaces `expected`. */
    ghost predicate PublishedSince(from: nat, expected: Option<Content>, payload: Content)
      reads this
      requires |states| == |actions| + 1
    {
      exists i :: from <= i < |actions| && IsPublication(states[i], actions[i], states[i + 1], expected, payload)
    }
  }

  /** The content at the target, if there is one. */
  function Found(files: Directory): Option<Content> {
    if Target in files then Some(files[Target]) else None
  }

  /** What the expected content reads as. */
  function Before(expected: Option<Content>): Reading {
    if expected.Some? then ReadLines([], Text.SplitLines(expected.value), 1) else Parsed([])
  }

  predicate Printable(env: Env) {
    forall i :: 0 <= i < |env| ==> ValidItem(env[i])
  }

  ghost predicate IsPublication(w: World, a: Action, w': World, expected: Option<Content>, payload: Content) {
    && a.Link? && w'.phase.Published? && (w.phase.Verified? || w.phase.Prepared?)
    && w.phase.expected == expected && w.phase.payload == payload
  }

  /** The payload reads as the expected mapping overlaid with the updates. */
  ghost predicate IsMerge(expected: Option<Content>, updates: Env, payload: Content) {
    Before(expected).Parsed? && Before(Some(payload)) == Parsed(Merged(Before(expected).env, updates))
  }

  lemma {:induction false} MergedDistinct(env: Env, updates: Env)
    requires EnvFile.Distinct(env)
    ensures EnvFile.Distinct(Merged(env, updates))
    decreases |updates|
  {
    if updates != [] {
      MergedDistinct(EnvFile.Put(env, updates[0].0, updates[0].1), updates[1..]);
    }
  }

  lemma {:induction false} ReadLinesDistinct(env: Env, lines: seq<string>, number: nat)
    requires EnvFile.Distinct(env) && ReadLines(env, lines, number).Parsed?
    ensures EnvFile.Distinct(ReadLines(env, lines, number).env)
    decreases |lines|
  {
    if lines != [] {
      ReadLinesDistinct(ReadLine(env, lines[0]).value, lines[1..], number + 1);
    }
  }

  /** What is left of a capture once the backup is back, or the payload in its place. */
  lemma CaptureUndone(files: Directory, temp: nat, backup: nat)
    requires Target in files && Temp(temp) in files && Backup(backup) !in files
    ensures var captured := Move(files, Target, Backup(backup));
            && captured[Backup(backup)] == files[Target] && Target !in captured && captured[Temp(temp)] == files[Temp(temp)]
            && Move(captured, Backup(backup), Target) == files
            && Move(captured, Temp(temp), Target) - {Backup(backup)} == (files - {Temp(temp)})[Target := files[Temp(temp)]]
  {
    assert Move(Move(files, Target, Backup(backup)), Backup(backup), Target) == files;
  }

  /** The temporary file is there, with the payload. */
  predicate Carries(files: Directory, temp: nat, payload: Content) {
    Temp(temp) in files && files[Temp(temp)] == payload
  }

  ghost predicate IsConflict(w: World, a: Action, w': World) {
    || (a == Inspect(true) && w'.phase.Mismatched?)
    || (a.Link? && Target in w.files)
  }
}
