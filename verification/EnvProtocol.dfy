/**
 * Publication of user.env in app/config.py as a step machine over a directory:
 * every rename, write, truncation and unlink of an update is one step, a crash
 * may fall between any two of them, and other processes act in between. Renames
 * are atomic and never replace. Updaters are serialized by the snapshot lock.
 */
module EnvProtocol {
  import opened Basics

  type Content = string

  datatype Name = Target | Backup(n: nat) | Temp(n: nat)

  type Directory = map<Name, Content>

  /** Where the updater is; `expected` is the snapshot it started from. */
  datatype Phase =
    | Idle
    | Opened(temp: nat, expected: Option<Content>, payload: Content)
    | Prepared(temp: nat, expected: Option<Content>, payload: Content)
    | Holding(temp: nat, backup: nat, expected: Option<Content>, payload: Content)
    | Verified(temp: nat, backup: nat, expected: Option<Content>, payload: Content)
    | Mismatched(temp: nat, backup: nat)
    | Failing(temp: nat, held: Option<nat>)
    | Cleaning(temp: nat)
    | Published(held: Option<nat>, expected: Option<Content>)
    | Truncated(backup: nat, expected: Option<Content>, emptied: bool)

  /**
   * `newest` is the content last put at the target by anyone, if nobody has
   * deleted the target since, `deleted` whether anybody ever did.
   */
  datatype World = World(files: Directory, newest: Option<Content>, deleted: bool, phase: Phase)

  datatype Cleanup = Kept | Scrubbed | Removed

  /** `moves`, `readable`, `keep` and `how` are the outcomes of file operations that may fail. */
  datatype Action =
    | Open(n: nat, expected: Option<Content>, payload: Content)
    | Fill
    | Capture(n: nat)
    | Inspect(readable: bool)
    | Restore(moves: bool)
    | Reject(moves: bool)
    | Link(moves: bool)
    | Throw
    | Rescue(moves: bool)
    | Clean(how: Cleanup)
    | Settle(keep: bool)
    | Truncate(emptied: bool)
    | Unlink(removed: bool)
    | Crash
    | Recover(n: nat)
    | Create(content: Content)
    | Replace(content: Content)
    | Delete

  /** The glob of recovery backups finds exactly this one. */
  ghost predicate Sole(files: Directory, n: nat) {
    Backup(n) in files && forall m: nat :: Backup(m) in files ==> m == n
  }

  predicate CanMove(files: Directory, from: Name, to: Name) {
    from in files && to !in files
  }

  /** Atomic rename without replacement. */
  function Move(files: Directory, from: Name, to: Name): Directory
    requires CanMove(files, from, to)
  {
    (files - {from})[to := files[from]]
  }

  function Held(phase: Phase): Option<nat> {
    match phase
    case Holding(_, backup, _, _) => Some(backup)
    case Verified(_, backup, _, _) => Some(backup)
    case Mismatched(_, backup) => Some(backup)
    case Failing(_, held) => held
    case Published(held, _) => held
    case Truncated(backup, _, _) => Some(backup)
    case _ => None
  }

  predicate CanFail(phase: Phase) {
    phase.Opened? || phase.Prepared? || phase.Holding? || phase.Verified?
  }

  ghost predicate Enabled(w: World, a: Action) {
    match a
    case Open(n, _, _) => w.phase.Idle? && Temp(n) !in w.files
    case Fill => w.phase.Opened?
    case Capture(n) => w.phase.Prepared? && w.phase.expected.Some? && CanMove(w.files, Target, Backup(n))
    case Inspect(_) => w.phase.Holding?
    case Restore(_) => w.phase.Mismatched?
    case Reject(_) => w.phase.Holding?
    case Link(_) => w.phase.Verified? || (w.phase.Prepared? && w.phase.expected.None?)
    case Throw => CanFail(w.phase)
    case Rescue(_) => w.phase.Failing?
    case Clean(_) => w.phase.Cleaning?
    case Settle(keep) => w.phase.Published? && (keep || w.phase.held.None? || Backup(w.phase.held.value) !in w.files)
    case Truncate(_) => w.phase.Published? && w.phase.held.Some? && Backup(w.phase.held.value) in w.files
    case Unlink(_) => w.phase.Truncated?
    case Crash => true
    case Recover(n) => Target !in w.files && Sole(w.files, n)
    case Create(_) => Target !in w.files
    case Replace(_) => Target in w.files
    case Delete => Target in w.files
  }

  /** Puts a held backup back when the target is still vacant. */
  function PutBack(files: Directory, backup: nat, moves: bool): Directory {
    if moves && CanMove(files, Backup(backup), Target) then Move(files, Backup(backup), Target) else files
  }

  function DoInspect(w: World, readable: bool): World
    requires w.phase.Holding?
  {
    var p := w.phase;
    if !readable || Backup(p.backup) !in w.files then w.(phase := Failing(p.temp, Some(p.backup)))
    else if Some(w.files[Backup(p.backup)]) == p.expected then w.(phase := Verified(p.temp, p.backup, p.expected, p.payload))
    else w.(phase := Mismatched(p.temp, p.backup))
  }

  function DoRestore(w: World, moves: bool): World
    requires w.phase.Mismatched?
  {
    var restored := moves && CanMove(w.files, Backup(w.phase.backup), Target);
    w.(files := PutBack(w.files, w.phase.backup, moves),
       phase := Failing(w.phase.temp, if restored then None else Some(w.phase.backup)))
  }

  function DoLink(w: World, moves: bool): World
    requires w.phase.Verified? || w.phase.Prepared?
  {
    var p := w.phase;
    if moves && CanMove(w.files, Temp(p.temp), Target) then
      World(Move(w.files, Temp(p.temp), Target), Some(w.files[Temp(p.temp)]), w.deleted, Published(Held(p), p.expected))
    else w.(phase := Failing(p.temp, Held(p)))
  }

  function DoRescue(w: World, moves: bool): World
    requires w.phase.Failing?
  {
    w.(files := if w.phase.held.Some? then PutBack(w.files, w.phase.held.value, moves) else w.files,
       phase := Cleaning(w.phase.temp))
  }

  function DoClean(w: World, how: Cleanup): World
    requires w.phase.Cleaning?
  {
    var temp := Temp(w.phase.temp);
    w.(phase := Idle,
       files := match how
                case Kept => w.files
                case Scrubbed => if temp in w.files then w.files[temp := ""] else w.files
                case Removed => w.files - {temp})
  }

  function Apply(w: World, a: Action): World
    requires Enabled(w, a)
  {
    match a
    case Open(n, expected, payload) => w.(files := w.files[Temp(n) := ""], phase := Opened(n, expected, payload))
    case Fill =>
      w.(files := w.files[Temp(w.phase.temp) := w.phase.payload],
         phase := Prepared(w.phase.temp, w.phase.expected, w.phase.payload))
    case Capture(n) =>
      w.(files := Move(w.files, Target, Backup(n)), phase := Holding(w.phase.temp, n, w.phase.expected, w.phase.payload))
    case Inspect(readable) => DoInspect(w, readable)
    case Restore(moves) => DoRestore(w, moves)
    case Reject(moves) => w.(files := PutBack(w.files, w.phase.backup, moves), phase := Failing(w.phase.temp, None))
    case Link(moves) => DoLink(w, moves)
    case Throw => w.(phase := Failing(w.phase.temp, Held(w.phase)))
    case Rescue(moves) => DoRescue(w, moves)
    case Clean(how) => DoClean(w, how)
    case Settle(_) => w.(phase := Idle)
    case Truncate(emptied) =>
      w.(files := if emptied then w.files[Backup(w.phase.held.value) := ""] else w.files,
         phase := Truncated(w.phase.held.value, w.phase.expected, emptied))
    case Unlink(removed) => w.(files := if removed then w.files - {Backup(w.phase.backup)} else w.files, phase := Idle)
    case Crash => w.(phase := Idle)
    case Recover(n) => w.(files := Move(w.files, Backup(n), Target))
    case Create(content) => w.(files := w.files[Target := content], newest := Some(content))
    case Replace(content) => w.(files := w.files[Target := content], newest := Some(content))
    case Delete => w.(files := w.files - {Target}, newest := None, deleted := true)
  }

  /** A directory with at most a target, and nobody at work. */
  function Start(content: Option<Content>): World {
    World(if content.Some? then map[Target := content.value] else map[], content, false, Idle)
  }

  // ----- the invariant -----

  /** Backup `n`, if it is there, holds exactly `content`. */
  predicate Keeps(files: Directory, n: nat, content: Option<Content>) {
    Backup(n) in files ==> Some(files[Backup(n)]) == content
  }

  /** While the target is vacant, the newest content is in backup `n`. */
  predicate Safe(w: World, n: nat) {
    Target !in w.files ==> w.newest.Some? && Backup(n) in w.files && w.files[Backup(n)] == w.newest.value
  }

  ghost predicate SomewhereSafe(w: World) {
    exists n: nat :: Safe(w, n)
  }

  /** What holds of the files at each point of an update. */
  predicate PhaseOk(w: World) {
    match w.phase
    case Prepared(temp, _, payload) => Temp(temp) in w.files && w.files[Temp(temp)] == payload
    case Holding(temp, backup, _, payload) =>
      Temp(temp) in w.files && w.files[Temp(temp)] == payload && (w.newest.Some? ==> Safe(w, backup))
    case Verified(temp, backup, expected, payload) =>
      && Temp(temp) in w.files && w.files[Temp(temp)] == payload && expected.Some?
      && Keeps(w.files, backup, expected) && (w.newest.Some? ==> Safe(w, backup))
    case Mismatched(temp, backup) => w.newest.Some? ==> Safe(w, backup)
    case Failing(temp, Some(backup)) => w.newest.Some? ==> Safe(w, backup)
    case Published(Some(backup), expected) =>
      expected.Some? && Keeps(w.files, backup, expected) && (w.newest.Some? ==> Target in w.files)
    case Truncated(backup, expected, emptied) => Keeps(w.files, backup, if emptied then Some("") else expected) && (w.newest.Some? ==> Target in w.files)
    case _ => true
  }

  /**
   * Unless it was deleted since it was last put, the newest content is at the
   * target or, while that is vacant, in a backup; a directory without a history
   * has neither.
   */
  ghost predicate Inv(w: World) {
    && (Target in w.files && w.newest.Some? ==> w.newest == Some(w.files[Target]))
    && (w.newest.Some? ==> SomewhereSafe(w))
    && (!w.deleted && w.newest.None? ==> Target !in w.files && forall n: nat :: Backup(n) !in w.files)
    && PhaseOk(w)
  }

  lemma InvInitially(content: Option<Content>)
    ensures Inv(Start(content))
  {
    if content.Some? {
      assert Safe(Start(content), 0);
    }
  }

  lemma InvStep(w: World, a: Action)
    requires Inv(w) && Enabled(w, a)
    ensures Inv(Apply(w, a))
  {
    match a
    case Open(n, expected, payload) => SameFilesHeld(w, Apply(w, a));
    case Fill => SameFilesHeld(w, Apply(w, a));
    case Capture(n) => InvCapture(w, n);
    case Inspect(readable) => InvInspect(w, readable);
    case Restore(moves) => InvRestore(w, moves);
    case Reject(moves) => InvReject(w, moves);
    case Link(moves) => InvLink(w, moves);
    case Throw => SameFilesHeld(w, Apply(w, a));
    case Rescue(moves) => InvRescue(w, moves);
    case Clean(how) => SameFilesHeld(w, DoClean(w, how));
    case Settle(keep) => SameFilesHeld(w, Apply(w, a));
    case Truncate(_) => InvDiscard(w, Apply(w, a), w.phase.held.value);
    case Unlink(removed) => InvDiscard(w, Apply(w, a), w.phase.backup);
    case Crash => SameFilesHeld(w, Apply(w, a));
    case Recover(n) => InvRecover(w, n);
    case Create(content) => InvTarget(w, content);
    case Replace(content) => InvTarget(w, content);
    case Delete =>
  }

  /** Only temporary files change. */
  lemma SameFilesHeld(w: World, w': World)
    requires Inv(w) && PhaseOk(w')
    requires w'.newest == w.newest && w'.deleted == w.deleted
    requires forall name: Name :: !name.Temp? ==> (name in w.files <==> name in w'.files) && (name in w.files ==> w'.files[name] == w.files[name])
    ensures Inv(w')
  {
    if w.newest.Some? {
      var n :| Safe(w, n);
      assert Safe(w', n);
    }
  }

  lemma InvCapture(w: World, n: nat)
    requires Inv(w) && Enabled(w, Capture(n))
    ensures Inv(Apply(w, Capture(n)))
  {
    assert w.newest.Some? ==> Safe(Apply(w, Capture(n)), n);
  }

  lemma InvInspect(w: World, readable: bool)
    requires Inv(w) && Enabled(w, Inspect(readable))
    ensures Inv(DoInspect(w, readable))
  {
    SameFilesHeld(w, DoInspect(w, readable));
  }

  /** Putting a safe backup back restores the newest content. */
  lemma PutBackKeeps(w: World, w': World, backup: nat, moves: bool)
    requires Inv(w) && (w.newest.Some? ==> Safe(w, backup))
    requires w'.files == PutBack(w.files, backup, moves) && w'.newest == w.newest && w'.deleted == w.deleted && PhaseOk(w')
    ensures Inv(w')
  {
    assert w.newest.Some? ==> Safe(w', backup);
  }

  lemma InvRestore(w: World, moves: bool)
    requires Inv(w) && Enabled(w, Restore(moves))
    ensures Inv(DoRestore(w, moves))
  {
    PutBackKeeps(w, DoRestore(w, moves), w.phase.backup, moves);
  }

  lemma InvReject(w: World, moves: bool)
    requires Inv(w) && Enabled(w, Reject(moves))
    ensures Inv(Apply(w, Reject(moves)))
  {
    PutBackKeeps(w, Apply(w, Reject(moves)), w.phase.backup, moves);
  }

  lemma InvRescue(w: World, moves: bool)
    requires Inv(w) && Enabled(w, Rescue(moves))
    ensures Inv(DoRescue(w, moves))
  {
    if w.phase.held.Some? {
      PutBackKeeps(w, DoRescue(w, moves), w.phase.held.value, moves);
    } else {
      SameFilesHeld(w, DoRescue(w, moves));
    }
  }

  lemma InvLink(w: World, moves: bool)
    requires Inv(w) && Enabled(w, Link(moves))
    ensures Inv(DoLink(w, moves))
  {
    var w' := DoLink(w, moves);
    if w'.phase.Published? {
      assert Safe(w', 0);
    } else {
      SameFilesHeld(w, w');
    }
  }

  /** A backup is emptied or removed only while the target is there. */
  lemma InvDiscard(w: World, w': World, backup: nat)
    requires Inv(w) && (w.newest.Some? ==> Target in w.files) && PhaseOk(w')
    requires w'.newest == w.newest && w'.deleted == w.deleted
    requires forall name: Name :: name != Backup(backup) ==> (name in w.files <==> name in w'.files) && (name in w.files ==> w'.files[name] == w.files[name])
    requires Backup(backup) in w'.files ==> Backup(backup) in w.files
    ensures Inv(w')
  {
    assert w.newest.Some? ==> Safe(w', 0);
  }

  lemma InvRecover(w: World, n: nat)
    requires Inv(w) && Enabled(w, Recover(n))
    ensures Inv(Apply(w, Recover(n)))
  {
    var w' := Apply(w, Recover(n));
    if w.newest.Some? {
      var m :| Safe(w, m);
      assert m == n;
      assert Safe(w', n);
    }
  }

  lemma InvTarget(w: World, content: Content)
    requires Inv(w)
    ensures Inv(w.(files := w.files[Target := content], newest := Some(content)))
  {
    assert Safe(w.(files := w.files[Target := content], newest := Some(content)), 0);
  }

  // ----- runs -----

  ghost predicate Follows(w: World, a: Action, w': World) {
    Enabled(w, a) && w' == Apply(w, a)
  }

  ghost predicate Run(states: seq<World>, actions: seq<Action>) {
    && |states| == |actions| + 1 && (exists content: Option<Content> :: states[0] == Start(content))
    && forall i :: 0 <= i < |actions| ==> Follows(states[i], actions[i], states[i + 1])
  }

  lemma {:induction false} InvAlways(states: seq<World>, actions: seq<Action>, i: nat)
    requires Run(states, actions) && i <= |actions|
    ensures Inv(states[i])
  {
    if i == 0 {
      var content: Option<Content> :| states[0] == Start(content);
      InvInitially(content);
    } else {
      InvAlways(states, actions, i - 1);
      assert Follows(states[i - 1], actions[i - 1], states[i]);
      InvStep(states[i - 1], actions[i - 1]);
    }
  }

  /** The step puts new content at the target: a publication, or another process's write. */
  predicate Puts(a: Action, w': World) {
    a.Create? || a.Replace? || (a.Link? && w'.phase.Published?)
  }

  /** The content last put at the target before state `i`, whatever became of it. */
  function LastPut(states: seq<World>, actions: seq<Action>, i: nat): Option<Content>
    requires i <= |actions| && |states| == |actions| + 1
  {
    if i == 0 then states[0].newest
    else if Puts(actions[i - 1], states[i]) && Target in states[i].files then Some(states[i].files[Target])
    else LastPut(states, actions, i - 1)
  }

  /** Somebody deleted the target since content was last put there. */
  predicate DeletedSince(states: seq<World>, actions: seq<Action>, i: nat)
    requires i <= |actions| && |states| == |actions| + 1
  {
    i > 0 && (actions[i - 1].Delete? || (!Puts(actions[i - 1], states[i]) && DeletedSince(states, actions, i - 1)))
  }

  lemma NewestStep(w: World, a: Action)
    requires Enabled(w, a)
    ensures var w' := Apply(w, a);
            && (Puts(a, w') ==> Target in w'.files && w'.newest == Some(w'.files[Target]) && w'.deleted == w.deleted)
            && (a.Delete? ==> w'.newest.None?)
            && (!Puts(a, w') && !a.Delete? ==> w'.newest == w.newest && w'.deleted == w.deleted)
  {
  }

  /** The newest content is the one last put at the target, as long as nobody deletes it. */
  lemma {:induction false} NewestIsLastPut(states: seq<World>, actions: seq<Action>, i: nat)
    requires Run(states, actions) && i <= |actions|
    ensures states[i].newest == if DeletedSince(states, actions, i) then None else LastPut(states, actions, i)
    ensures states[i].deleted && !DeletedSince(states, actions, i) ==> LastPut(states, actions, i).Some?
  {
    if i > 0 {
      NewestIsLastPut(states, actions, i - 1);
      assert Follows(states[i - 1], actions[i - 1], states[i]);
      NewestStep(states[i - 1], actions[i - 1]);
      TargetWasPut(states, actions, i - 1);
    }
  }

  /** There is something to delete only after something was put. */
  lemma {:induction false} TargetWasPut(states: seq<World>, actions: seq<Action>, i: nat)
    requires Run(states, actions) && i <= |actions|
    ensures states[i].deleted || states[i].newest.Some? || Target in states[i].files ==> LastPut(states, actions, i).Some?
  {
    InvAlways(states, actions, i);
    if i > 0 {
      TargetWasPut(states, actions, i - 1);
      assert Follows(states[i - 1], actions[i - 1], states[i]);
      NewestStep(states[i - 1], actions[i - 1]);
    }
  }

  /** Whatever crashed and whoever interfered: the newest content is at the target or in a backup. */
  lemma NewestNeverLost(states: seq<World>, actions: seq<Action>, i: nat)
    requires Run(states, actions) && i <= |actions| && !DeletedSince(states, actions, i) && LastPut(states, actions, i).Some?
    ensures var (files, newest) := (states[i].files, LastPut(states, actions, i).value);
            if Target in files then files[Target] == newest else exists n: nat :: Backup(n) in files && files[Backup(n)] == newest
  {
    InvAlways(states, actions, i);
    NewestIsLastPut(states, actions, i);
  }

  /**
   * Recovery puts the newest content back if and only if nobody deleted the
   * target since it was put there; with several backups it is not enabled, that
   * is, refuses.
   */
  lemma RecoveryRestoresNewest(states: seq<World>, actions: seq<Action>, i: nat)
    requires Run(states, actions) && i < |actions| && actions[i].Recover?
    ensures Target in states[i + 1].files
    ensures states[i].newest == Some(states[i + 1].files[Target]) <==> !DeletedSince(states, actions, i)
    ensures !DeletedSince(states, actions, i) ==> LastPut(states, actions, i) == Some(states[i + 1].files[Target])
  {
    InvAlways(states, actions, i);
    InvAlways(states, actions, i + 1);
    assert Follows(states[i], actions[i], states[i + 1]);
    NewestIsLastPut(states, actions, i);
  }

  /** With a vacant target, recovery is possible exactly when no older backup was left behind. */
  lemma RecoveryPossible(states: seq<World>, actions: seq<Action>, i: nat)
    requires Run(states, actions) && i <= |actions| && Target !in states[i].files
    requires !DeletedSince(states, actions, i) && LastPut(states, actions, i).Some?
    ensures (exists n :: Enabled(states[i], Recover(n))) <==>
            (forall m: nat, n: nat :: Backup(m) in states[i].files && Backup(n) in states[i].files ==> m == n)
  {
    InvAlways(states, actions, i);
    NewestIsLastPut(states, actions, i);
    var n :| Safe(states[i], n);
    if forall m: nat, n: nat :: Backup(m) in states[i].files && Backup(n) in states[i].files ==> m == n {
      assert Enabled(states[i], Recover(n));
    }
  }

  /**
   * A publication puts the payload at a vacant target, and that of an update is
   * a compare-and-set: what it replaces is the newest content if and only if
   * nobody deleted the target meanwhile.
   */
  lemma PublicationIsCompareAndSet(states: seq<World>, actions: seq<Action>, i: nat)
    requires Run(states, actions) && i < |actions| && actions[i].Link? && states[i + 1].phase.Published?
    ensures Target !in states[i].files && Target in states[i + 1].files
    ensures var p := states[i].phase;
            && (p.Verified? || p.Prepared?)
            && (p.expected.Some? ==> (states[i].newest == p.expected <==> !DeletedSince(states, actions, i)))
            && states[i + 1].newest == Some(p.payload) == Some(states[i + 1].files[Target])
  {
    InvAlways(states, actions, i);
    assert Follows(states[i], actions[i], states[i + 1]);
    NewestIsLastPut(states, actions, i);
    if states[i].phase.expected.Some? {
      VerifiedWasPut(states, actions, i);
    }
  }

  /** An update that has verified its target had one. */
  lemma {:induction false} VerifiedWasPut(states: seq<World>, actions: seq<Action>, i: nat)
    requires Run(states, actions) && i <= |actions| && Held(states[i].phase).Some?
    ensures LastPut(states, actions, i).Some?
  {
    assert i > 0;
    assert Follows(states[i - 1], actions[i - 1], states[i]);
    NewestStep(states[i - 1], actions[i - 1]);
    if Held(states[i - 1].phase).Some? {
      VerifiedWasPut(states, actions, i - 1);
    } else {
      assert actions[i - 1].Capture?;
      TargetWasPut(states, actions, i - 1);
    }
  }

  /** Content that is at the target or in a backup. */
  ghost predicate Present(files: Directory, content: Content) {
    exists name: Name :: !name.Temp? && name in files && files[name] == content
  }

  /**
   * Nothing is thrown away but what a finished compare-and-set replaced: any
   * content leaves the target and the backups only by a foreign process's own
   * replacement or deletion, or because it was the expected content of an
   * update that has published, whose backup is then cleaned up.
   */
  lemma OnlyReplacedContentGoes(states: seq<World>, actions: seq<Action>, i: nat, content: Content)
    requires Run(states, actions) && i < |actions|
    requires Present(states[i].files, content) && !Present(states[i + 1].files, content)
    ensures || actions[i].Replace? || actions[i].Delete?
            || (actions[i].Truncate? && states[i].phase.Published? && states[i].phase.expected == Some(content))
            || (actions[i].Unlink? && states[i].phase.Truncated? &&
                Some(content) == if states[i].phase.emptied then Some("") else states[i].phase.expected)
  {
    InvAlways(states, actions, i);
    assert Follows(states[i], actions[i], states[i + 1]);
    var name: Name :| !name.Temp? && name in states[i].files && states[i].files[name] == content;
    WhereItWent(states[i], actions[i], name);
  }

  /** Target and backups keep their content, moved at most, in every step but the four that discard. */
  lemma WhereItWent(w: World, a: Action, name: Name)
    requires Inv(w) && Enabled(w, a) && !name.Temp? && name in w.files
    ensures var w' := Apply(w, a);
            || (exists other: Name :: !other.Temp? && other in w'.files && w'.files[other] == w.files[name])
            || ((a.Replace? || a.Delete?) && name.Target?)
            || (a.Truncate? && w.phase.Published? && w.phase.expected == Some(w.files[name]))
            || (a.Unlink? && w.phase.Truncated? && name == Backup(w.phase.backup))
  {
    var w' := Apply(w, a);
    if name in w'.files && w'.files[name] == w.files[name] {
      return;
    }
    match a
    case Capture(n) => assert w'.files[Backup(n)] == w.files[name];
    case Restore(moves) => assert w'.files[Target] == w.files[name];
    case Reject(moves) => assert w'.files[Target] == w.files[name];
    case Rescue(moves) => assert w'.files[Target] == w.files[name];
    case Recover(n) => assert w'.files[Target] == w.files[name];
    case _ =>
  }

  /** What a foreign process puts at the target stays there until it is captured whole, or replaced or removed by another. */
  lemma TargetNeverOverwritten(w: World, a: Action)
    requires Enabled(w, a) && Target in w.files && !a.Replace? && !a.Delete?
    ensures var w' := Apply(w, a);
            if a.Capture? then Backup(a.n) !in w.files && Backup(a.n) in w'.files && w'.files[Backup(a.n)] == w.files[Target]
            else Target in w'.files && w'.files[Target] == w.files[Target]
  {
  }

  lemma Prolong(states: seq<World>, actions: seq<Action>, a: Action) returns (states': seq<World>, actions': seq<Action>)
    requires Run(states, actions) && Enabled(states[|actions|], a)
    ensures Run(states', actions') && states' == states + [Apply(states[|actions|], a)] && actions' == actions + [a]
  {
    states', actions' := states + [Apply(states[|actions|], a)], actions + [a];
    assert states'[0] == states[0];
    forall i | 0 <= i < |actions'| ensures Follows(states'[i], actions'[i], states'[i + 1]) {
      if i < |actions| {
        assert Follows(states[i], actions[i], states[i + 1]);
      }
    }
  }

  /**
   * Such a recovery exists: when a backup was kept because the
   * directory could not be synced, and somebody then deletes the target, it
   * brings the replaced content back.
   */
  lemma DeletionRevivesOld(was: Content, payload: Content) returns (states: seq<World>, actions: seq<Action>)
    ensures Run(states, actions) && |actions| > 0 && actions[|actions| - 1] == Recover(0)
    ensures DeletedSince(states, actions, |actions| - 1) && states[|actions|].files[Target := payload] == map[Target := payload]
    ensures Target in states[|actions|].files && states[|actions|].files[Target] == was
  {
    var start := Start(Some(was));
    states, actions := [start], [];
    assert states[0] == Start(Some(was));
    states, actions := Prolong(states, actions, Open(0, Some(was), payload));
    states, actions := Prolong(states, actions, Fill);
    states, actions := Prolong(states, actions, Capture(0));
    states, actions := Prolong(states, actions, Inspect(true));
    assert states[4].phase == Verified(0, 0, Some(was), payload);
    states, actions := Prolong(states, actions, Link(true));
    assert states[5].files == map[Backup(0) := was, Target := payload];
    states, actions := Prolong(states, actions, Settle(true));
    states, actions := Prolong(states, actions, Delete);
    assert states[7].files == map[Backup(0) := was];
    states, actions := Prolong(states, actions, Recover(0));
  }
}
