/**
 * What the per-location loop promises, stated on the state machine: which
 * restic operations each stage may start, when a location restarts, when it
 * advances, and that no restic process is ever started without a password.
 * Two concrete sessions are worked through to their end.
 */
module Behaviour {
  import opened Wrappers
  import opened Decimal
  import opened Text
  import opened Config
  import opened Commands
  import opened Snapshots
  import opened Stages

  /** The invocations started between two states of a run. */
  function Started(m: Machine, r: Machine): seq<Invocation>
    requires m.log <= r.log
  {
    r.log[|m.log|..]
  }

  /** The stage of the loop in which the driver performs an operation. */
  function StageOf(op: Operation): Stage {
    match op
    case Forget(_) => Prune
    case MakeSnapshot(_, _) => Backup
    case ListSnapshots => Diff
    case Compare(_, _) => Diff
    case ForgetLatest => DeleteLatest
  }

  /** x reads back as an operation of stage st on repository remote, run with password. */
  predicate RunsIn(x: Invocation, remote: string, st: Stage, password: string) {
    var read := ReadCommand(x.args);
    read.Some? && read.value.0 == remote && StageOf(read.value.1) == st && x.password == password
  }

  /** What StepStartsOwnStage states of one step. */
  predicate StartsOwnStage(entries: seq<Entry>, m: Machine)
    requires ValidEntries(entries) && WellFormed(entries, m) && !m.stage.Stopped?
  {
    var r := Step(entries, m);
    |Started(m, r)| <= 2 &&
    forall x | x in Started(m, r) :: RunsIn(x, Remote(entries[m.entry]), m.stage, m.password)
  }

  lemma PruneStartsOwnStage(entries: seq<Entry>, m: Machine)
    requires ValidEntries(entries) && WellFormed(entries, m) && m.stage == Prune
    ensures StartsOwnStage(entries, m)
  {
    var e := entries[m.entry];
    if e.maxSnapshots.value > 0 {
      ReadCommandFor(Remote(e), Forget(e.maxSnapshots.value));
    }
  }

  lemma BackupStartsOwnStage(entries: seq<Entry>, m: Machine)
    requires ValidEntries(entries) && WellFormed(entries, m) && m.stage == Backup
    ensures StartsOwnStage(entries, m)
  {
    var e := entries[m.entry];
    ReadCommandFor(Remote(e), MakeSnapshot(Tags(e), Excludes(e)));
  }

  lemma DiffStartsOwnStage(entries: seq<Entry>, m: Machine)
    requires ValidEntries(entries) && WellFormed(entries, m) && m.stage == Diff
    ensures StartsOwnStage(entries, m)
  {
    var remote := Remote(entries[m.entry]);
    var r := Step(entries, m);
    if m.script.listings != [] {
      var list := Invocation(SnapshotsCommand(remote), None, m.password);
      ReadCommandFor(remote, ListSnapshots);
      assert RunsIn(list, remote, Diff, m.password);
      var listing := ParseListing(m.script.listings[0]);
      if listing.TwoLatest? {
        var diff := Invocation(DiffCommand(remote, listing.penultimate, listing.latest), None, m.password);
        ReadCommandFor(remote, Compare(listing.penultimate, listing.latest));
        assert RunsIn(diff, remote, Diff, m.password);
        assert Started(m, r) == [list, diff];
      } else {
        assert Started(m, r) == [list];
      }
    } else {
      assert Started(m, r) == [];
    }
  }

  lemma DeleteStartsOwnStage(entries: seq<Entry>, m: Machine)
    requires ValidEntries(entries) && WellFormed(entries, m) && m.stage == DeleteLatest
    ensures StartsOwnStage(entries, m)
  {
    var remote := Remote(entries[m.entry]);
    var r := Step(entries, m);
    assert r == DeleteStep(entries[m.entry], m);
    if m.script.answers != [] && Classify(m.script.answers[0]) == Yes {
      var delete := Invocation(DeleteLatestCommand(remote), None, m.password);
      ReadCommandFor(remote, ForgetLatest);
      assert RunsIn(delete, remote, DeleteLatest, m.password);
      assert Started(m, r) == [delete];
    } else {
      assert Started(m, r) == [];
    }
  }

  /**
   * Every restic process a step starts works on the current location's
   * repository, performs an operation that belongs to the current stage and
   * runs with the password in the environment; a step starts at most two.
   */
  lemma StepStartsOwnStage(entries: seq<Entry>, m: Machine)
    requires ValidEntries(entries) && WellFormed(entries, m) && !m.stage.Stopped?
    ensures var r := Step(entries, m);
      |Started(m, r)| <= 2 &&
      forall x | x in Started(m, r) :: RunsIn(x, Remote(entries[m.entry]), m.stage, m.password)
  {
    match m.stage
    case CollectCredentials =>
      assert Started(m, Step(entries, m)) == [];
    case Prune => PruneStartsOwnStage(entries, m);
    case Backup => BackupStartsOwnStage(entries, m);
    case Diff => DiffStartsOwnStage(entries, m);
    case Confirm =>
      assert Started(m, Step(entries, m)) == [];
    case DeleteLatest => DeleteStartsOwnStage(entries, m);
  }

  /**
   * The password prompt starts nothing: a blank answer asks again, any other
   * moves on to pruning with that password in the environment.
   */
  lemma PromptStartsNothing(entries: seq<Entry>, m: Machine)
    requires ValidEntries(entries) && WellFormed(entries, m) && m.stage == CollectCredentials
    requires m.script.passwords != []
    ensures var r := Step(entries, m); var typed := m.script.passwords[0];
      r.log == m.log && r.entry == m.entry && r.password == typed &&
      (r.stage == Prune <==> typed != "") && (r.stage == CollectCredentials <==> typed == "")
  {
  }

  /**
   * STEP 1: old snapshots are pruned exactly when maxSnapshots is positive,
   * by one `forget --keep-last maxSnapshots --prune`; the backup follows
   * either way, without consuming any input.
   */
  lemma PruneOnlyWhenConfigured(entries: seq<Entry>, m: Machine)
    requires ValidEntries(entries) && WellFormed(entries, m) && m.stage == Prune
    ensures var e := entries[m.entry]; var r := Step(entries, m); var started := Started(m, r);
      r.stage == Backup && r.script == m.script && r.entry == m.entry &&
      (started != [] <==> e.maxSnapshots.value > 0) &&
      (started != [] ==>
        |started| == 1 && started[0].cwd == None &&
        ReadCommand(started[0].args) == Some((Remote(e), Forget(e.maxSnapshots.value))))
  {
    var e := entries[m.entry];
    if e.maxSnapshots.value > 0 {
      ReadCommandFor(Remote(e), Forget(e.maxSnapshots.value));
    }
  }

  /**
   * STEP 2: the backup runs from the location's local path with its tags and
   * exclusions; the location restarts at the password prompt, after the
   * operator presses Enter, exactly when restic's error output contains
   * "wrong password", and otherwise goes on to the comparison. A restart
   * lists nothing, compares nothing and asks for no confirmation.
   */
  lemma WrongPasswordRestarts(entries: seq<Entry>, m: Machine)
    requires ValidEntries(entries) && WellFormed(entries, m) && m.stage == Backup
    requires m.script.backupErrors != [] && m.script.answers != []
    ensures var e := entries[m.entry]; var r := Step(entries, m); var started := Started(m, r);
      |started| == 1 && started[0].cwd == Some(e.localPath.value) &&
      ReadCommand(started[0].args) == Some((Remote(e), MakeSnapshot(Tags(e), Excludes(e)))) &&
      (r.stage == CollectCredentials <==> Contains(m.script.backupErrors[0], WrongPassword)) &&
      (r.stage == Diff <==> !Contains(m.script.backupErrors[0], WrongPassword)) &&
      r.entry == m.entry && r.script.listings == m.script.listings
  {
    var e := entries[m.entry];
    ReadCommandFor(Remote(e), MakeSnapshot(Tags(e), Excludes(e)));
  }

  /**
   * STEP 3: the snapshots are always listed; the two latest are compared,
   * penultimate first, exactly when the listing shows two of them; a
   * listing of fewer than four lines stops the run.
   */
  lemma CompareOnlyTwoLatest(entries: seq<Entry>, m: Machine)
    requires ValidEntries(entries) && WellFormed(entries, m) && m.stage == Diff
    requires m.script.listings != []
    ensures var e := entries[m.entry]; var r := Step(entries, m); var started := Started(m, r);
      var listing := ParseListing(m.script.listings[0]);
      1 <= |started| <= 2 && ReadCommand(started[0].args) == Some((Remote(e), ListSnapshots)) &&
      (|started| == 2 <==> listing.TwoLatest?) &&
      (listing.TwoLatest? ==>
        ReadCommand(started[1].args) == Some((Remote(e), Compare(listing.penultimate, listing.latest)))) &&
      (r.stage == Stopped(UnreadableListing) <==> listing.TooShort?) &&
      (r.stage == Confirm <==> !listing.TooShort?)
  {
    var e := entries[m.entry];
    ReadCommandFor(Remote(e), ListSnapshots);
    var listing := ParseListing(m.script.listings[0]);
    if listing.TwoLatest? {
      ReadCommandFor(Remote(e), Compare(listing.penultimate, listing.latest));
    }
  }

  /**
   * The run moves to the next location only on a "yes" to "Was the backup
   * successful?", and then by exactly one; no other step, and in
   * particular no "no", ever advances it.
   */
  lemma AdvanceOnlyOnYes(entries: seq<Entry>, m: Machine)
    requires ValidEntries(entries) && WellFormed(entries, m) && !m.stage.Stopped?
    ensures var r := Step(entries, m);
      (r.entry != m.entry <==>
        m.stage == Confirm && m.script.answers != [] && Classify(m.script.answers[0]) == Yes) &&
      r.entry <= m.entry + 1
  {
  }

  /** A "no" to "Was the backup successful?" leads to the delete offer and starts nothing. */
  lemma NoOffersDelete(entries: seq<Entry>, m: Machine)
    requires ValidEntries(entries) && WellFormed(entries, m) && m.stage == Confirm
    requires m.script.answers != [] && Classify(m.script.answers[0]) == No
    ensures var r := Step(entries, m);
      r.stage == DeleteLatest && r.entry == m.entry && r.log == m.log
  {
  }

  /**
   * The delete offer is only ever reached by a "no" to the confirmation, or
   * asked again after an invalid answer to the offer itself.
   */
  lemma DeleteOfferOnlyAfterNo(entries: seq<Entry>, m: Machine)
    requires ValidEntries(entries) && WellFormed(entries, m) && !m.stage.Stopped?
    requires Step(entries, m).stage == DeleteLatest
    ensures m.stage == Confirm || m.stage == DeleteLatest
    ensures m.script.answers != []
    ensures m.stage == Confirm ==> Classify(m.script.answers[0]) == No
    ensures m.stage == DeleteLatest ==> Classify(m.script.answers[0]) == Invalid
  {
  }

  /**
   * The delete offer: the latest snapshot is forgotten exactly on a "yes",
   * and the location restarts at the password prompt either way (after a
   * pause for Enter when it was deleted).
   */
  lemma DeleteOnlyOnYes(entries: seq<Entry>, m: Machine)
    requires ValidEntries(entries) && WellFormed(entries, m) && m.stage == DeleteLatest
    requires |m.script.answers| >= 2 && Classify(m.script.answers[0]) != Invalid
    ensures var e := entries[m.entry]; var r := Step(entries, m); var started := Started(m, r);
      r.stage == CollectCredentials && r.entry == m.entry &&
      (started != [] <==> Classify(m.script.answers[0]) == Yes) &&
      (started != [] ==> |started| == 1 && ReadCommand(started[0].args) == Some((Remote(e), ForgetLatest)))
  {
    ReadCommandFor(Remote(entries[m.entry]), ForgetLatest);
  }

  /** An answer that is neither yes nor no is asked again and has no other effect. */
  lemma InvalidAnswerAsksAgain(entries: seq<Entry>, m: Machine)
    requires ValidEntries(entries) && WellFormed(entries, m)
    requires m.stage == Confirm || m.stage == DeleteLatest
    requires m.script.answers != [] && Classify(m.script.answers[0]) == Invalid
    ensures var r := Step(entries, m);
      r.stage == m.stage && r.entry == m.entry && r.log == m.log && r.password == m.password &&
      r.script == m.script.(answers := m.script.answers[1..])
  {
  }

  /**
   * What holds at every state of a run: every restic process so far was
   * started with a non-blank password and a well-formed command line, and
   * past the prompt the environment holds a non-blank password.
   */
  predicate Guarded(m: Machine) {
    (forall k | 0 <= k < |m.log| :: m.log[k].password != "" && ReadCommand(m.log[k].args).Some?) &&
    (m.stage in {Prune, Backup, Diff, Confirm, DeleteLatest} ==> m.password != "")
  }

  /** Guarded carries over to a state that only adds guarded invocations to the log. */
  lemma GuardedExtended(m: Machine, r: Machine)
    requires Guarded(m) && m.log <= r.log
    requires forall x | x in Started(m, r) :: x.password != "" && ReadCommand(x.args).Some?
    requires r.stage in {Prune, Backup, Diff, Confirm, DeleteLatest} ==> r.password != ""
    ensures Guarded(r)
  {
    forall k | 0 <= k < |r.log|
      ensures r.log[k].password != "" && ReadCommand(r.log[k].args).Some?
    {
      if k >= |m.log| {
        assert r.log[k] in Started(m, r);
      } else {
        assert r.log[k] == m.log[k];
      }
    }
  }

  /** Past the prompt, a step keeps a non-blank password in the environment. */
  lemma StepKeepsPassword(entries: seq<Entry>, m: Machine)
    requires ValidEntries(entries) && WellFormed(entries, m) && !m.stage.Stopped? && Guarded(m)
    ensures var r := Step(entries, m);
      r.stage in {Prune, Backup, Diff, Confirm, DeleteLatest} ==> r.password != ""
  {
    var e := entries[m.entry];
    match m.stage
    case CollectCredentials => assert Step(entries, m) == CollectStep(m);
    case Prune => assert Step(entries, m) == PruneStep(e, m);
    case Backup => assert Step(entries, m) == BackupStep(e, m);
    case Diff => assert Step(entries, m) == DiffStep(e, m);
    case Confirm => assert Step(entries, m) == ConfirmStep(entries, m);
    case DeleteLatest => assert Step(entries, m) == DeleteStep(e, m);
  }

  lemma StepGuarded(entries: seq<Entry>, m: Machine)
    requires ValidEntries(entries) && WellFormed(entries, m) && !m.stage.Stopped? && Guarded(m)
    ensures Guarded(Step(entries, m))
  {
    var r := Step(entries, m);
    StepStartsOwnStage(entries, m);
    StepKeepsPassword(entries, m);
    forall x | x in Started(m, r)
      ensures x.password != "" && ReadCommand(x.args).Some?
    {
      assert RunsIn(x, Remote(entries[m.entry]), m.stage, m.password);
    }
    GuardedExtended(m, r);
  }

  /**
   * From a guarded state, the run only adds to the log, never goes back to
   * an earlier location, and stays guarded: no restic process is ever
   * started with a blank password.
   */
  lemma {:induction false} RunGuarded(entries: seq<Entry>, m: Machine)
    requires ValidEntries(entries) && WellFormed(entries, m) && Guarded(m)
    ensures var r := Run(entries, m);
      Guarded(r) && m.log <= r.log && m.entry <= r.entry
    decreases Size(m.script), Rank(m.stage)
  {
    if !m.stage.Stopped? {
      var next := Step(entries, m);
      StepGuarded(entries, m);
      RunGuarded(entries, next);
    }
  }

  /** A whole session starts restic only with the password the operator typed. */
  lemma SessionNeverBlank(entries: seq<Entry>, script: Script)
    requires ValidEntries(entries)
    ensures var r := Run(entries, Start(entries, script));
      forall k | 0 <= k < |r.log| :: r.log[k].password != "" && ReadCommand(r.log[k].args).Some?
  {
    RunGuarded(entries, Start(entries, script));
  }

  /** Lines of a restic snapshot listing, in restic's table layout. */
  const Header := "ID        Time"
  const Rule := "--------------"
  const First := "1a2b3c4d  05-01"
  const Second := "5e6f7a8b  05-02"
  const Third := "9c0d1e2f  05-03"
  const Fourth := "3a4b5c6d  05-04"

  /** A listing of four snapshots. */
  const FourSnapshots: seq<string> := [Header, Rule, First, Second, Third, Fourth, Rule, "4 snapshots"]

  /** The same layout with a single snapshot. */
  const OneSnapshot: seq<string> := [Header, Rule, First, Rule, "1 snapshots"]

  lemma HeaderLines()
    ensures NoBreak(Header) && NoBreak(Rule) && !HasDigit(Rule)
    ensures NoBreak("4 snapshots") && NoBreak("1 snapshots")
  {
  }

  lemma SnapshotLines()
    ensures NoBreak(First) && NoBreak(Second) && NoBreak(Third) && NoBreak(Fourth)
  {
  }

  /** Of four snapshots the third and the fourth are compared, by their short IDs. */
  lemma FourSnapshotsCompared()
    ensures ParseListing(JoinLines(FourSnapshots)) == TwoLatest("9c0d1e2f", "3a4b5c6d")
  {
    HeaderLines();
    SnapshotLines();
    assert HasDigit(Third) by { assert IsDigit(Third[0]); }
    assert FourSnapshots[4] == Third && FourSnapshots[5] == Fourth;
    ListingOfLines(FourSnapshots);
  }

  /** A single snapshot is not compared with anything. */
  lemma OneSnapshotNotCompared()
    ensures ParseListing(JoinLines(OneSnapshot)) == SingleSnapshot
  {
    HeaderLines();
    SnapshotLines();
    assert OneSnapshot[1] == Rule;
    ListingOfLines(OneSnapshot);
  }

  const Docs := Entry(Some("docs"), Some("/home/docs"), Some("/mnt/repo"), Some(5), None, None)

  /** The restic processes of the two sessions below, all with the password "hunter2". */
  const PruneRun := Invocation(["restic", "-r", "/mnt/repo", "forget", "--keep-last", "5", "--prune"], None, "hunter2")
  const BackupRun := Invocation(["restic", "-r", "/mnt/repo", "backup", ".", "--skip-if-unchanged"], Some("/home/docs"), "hunter2")
  const ListRun := Invocation(["restic", "-r", "/mnt/repo", "snapshots"], None, "hunter2")
  const DiffRun := Invocation(["restic", "-r", "/mnt/repo", "diff", "9c0d1e2f", "3a4b5c6d"], None, "hunter2")

  lemma SessionCommands()
    ensures PruneCommand("/mnt/repo", 5) == PruneRun.args
    ensures BackupCommand("/mnt/repo", [], []) == BackupRun.args
    ensures SnapshotsCommand("/mnt/repo") == ListRun.args
    ensures DiffCommand("/mnt/repo", "9c0d1e2f", "3a4b5c6d") == DiffRun.args
  {
    assert DecimalOf(5) == "5";
  }

  /** The states the confirmed session passes through; yes is the operator's answer. */
  function Confirmed(yes: string): Script {
    Script(["hunter2"], [yes], [""], [JoinLines(FourSnapshots)])
  }

  function ConfirmedPruning(yes: string): Machine {
    Machine(0, Prune, "hunter2", Confirmed(yes).(passwords := []), [])
  }

  function ConfirmedBackingUp(yes: string): Machine {
    ConfirmedPruning(yes).(stage := Backup, log := [PruneRun])
  }

  function ConfirmedComparing(yes: string): Machine {
    Machine(0, Diff, "hunter2", Script([], [yes], [], [JoinLines(FourSnapshots)]), [PruneRun, BackupRun])
  }

  function ConfirmedAsking(yes: string): Machine {
    Machine(0, Confirm, "hunter2", Script([], [yes], [], []), [PruneRun, BackupRun, ListRun, DiffRun])
  }

  lemma SessionEntries()
    ensures ValidEntries([Docs]) && ValidEntries([Unpruned])
  {
  }

  lemma ConfirmedSteps(yes: string)
    ensures Run([Docs], Start([Docs], Confirmed(yes))) == Run([Docs], ConfirmedComparing(yes))
  {
    var entries := [Docs];
    SessionEntries();
    SessionCommands();
    assert !Contains("", WrongPassword);
    RunStep(entries, Start(entries, Confirmed(yes)));
    assert Step(entries, Start(entries, Confirmed(yes))) == ConfirmedPruning(yes);
    RunStep(entries, ConfirmedPruning(yes));
    assert Step(entries, ConfirmedPruning(yes)) == ConfirmedBackingUp(yes);
    RunStep(entries, ConfirmedBackingUp(yes));
    assert Step(entries, ConfirmedBackingUp(yes)) == ConfirmedComparing(yes);
  }

  lemma ConfirmedListing(yes: string)
    ensures Run([Docs], ConfirmedComparing(yes)) == Run([Docs], ConfirmedAsking(yes))
  {
    SessionEntries();
    SessionCommands();
    FourSnapshotsCompared();
    RunStep([Docs], ConfirmedComparing(yes));
    assert Step([Docs], ConfirmedComparing(yes)) == ConfirmedAsking(yes);
  }

  lemma ConfirmedAnswer(yes: string)
    requires Classify(yes) == Yes
    ensures Run([Docs], ConfirmedAsking(yes)) ==
      Machine(1, Stopped(Finished), "hunter2", Script([], [], [], []), [PruneRun, BackupRun, ListRun, DiffRun])
  {
    SessionEntries();
    RunStep([Docs], ConfirmedAsking(yes));
  }

  /**
   * A location keeping 5 snapshots, no tags or exclusions, the right
   * password, a clean backup, four snapshots afterwards and an answer that
   * reads as yes: the run prunes, backs up without flags, lists, compares
   * the two newest and finishes.
   */
  lemma ConfirmedSession(yes: string)
    requires Classify(yes) == Yes
    ensures Run([Docs], Start([Docs], Confirmed(yes))) ==
      Machine(1, Stopped(Finished), "hunter2", Script([], [], [], []), [PruneRun, BackupRun, ListRun, DiffRun])
  {
    ConfirmedSteps(yes);
    ConfirmedListing(yes);
    ConfirmedAnswer(yes);
  }

  /** The states the declined session passes through; no1 and no2 are the operator's answers. */
  const Unpruned := Docs.(maxSnapshots := Some(0))

  function Declined(no1: string, no2: string): Script {
    Script(["hunter2"], [no1, no2], [""], [JoinLines(OneSnapshot)])
  }

  function DeclinedPruning(no1: string, no2: string): Machine {
    Machine(0, Prune, "hunter2", Declined(no1, no2).(passwords := []), [])
  }

  function DeclinedBackingUp(no1: string, no2: string): Machine {
    DeclinedPruning(no1, no2).(stage := Backup)
  }

  function DeclinedComparing(no1: string, no2: string): Machine {
    Machine(0, Diff, "hunter2", Script([], [no1, no2], [], [JoinLines(OneSnapshot)]), [BackupRun])
  }

  function DeclinedAsking(no1: string, no2: string): Machine {
    Machine(0, Confirm, "hunter2", Script([], [no1, no2], [], []), [BackupRun, ListRun])
  }

  function DeclinedOffering(no1: string, no2: string): Machine {
    DeclinedAsking(no1, no2).(stage := DeleteLatest, script := Script([], [no2], [], []))
  }

  const DeclinedRestarted := Machine(0, CollectCredentials, "hunter2", Script([], [], [], []), [BackupRun, ListRun])

  lemma DeclinedSteps(no1: string, no2: string)
    ensures Run([Unpruned], Start([Unpruned], Declined(no1, no2))) == Run([Unpruned], DeclinedComparing(no1, no2))
  {
    var entries := [Unpruned];
    SessionEntries();
    SessionCommands();
    assert !Contains("", WrongPassword);
    RunStep(entries, Start(entries, Declined(no1, no2)));
    assert Step(entries, Start(entries, Declined(no1, no2))) == DeclinedPruning(no1, no2);
    RunStep(entries, DeclinedPruning(no1, no2));
    assert Step(entries, DeclinedPruning(no1, no2)) == DeclinedBackingUp(no1, no2);
    RunStep(entries, DeclinedBackingUp(no1, no2));
    assert Step(entries, DeclinedBackingUp(no1, no2)) == DeclinedComparing(no1, no2);
  }

  lemma DeclinedListing(no1: string, no2: string)
    ensures Run([Unpruned], DeclinedComparing(no1, no2)) == Run([Unpruned], DeclinedAsking(no1, no2))
  {
    SessionEntries();
    SessionCommands();
    OneSnapshotNotCompared();
    RunStep([Unpruned], DeclinedComparing(no1, no2));
    assert Step([Unpruned], DeclinedComparing(no1, no2)) == DeclinedAsking(no1, no2);
  }

  lemma DeclinedAnswers(no1: string, no2: string)
    requires Classify(no1) == No && Classify(no2) == No
    ensures Run([Unpruned], DeclinedAsking(no1, no2)) == Run([Unpruned], DeclinedRestarted)
  {
    SessionEntries();
    var asking, offering := DeclinedAsking(no1, no2), DeclinedOffering(no1, no2);
    assert asking.script.answers[1..] == [no2];
    RunConfirmNo([Unpruned], asking);
    assert offering.script.answers[1..] == [];
    RunDeleteNo([Unpruned], offering);
  }

  /**
   * A location keeping no snapshots, answered no to the confirmation and no
   * again to the delete offer: no pruning, one backup and one listing, no
   * deletion, and the location starts over at the password prompt (where
   * this session ends, for want of another password).
   */
  lemma DeclinedSession(no1: string, no2: string)
    requires Classify(no1) == No && Classify(no2) == No
    ensures Run([Unpruned], Start([Unpruned], Declined(no1, no2))) ==
      Machine(0, Stopped(EndOfInput), "hunter2", Script([], [], [], []), [BackupRun, ListRun])
  {
    DeclinedSteps(no1, no2);
    DeclinedListing(no1, no2);
    DeclinedAnswers(no1, no2);
    SessionEntries();
    RunStep([Unpruned], DeclinedRestarted);
  }

  /** "Y", "N" and "n" are read as the answers they stand for. */
  lemma SessionAnswers()
    ensures Classify("Y") == Yes && Classify("N") == No && Classify("n") == No
  {
    StripTrimmed("Y");
    StripTrimmed("N");
    StripTrimmed("n");
  }

  /** The two sessions with the answers typed as "Y", and as "N" then "n". */
  lemma TypedSessions()
    ensures Run([Docs], Start([Docs], Confirmed("Y"))).log == [PruneRun, BackupRun, ListRun, DiffRun]
    ensures Run([Docs], Start([Docs], Confirmed("Y"))).stage == Stopped(Finished)
    ensures Run([Unpruned], Start([Unpruned], Declined("N", "n"))).log == [BackupRun, ListRun]
    ensures Run([Unpruned], Start([Unpruned], Declined("N", "n"))).stage == Stopped(EndOfInput)
  {
    SessionAnswers();
    ConfirmedSession("Y");
    DeclinedSession("N", "n");
  }
}
