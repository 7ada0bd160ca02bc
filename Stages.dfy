/**
 * The per-entry backup loop (`backupFiles`) as a state machine. For each
 * configured location in turn: collect a non-blank password, prune if a
 * retention count is set, back up, restart on a rejected password, list the
 * snapshots and compare the two latest, then ask whether the backup
 * succeeded; "no" offers to forget the latest snapshot and restarts the
 * location. Everything the outside world supplies (passwords, operator
 * answers, the backup's error text, the snapshot listing) comes from a
 * Script; the machine records the restic invocations it would start.
 */
module Stages {
  import opened Wrappers
  import opened Text
  import opened Config
  import opened Commands
  import opened Snapshots

  /** The error text by which restic reports a rejected repository password. */
  const WrongPassword := "wrong password"

  /** An operator answer to a yes/no question, after strip() and lower(). */
  datatype Answer = Yes | No | Invalid

  /**
   * "y" (English) and "s" (Portuguese and Spanish "sim"/"si") mean yes, "n"
   * means no, in either case and with surrounding whitespace; anything else
   * is asked again.
   */
  function Classify(raw: string): Answer {
    var t := Lower(Strip(raw));
    if t == "y" || t == "s" then Yes else if t == "n" then No else Invalid
  }

  /** Which typed answers Classify accepts, stated without lower(). */
  lemma ClassifyAnswers(raw: string)
    ensures Classify(raw) == Yes <==> Strip(raw) in {"y", "Y", "s", "S"}
    ensures Classify(raw) == No <==> Strip(raw) in {"n", "N"}
  {
    LowerSingle(Strip(raw), 'y');
    LowerSingle(Strip(raw), 's');
    LowerSingle(Strip(raw), 'n');
  }

  /** One restic process: its arguments, working directory and RESTIC_PASSWORD. */
  datatype Invocation = Invocation(args: Command, cwd: Option<string>, password: string)

  /** What the outside world will supply, each queue consumed from the front. */
  datatype Script = Script(
    passwords: seq<string>,     // successive getpass() results
    answers: seq<string>,       // successive input() results: yes/no prompts and "Press Enter" pauses
    backupErrors: seq<string>,  // stderr of successive backup runs
    listings: seq<string>)      // stdout of successive `snapshots` runs

  function Size(s: Script): nat {
    |s.passwords| + |s.answers| + |s.backupErrors| + |s.listings|
  }

  /** Why a run ended. */
  datatype Halt =
    | Finished           // every location was confirmed
    | EndOfInput         // the script ran out: the prompt or the command got no reply
    | UnreadableListing  // the listing had fewer than four lines (an IndexError)

  datatype Stage =
    | CollectCredentials
    | Prune
    | Backup
    | Diff
    | Confirm
    | DeleteLatest
    | Stopped(halt: Halt)

  /** Progress measure: within one script size, a step moves to a lower rank. */
  function Rank(st: Stage): nat {
    match st
    case CollectCredentials => 5
    case Prune => 4
    case Backup => 3
    case Diff => 2
    case Confirm => 1
    case DeleteLatest => 1
    case Stopped(_) => 0
  }

  /** The state of a run: which entry, which stage, the password in the environment. */
  datatype Machine = Machine(entry: nat, stage: Stage, password: string, script: Script, log: seq<Invocation>)

  /** What the driver may assume of the entries: they passed the start-up check. */
  predicate ValidEntries(entries: seq<Entry>) {
    forall k | 0 <= k < |entries| :: Complete(entries[k])
  }

  predicate WellFormed(entries: seq<Entry>, m: Machine) {
    if m.stage.Stopped? then m.entry <= |entries| && (m.stage.halt == Finished ==> m.entry == |entries|)
    else m.entry < |entries|
  }

  /** Entry i about to start, or the run finished when there is none left. */
  function AtEntry(entries: seq<Entry>, i: nat, password: string, script: Script, log: seq<Invocation>): Machine
    requires i <= |entries|
  {
    Machine(i, if i < |entries| then CollectCredentials else Stopped(Finished), password, script, log)
  }

  function Start(entries: seq<Entry>, script: Script): Machine {
    AtEntry(entries, 0, "", script, [])
  }

  function Remote(e: Entry): string
    requires Complete(e)
  {
    e.remotePath.value
  }

  /**
   * A step from m to r within one location: it consumes an input or moves to
   * a later stage, keeps every recorded invocation and does not finish the run.
   */
  predicate Progress(m: Machine, r: Machine) {
    && (Size(r.script) < Size(m.script) || (Size(r.script) == Size(m.script) && Rank(r.stage) < Rank(m.stage)))
    && m.log <= r.log
    && r.entry == m.entry
    && r.stage != Stopped(Finished)
  }

  /** Password prompt: a blank answer asks again, any other is put in the environment. */
  function CollectStep(m: Machine): (r: Machine)
    requires m.stage == CollectCredentials
    ensures Progress(m, r)
  {
    var s := m.script;
    if s.passwords == [] then m.(stage := Stopped(EndOfInput))
    else
      var p := s.passwords[0];
      m.(stage := if p == "" then CollectCredentials else Prune, password := p,
         script := s.(passwords := s.passwords[1..]))
  }

  /** STEP 1: forget all but the last maxSnapshots snapshots, only if that is positive. */
  function PruneStep(e: Entry, m: Machine): (r: Machine)
    requires Complete(e) && m.stage == Prune
    ensures Progress(m, r)
  {
    var keep := e.maxSnapshots.value;
    if keep > 0 then
      m.(stage := Backup, log := m.log + [Invocation(PruneCommand(Remote(e), keep), None, m.password)])
    else m.(stage := Backup)
  }

  /**
   * The "Press Enter to restart this backup stage..." pause: it reads one
   * line of the operator's input, whatever it holds, and the location starts
   * over at the password prompt.
   */
  function Restart(m: Machine): (r: Machine)
    ensures Size(r.script) < Size(m.script) || r.stage == Stopped(EndOfInput)
    ensures r.log == m.log && r.entry == m.entry
  {
    var s := m.script;
    if s.answers == [] then m.(stage := Stopped(EndOfInput))
    else m.(stage := CollectCredentials, script := s.(answers := s.answers[1..]))
  }

  /** STEP 2: back up from localPath; a rejected password goes back to the prompt. */
  function BackupStep(e: Entry, m: Machine): (r: Machine)
    requires Complete(e) && m.stage == Backup
    ensures Progress(m, r)
  {
    var s := m.script;
    if s.backupErrors == [] then m.(stage := Stopped(EndOfInput))
    else
      var run := Invocation(BackupCommand(Remote(e), Tags(e), Excludes(e)), Some(e.localPath.value), m.password);
      var done := m.(script := s.(backupErrors := s.backupErrors[1..]), log := m.log + [run]);
      if Contains(s.backupErrors[0], WrongPassword) then Restart(done) else done.(stage := Diff)
  }

  /** STEP 3: list the snapshots; compare the two latest when there are two. */
  function DiffStep(e: Entry, m: Machine): (r: Machine)
    requires Complete(e) && m.stage == Diff
    ensures Progress(m, r)
  {
    var s := m.script;
    if s.listings == [] then m.(stage := Stopped(EndOfInput))
    else
      var listed := m.(script := s.(listings := s.listings[1..]),
                       log := m.log + [Invocation(SnapshotsCommand(Remote(e)), None, m.password)]);
      match ParseListing(s.listings[0])
      case TooShort => listed.(stage := Stopped(UnreadableListing))
      case SingleSnapshot => listed.(stage := Confirm)
      case TwoLatest(penultimate, latest) =>
        listed.(stage := Confirm,
                log := listed.log + [Invocation(DiffCommand(Remote(e), penultimate, latest), None, m.password)])
  }

  /** "Was the backup successful?": yes moves to the next entry, no to the delete offer. */
  function ConfirmStep(entries: seq<Entry>, m: Machine): (r: Machine)
    requires m.entry < |entries| && m.stage == Confirm
    ensures WellFormed(entries, r) && m.log <= r.log
    ensures Size(r.script) < Size(m.script) || (Size(r.script) == Size(m.script) && Rank(r.stage) < Rank(m.stage))
    ensures r.entry == m.entry || r.entry == m.entry + 1
  {
    var s := m.script;
    if s.answers == [] then m.(stage := Stopped(EndOfInput))
    else
      var rest := s.(answers := s.answers[1..]);
      match Classify(s.answers[0])
      case Yes => AtEntry(entries, m.entry + 1, m.password, rest, m.log)
      case No => m.(stage := DeleteLatest, script := rest)
      case Invalid => m.(script := rest)
  }

  /**
   * "Delete the latest snapshot?": either valid answer restarts the entry;
   * after a deletion the restart waits for the operator to press Enter.
   */
  function DeleteStep(e: Entry, m: Machine): (r: Machine)
    requires Complete(e) && m.stage == DeleteLatest
    ensures Progress(m, r)
  {
    var s := m.script;
    if s.answers == [] then m.(stage := Stopped(EndOfInput))
    else
      var rest := s.(answers := s.answers[1..]);
      match Classify(s.answers[0])
      case Yes =>
        Restart(m.(script := rest, log := m.log + [Invocation(DeleteLatestCommand(Remote(e)), None, m.password)]))
      case No => m.(stage := CollectCredentials, script := rest)
      case Invalid => m.(script := rest)
  }

  /**
   * One transition. Every step either consumes an input or moves to a later
   * stage, never forgets a recorded invocation and never goes back to an
   * earlier entry.
   */
  function Step(entries: seq<Entry>, m: Machine): (r: Machine)
    requires ValidEntries(entries) && WellFormed(entries, m) && !m.stage.Stopped?
    ensures WellFormed(entries, r)
    ensures Size(r.script) < Size(m.script) || (Size(r.script) == Size(m.script) && Rank(r.stage) < Rank(m.stage))
    ensures m.log <= r.log && m.entry <= r.entry
  {
    var e := entries[m.entry];
    match m.stage
    case CollectCredentials => CollectStep(m)
    case Prune => PruneStep(e, m)
    case Backup => BackupStep(e, m)
    case Diff => DiffStep(e, m)
    case Confirm => ConfirmStep(entries, m)
    case DeleteLatest => DeleteStep(e, m)
  }

  /** Steps until the run stops; it always does, since the script is finite. */
  function Run(entries: seq<Entry>, m: Machine): (r: Machine)
    requires ValidEntries(entries) && WellFormed(entries, m)
    ensures r.stage.Stopped? && WellFormed(entries, r)
    decreases Size(m.script), Rank(m.stage)
  {
    if m.stage.Stopped? then m else Run(entries, Step(entries, m))
  }

  lemma RunStep(entries: seq<Entry>, m: Machine)
    requires ValidEntries(entries) && WellFormed(entries, m) && !m.stage.Stopped?
    ensures Run(entries, m) == Run(entries, Step(entries, m))
  {
  }

  /**
   * Blank passwords only re-prompt: after k blank answers the run continues
   * as if they had never been given, with the environment holding "".
   */
  lemma {:induction false} SkipBlankPasswords(entries: seq<Entry>, m: Machine, k: nat)
    requires ValidEntries(entries) && WellFormed(entries, m) && m.stage == CollectCredentials
    requires 0 < k <= |m.script.passwords|
    requires forall j | 0 <= j < k :: m.script.passwords[j] == ""
    ensures Run(entries, m) ==
      Run(entries, m.(password := "", script := m.script.(passwords := m.script.passwords[k..])))
    decreases k
  {
    RunStep(entries, m);
    var next := Step(entries, m);
    if k > 1 {
      SkipBlankPasswords(entries, next, k - 1);
      assert next.script.passwords[k - 1..] == m.script.passwords[k..];
    }
  }

  /**
   * Invalid answers to a yes/no question only re-prompt: after k of them the
   * run continues as if they had never been given.
   */
  lemma {:induction false} SkipInvalidAnswers(entries: seq<Entry>, m: Machine, k: nat)
    requires ValidEntries(entries) && WellFormed(entries, m)
    requires m.stage == Confirm || m.stage == DeleteLatest
    requires k <= |m.script.answers|
    requires forall j | 0 <= j < k :: Classify(m.script.answers[j]) == Invalid
    ensures Run(entries, m) == Run(entries, m.(script := m.script.(answers := m.script.answers[k..])))
    decreases k
  {
    if k == 0 {
      assert m.script.answers[0..] == m.script.answers;
      assert m.(script := m.script.(answers := m.script.answers[0..])) == m;
    } else {
      RunStep(entries, m);
      var next := Step(entries, m);
      assert next == m.(script := m.script.(answers := m.script.answers[1..]));
      SkipInvalidAnswers(entries, next, k - 1);
      assert next.script.answers[k - 1..] == m.script.answers[k..];
    }
  }

  /**
   * The password prompt loop: read until an answer is not blank. k is the
   * position of the accepted answer, or |passwords| when every one was blank.
   */
  method AskPassword(passwords: seq<string>) returns (password: string, k: nat)
    ensures k <= |passwords|
    ensures forall j | 0 <= j < k :: passwords[j] == ""
    ensures k < |passwords| ==> password == passwords[k] && password != ""
  {
    k := 0;
    password := "";
    while k < |passwords|
      invariant k <= |passwords|
      invariant forall j | 0 <= j < k :: passwords[j] == ""
    {
      password := passwords[k];
      if password != "" {
        return;
      }
      k := k + 1;
    }
  }

  /**
   * A yes/no prompt loop: read until an answer is valid. k is the position of
   * the accepted answer, or |answers| (with Invalid) when none was valid.
   */
  method AskYesNo(answers: seq<string>) returns (answer: Answer, k: nat)
    ensures k <= |answers|
    ensures forall j | 0 <= j < k :: Classify(answers[j]) == Invalid
    ensures k < |answers| ==> answer == Classify(answers[k]) && answer != Invalid
    ensures k == |answers| ==> answer == Invalid
  {
    k := 0;
    while k < |answers|
      invariant k <= |answers|
      invariant forall j | 0 <= j < k :: Classify(answers[j]) == Invalid
    {
      answer := Classify(answers[k]);
      if answer != Invalid {
        return;
      }
      k := k + 1;
    }
    answer := Invalid;
  }

  /** A "yes" to "Was the backup successful?" moves on to the next location. */
  lemma RunConfirmYes(entries: seq<Entry>, m: Machine)
    requires ValidEntries(entries) && WellFormed(entries, m) && m.stage == Confirm && m.script.answers != []
    requires Classify(m.script.answers[0]) == Yes
    ensures Run(entries, m) ==
      Run(entries, AtEntry(entries, m.entry + 1, m.password, m.script.(answers := m.script.answers[1..]), m.log))
  {
    RunStep(entries, m);
    assert Step(entries, m) == ConfirmStep(entries, m);
  }

  /** A "no" to "Was the backup successful?" moves on to the delete offer. */
  lemma RunConfirmNo(entries: seq<Entry>, m: Machine)
    requires ValidEntries(entries) && WellFormed(entries, m) && m.stage == Confirm && m.script.answers != []
    requires Classify(m.script.answers[0]) == No
    ensures Run(entries, m) ==
      Run(entries, m.(stage := DeleteLatest, script := m.script.(answers := m.script.answers[1..])))
  {
    RunStep(entries, m);
  }

  /** A "yes" to "Delete the latest snapshot?" forgets it, then waits for Enter. */
  lemma RunDeleteYes(entries: seq<Entry>, m: Machine)
    requires ValidEntries(entries) && WellFormed(entries, m) && m.stage == DeleteLatest && m.script.answers != []
    requires Classify(m.script.answers[0]) == Yes
    ensures Run(entries, m) ==
      Run(entries, Restart(m.(script := m.script.(answers := m.script.answers[1..]),
        log := m.log + [Invocation(DeleteLatestCommand(Remote(entries[m.entry])), None, m.password)])))
  {
    RunStep(entries, m);
  }

  /** A "no" to "Delete the latest snapshot?" starts the location over at once. */
  lemma RunDeleteNo(entries: seq<Entry>, m: Machine)
    requires ValidEntries(entries) && WellFormed(entries, m) && m.stage == DeleteLatest && m.script.answers != []
    requires Classify(m.script.answers[0]) == No
    ensures Run(entries, m) ==
      Run(entries, m.(stage := CollectCredentials, script := m.script.(answers := m.script.answers[1..])))
  {
    RunStep(entries, m);
  }

  /** A yes/no prompt with no answer left stops the run where it is. */
  lemma RunOutOfAnswers(entries: seq<Entry>, m: Machine)
    requires ValidEntries(entries) && WellFormed(entries, m)
    requires m.stage == Confirm || m.stage == DeleteLatest
    requires m.script.answers == []
    ensures Run(entries, m) == m.(stage := Stopped(EndOfInput))
  {
    RunStep(entries, m);
  }

  /** A stopped machine is its own run. */
  lemma RunStopped(entries: seq<Entry>, m: Machine)
    requires ValidEntries(entries) && WellFormed(entries, m) && m.stage.Stopped?
    ensures Run(entries, m) == m
  {
  }

  /**
   * Password prompt of one location: blank answers re-prompt; the accepted
   * answer is put in the environment, or the run stops for lack of one.
   */
  method CollectPassword(entries: seq<Entry>, i: nat, password0: string, inputs0: Script, log: seq<Invocation>)
    returns (password: string, inputs: Script, next: Stage)
    requires ValidEntries(entries) && i < |entries|
    ensures next == Prune || next == Stopped(EndOfInput)
    ensures next == Prune ==> password != "" && Size(inputs) < Size(inputs0)
    ensures Run(entries, Machine(i, CollectCredentials, password0, inputs0, log))
      == Run(entries, Machine(i, next, password, inputs, log))
  {
    ghost var m := Machine(i, CollectCredentials, password0, inputs0, log);
    var typed, k := AskPassword(inputs0.passwords);
    password := password0;
    if k > 0 {
      SkipBlankPasswords(entries, m, k);
      password := "";
    }
    inputs := inputs0.(passwords := inputs0.passwords[k..]);
    m := Machine(i, CollectCredentials, password, inputs, log);
    if k == |inputs0.passwords| {
      RunStep(entries, m);
      return password, inputs, Stopped(EndOfInput);
    }
    RunStep(entries, m);
    password := typed;
    inputs := inputs.(passwords := inputs.passwords[1..]);
    next := Prune;
  }

  /** STEP 1: forget the old snapshots when a retention count is configured. */
  method PruneOld(entries: seq<Entry>, i: nat, password: string, inputs: Script, log0: seq<Invocation>)
    returns (log: seq<Invocation>)
    requires ValidEntries(entries) && i < |entries|
    ensures Run(entries, Machine(i, Prune, password, inputs, log0)) == Run(entries, Machine(i, Backup, password, inputs, log))
  {
    var e := entries[i];
    RunStep(entries, Machine(i, Prune, password, inputs, log0));
    log := log0;
    if e.maxSnapshots.value > 0 {
      var deleteOldSnapshotsCommand := PruneCommand(e.remotePath.value, e.maxSnapshots.value);
      log := log + [Invocation(deleteOldSnapshotsCommand, None, password)];
    }
  }

  /** STEP 2: back up; a rejected password sends the location back to the prompt. */
  method BackUp(entries: seq<Entry>, i: nat, password: string, inputs0: Script, log0: seq<Invocation>)
    returns (inputs: Script, log: seq<Invocation>, next: Stage)
    requires ValidEntries(entries) && i < |entries|
    ensures next in {CollectCredentials, Diff, Stopped(EndOfInput)}
    ensures Size(inputs) <= Size(inputs0)
    ensures Run(entries, Machine(i, Backup, password, inputs0, log0)) == Run(entries, Machine(i, next, password, inputs, log))
  {
    var e := entries[i];
    RunStep(entries, Machine(i, Backup, password, inputs0, log0));
    var backupCommand := BuildBackupCommand(e);
    inputs, log := inputs0, log0;
    if inputs.backupErrors == [] {
      return inputs, log, Stopped(EndOfInput);
    }
    var backupOutputErrors := inputs.backupErrors[0];
    inputs := inputs.(backupErrors := inputs.backupErrors[1..]);
    log := log + [Invocation(backupCommand, Some(e.localPath.value), password)];
    if !Contains(backupOutputErrors, WrongPassword) {
      return inputs, log, Diff;
    }
    // "Press Enter to restart this backup stage..."
    if inputs.answers == [] {
      return inputs, log, Stopped(EndOfInput);
    }
    inputs := inputs.(answers := inputs.answers[1..]);
    next := CollectCredentials;
  }

  /** STEP 3: list the snapshots and compare the two latest, when there are two. */
  method CompareLatest(entries: seq<Entry>, i: nat, password: string, inputs0: Script, log0: seq<Invocation>)
    returns (inputs: Script, log: seq<Invocation>, next: Stage)
    requires ValidEntries(entries) && i < |entries|
    ensures next in {Confirm, Stopped(EndOfInput), Stopped(UnreadableListing)}
    ensures Size(inputs) <= Size(inputs0)
    ensures Run(entries, Machine(i, Diff, password, inputs0, log0)) == Run(entries, Machine(i, next, password, inputs, log))
  {
    var remote := entries[i].remotePath.value;
    RunStep(entries, Machine(i, Diff, password, inputs0, log0));
    inputs, log := inputs0, log0;
    if inputs.listings == [] {
      return inputs, log, Stopped(EndOfInput);
    }
    var listSnapshotsOutput := inputs.listings[0];
    inputs := inputs.(listings := inputs.listings[1..]);
    log := log + [Invocation(SnapshotsCommand(remote), None, password)];
    match ParseListing(listSnapshotsOutput) {
      case TooShort =>
        return inputs, log, Stopped(UnreadableListing);
      case SingleSnapshot =>
      case TwoLatest(penultimateSnapshotId, latestSnapshotId) =>
        var lastSnapshotsDiffCommand := DiffCommand(remote, penultimateSnapshotId, latestSnapshotId);
        log := log + [Invocation(lastSnapshotsDiffCommand, None, password)];
    }
    next := Confirm;
  }

  /** The confirmation after k invalid answers and nothing more: the run stops. */
  lemma {:induction false} ConfirmUnanswered(entries: seq<Entry>, i: nat, password: string, script: Script, log: seq<Invocation>, k: nat)
    requires ValidEntries(entries) && i < |entries|
    requires k == |script.answers|
    requires forall j | 0 <= j < k :: Classify(script.answers[j]) == Invalid
    ensures Run(entries, Machine(i, Confirm, password, script, log)) ==
      Machine(i, Stopped(EndOfInput), password, script.(answers := []), log)
  {
    var m := Machine(i, Confirm, password, script, log);
    SkipInvalidAnswers(entries, m, k);
    RunOutOfAnswers(entries, m.(script := script.(answers := script.answers[k..])));
  }

  /** The confirmation after k invalid answers and then a "yes": the next location. */
  lemma {:induction false} ConfirmedAfter(entries: seq<Entry>, i: nat, password: string, script: Script, log: seq<Invocation>, k: nat)
    requires ValidEntries(entries) && i < |entries|
    requires k < |script.answers| && Classify(script.answers[k]) == Yes
    requires forall j | 0 <= j < k :: Classify(script.answers[j]) == Invalid
    ensures Run(entries, Machine(i, Confirm, password, script, log)) ==
      Run(entries, AtEntry(entries, i + 1, password, script.(answers := script.answers[k + 1..]), log))
  {
    var m := Machine(i, Confirm, password, script, log);
    SkipInvalidAnswers(entries, m, k);
    ConfirmYesAt(entries, i, password, script.(answers := script.answers[k..]), log);
    assert script.answers[k..][1..] == script.answers[k + 1..];
  }

  /** RunConfirmYes for a machine given by its parts. */
  lemma ConfirmYesAt(entries: seq<Entry>, i: nat, password: string, script: Script, log: seq<Invocation>)
    requires ValidEntries(entries) && i < |entries|
    requires script.answers != [] && Classify(script.answers[0]) == Yes
    ensures Run(entries, Machine(i, Confirm, password, script, log)) ==
      Run(entries, AtEntry(entries, i + 1, password, script.(answers := script.answers[1..]), log))
  {
    var m := Machine(i, Confirm, password, script, log);
    var next := AtEntry(entries, i + 1, password, script.(answers := script.answers[1..]), log);
    assert AtEntry(entries, m.entry + 1, m.password, m.script.(answers := m.script.answers[1..]), m.log) == next;
    RunConfirmYes(entries, m);
  }

  /** The confirmation after k invalid answers and then a "no": the delete offer. */
  lemma {:induction false} DeclinedAfter(entries: seq<Entry>, i: nat, password: string, script: Script, log: seq<Invocation>, k: nat)
    requires ValidEntries(entries) && i < |entries|
    requires k < |script.answers| && Classify(script.answers[k]) == No
    requires forall j | 0 <= j < k :: Classify(script.answers[j]) == Invalid
    ensures Run(entries, Machine(i, Confirm, password, script, log)) ==
      Run(entries, Machine(i, DeleteLatest, password, script.(answers := script.answers[k + 1..]), log))
  {
    DeclinedAt(entries, Machine(i, Confirm, password, script, log), k);
  }

  lemma {:induction false} DeclinedAt(entries: seq<Entry>, m: Machine, k: nat)
    requires ValidEntries(entries) && WellFormed(entries, m) && m.stage == Confirm
    requires k < |m.script.answers| && Classify(m.script.answers[k]) == No
    requires forall j | 0 <= j < k :: Classify(m.script.answers[j]) == Invalid
    ensures Run(entries, m) ==
      Run(entries, m.(stage := DeleteLatest, script := m.script.(answers := m.script.answers[k + 1..])))
  {
    var asked := m.(script := m.script.(answers := m.script.answers[k..]));
    var rest := m.script.(answers := m.script.answers[k + 1..]);
    assert Run(entries, m) == Run(entries, asked) by {
      SkipInvalidAnswers(entries, m, k);
    }
    assert asked.script.(answers := asked.script.answers[1..]) == rest by {
      assert asked.script.answers[1..] == m.script.answers[k + 1..];
    }
    assert Run(entries, asked) == Run(entries, m.(stage := DeleteLatest, script := rest)) by {
      assert asked.script.answers[0] == m.script.answers[k];
      RunConfirmNo(entries, asked);
    }
  }

  /**
   * "Was the backup successful?", asked until the answer is valid: yes
   * confirms the location, and next is the stage the following location
   * opens with (the run finishes after the last one); no goes on to the
   * delete offer.
   */
  method ConfirmBackup(entries: seq<Entry>, i: nat, password: string, inputs0: Script, log: seq<Invocation>)
    returns (inputs: Script, confirmed: bool, next: Stage)
    requires ValidEntries(entries) && i < |entries|
    ensures Size(inputs) <= Size(inputs0)
    ensures confirmed ==> next == AtEntry(entries, i + 1, password, inputs, log).stage
    ensures confirmed ==>
      Run(entries, Machine(i, Confirm, password, inputs0, log)) == Run(entries, AtEntry(entries, i + 1, password, inputs, log))
    ensures !confirmed ==> next == DeleteLatest || next == Stopped(EndOfInput)
    ensures !confirmed ==>
      Run(entries, Machine(i, Confirm, password, inputs0, log)) == Run(entries, Machine(i, next, password, inputs, log))
  {
    var isBackupSuccessful, k := AskYesNo(inputs0.answers);
    if isBackupSuccessful == Invalid {
      inputs := inputs0.(answers := []);
      ConfirmUnanswered(entries, i, password, inputs0, log, k);
      RunStopped(entries, Machine(i, Stopped(EndOfInput), password, inputs, log));
      return inputs, false, Stopped(EndOfInput);
    }
    inputs := inputs0.(answers := inputs0.answers[k + 1..]);
    confirmed := isBackupSuccessful == Yes;
    if confirmed {
      ConfirmedAfter(entries, i, password, inputs0, log, k);
      next := if i + 1 < |entries| then CollectCredentials else Stopped(Finished);
    } else {
      DeclinedAfter(entries, i, password, inputs0, log, k);
      next := DeleteLatest;
    }
  }

  /**
   * "Delete the latest snapshot?", asked until the answer is valid: yes
   * forgets it; either way the location starts over.
   */
  method OfferDelete(entries: seq<Entry>, i: nat, password: string, inputs0: Script, log0: seq<Invocation>)
    returns (inputs: Script, log: seq<Invocation>, next: Stage)
    requires ValidEntries(entries) && i < |entries|
    ensures next == CollectCredentials || next == Stopped(EndOfInput)
    ensures Size(inputs) <= Size(inputs0)
    ensures Run(entries, Machine(i, DeleteLatest, password, inputs0, log0)) == Run(entries, Machine(i, next, password, inputs, log))
  {
    var doDeleteLatestSnapshot, k := AskYesNo(inputs0.answers);
    SkipInvalidAnswers(entries, Machine(i, DeleteLatest, password, inputs0, log0), k);
    inputs, log := inputs0.(answers := inputs0.answers[k..]), log0;
    ghost var m := Machine(i, DeleteLatest, password, inputs, log);
    if doDeleteLatestSnapshot == Invalid {
      RunOutOfAnswers(entries, m);
      return inputs, log, Stopped(EndOfInput);
    }
    inputs := inputs.(answers := inputs.answers[1..]);
    if doDeleteLatestSnapshot == Yes {
      RunDeleteYes(entries, m);
      var deleteLatestSnapshotCommand := DeleteLatestCommand(entries[i].remotePath.value);
      log := log + [Invocation(deleteLatestSnapshotCommand, None, password)];
      // "Press Enter to restart this backup stage..."
      if inputs.answers == [] {
        RunStopped(entries, Machine(i, Stopped(EndOfInput), password, inputs, log));
        return inputs, log, Stopped(EndOfInput);
      }
      inputs := inputs.(answers := inputs.answers[1..]);
    } else {
      RunDeleteNo(entries, m);
    }
    next := CollectCredentials;
  }

  /**
   * One backup location: the `while True` loop of the driver (password
   * prompt, prune, backup with restart on a rejected password, snapshot
   * comparison, confirmation, optional deletion and restart). It ends either
   * with the entry confirmed, or with the run stopped, exactly as the state
   * machine does from the same state.
   */
  method BackupEntry(entries: seq<Entry>, i: nat, password0: string, inputs0: Script, log0: seq<Invocation>)
    returns (password: string, inputs: Script, log: seq<Invocation>, halt: Option<Halt>)
    requires ValidEntries(entries) && i < |entries|
    ensures halt.Some? ==>
      Run(entries, Machine(i, CollectCredentials, password0, inputs0, log0))
        == Machine(i, Stopped(halt.value), password, inputs, log)
    ensures halt.None? ==>
      Run(entries, Machine(i, CollectCredentials, password0, inputs0, log0))
        == Run(entries, AtEntry(entries, i + 1, password, inputs, log))
  {
    ghost var final := Run(entries, Machine(i, CollectCredentials, password0, inputs0, log0));
    password, inputs, log := password0, inputs0, log0;
    while true
      invariant Run(entries, Machine(i, CollectCredentials, password, inputs, log)) == final
      decreases Size(inputs)
    {
      ghost var size0 := Size(inputs);
      var next;
      password, inputs, next := CollectPassword(entries, i, password, inputs, log);
      if next.Stopped? {
        RunStopped(entries, Machine(i, next, password, inputs, log));
        return password, inputs, log, Some(next.halt);
      }
      log := PruneOld(entries, i, password, inputs, log);
      inputs, log, next := BackUp(entries, i, password, inputs, log);
      if next.Stopped? {
        RunStopped(entries, Machine(i, next, password, inputs, log));
        return password, inputs, log, Some(next.halt);
      } else if next == CollectCredentials {
        continue;
      }
      inputs, log, next := CompareLatest(entries, i, password, inputs, log);
      if next.Stopped? {
        RunStopped(entries, Machine(i, next, password, inputs, log));
        return password, inputs, log, Some(next.halt);
      }
      var confirmed;
      inputs, confirmed, next := ConfirmBackup(entries, i, password, inputs, log);
      if confirmed {
        return password, inputs, log, None;
      } else if next.Stopped? {
        RunStopped(entries, Machine(i, next, password, inputs, log));
        return password, inputs, log, Some(next.halt);
      }
      inputs, log, next := OfferDelete(entries, i, password, inputs, log);
      if next.Stopped? {
        RunStopped(entries, Machine(i, next, password, inputs, log));
        return password, inputs, log, Some(next.halt);
      }
    }
  }

  /**
   * backupFiles: the entries one after the other, each until it is confirmed.
   * It starts the same invocations, in the same order, as the state machine,
   * and ends for the same reason.
   */
  method BackupFiles(config: Config, script: Script) returns (log: seq<Invocation>, halt: Halt)
    requires ValidEntries(config.backupLocations)
    ensures var final := Run(config.backupLocations, Start(config.backupLocations, script));
      log == final.log && final.stage == Stopped(halt)
  {
    var entries := config.backupLocations;
    ghost var final := Run(entries, Start(entries, script));
    var inputs := script;
    var password := "";
    log := [];
    var backupCounter := 0;
    while backupCounter < |entries|
      invariant backupCounter <= |entries|
      invariant Run(entries, AtEntry(entries, backupCounter, password, inputs, log)) == final
    {
      var stopped;
      password, inputs, log, stopped := BackupEntry(entries, backupCounter, password, inputs, log);
      if stopped.Some? {
        return log, stopped.value;
      }
      backupCounter := backupCounter + 1;
    }
    halt := Finished;
  }
}
