# FrogBackup driver core, modelled in Dafny

FrogBackup (`frogbackup.py`) is an interactive front end to the restic
backup tool. The program does the following:

- It loads `config.yaml` and checks that every entry of `backupLocations`
  has a name, a local path, a remote repository path and a retention count.
- It walks the locations one by one. For each location it:
  - asks for the repository password;
  - prunes old snapshots when the retention count is positive;
  - backs up the local path;
  - lists the repository's snapshots and compares the two latest;
  - asks the operator whether the backup succeeded.
- A "no" to that question offers to forget the latest snapshot, and then
  the location starts over.
- A rejected password also starts the location over.

This project models that core:

- `Wrappers.dfy`: `Option`.
- `Decimal.dfy`: Python's `str()` of a non-negative integer, used for the
  `--keep-last` argument, and the parser that reads it back.
- `Text.dfy`: the Python string operations the driver relies on:
  - `strip()`, over Python's whitespace set;
  - `lower()`;
  - the `in` substring test;
  - the digit test over a line;
  - `splitlines()`, over Python's line-boundary set.
- `Config.dfy`: the configuration entries and the integrity check of
  `initialChecks`, as a loop-based method. It is proved against a
  specification function of the error list. The error text is proved to
  identify the field and the block it names.
- `Commands.dfy`: the five restic command lines the driver builds. The
  backup command is also built as the source does, by appending `--tag` and
  `--exclude` pairs in loops. A reader recovers the repository and the
  operation from every command line the builders produce.
- `Snapshots.dfy`: how the two latest snapshot IDs are read off the
  `restic snapshots` listing: reverse the lines, test the fourth for a digit
  and take eight-character prefixes.
- `Stages.dfy`: the per-location loop of `backupFiles`, as a state machine
  (`Step`/`Run`).
  - Everything the outside world supplies is a `Script` of queues:
    passwords typed, lines typed at the yes/no prompts and at the "Press
    Enter to restart this backup stage" pauses, the backup's error output
    and the listing's output.
  - The machine records every restic process it would start, with its
    arguments, working directory and `RESTIC_PASSWORD`.
  - The methods `BackupFiles` and `BackupEntry` follow the nested
    `while True` loops of the source. Each stage is a method proved equal to
    `Run`.
- `Behaviour.dfy`: what the machine guarantees, stage by stage and for
  whole runs. It also has two complete sessions over a concrete listing.

## Model

| member | source | states |
|---|---|---|
| Config.EntryErrors | frogbackup.py:47-54 | Definition: the errors of one block, one per required field that is blank or missing, in field order. |
| Config.Errors | frogbackup.py:44-54 | Definition: the errors of all blocks in block order, block k being the k-th entry counted from 1. |
| Config.InitialChecks | frogbackup.py:41-59 | The check returns the configuration unchanged exactly when no block lacks a required field. Otherwise it exits with status 1 and reports every missing field, block by block. |
| Config.ErrorsReportEveryMissingField | frogbackup.py:44-54 | A field of block k (counted from 1) is reported iff block k exists and that field is absent or blank. For maxSnapshots, only absent or null counts as missing. |
| Config.ErrorsOrdered | frogbackup.py:44-54 | Errors come in block order, and within a block in the order name, localPath, remotePath, maxSnapshots. |
| Config.NoErrorsMeansComplete | frogbackup.py:55-59 | The check passes iff every entry has all four required fields. |
| Config.ReadErrorTextOf | frogbackup.py:47-54 | Each error string `field (block k)` reads back as the field and block it was made from. |
| Config.ErrorTextInjective | frogbackup.py:47-54 | Distinct errors never print the same text. |
| Decimal.ParseDecimalOf | frogbackup.py:132 | `str()` of a retention count is a digit string that parses back to the same count. |
| Decimal.DecimalOfInjective | frogbackup.py:132 | Distinct counts give distinct `--keep-last` arguments. |
| Text.Strip | frogbackup.py:263 | `strip()` returns the middle of the input. What it cuts off at either end is whitespace, and the result neither starts nor ends with whitespace. |
| Text.LowerSingle | frogbackup.py:263 | A string lowers to a single lower-case letter iff it is that letter in either case. |
| Text.SplitJoinLines | frogbackup.py:219 | `splitlines()` of lines each ended by a newline gives back exactly those lines. |
| Commands.PruneCommand | frogbackup.py:128-134 | Definition: `restic -r remote forget --keep-last N --prune`. |
| Commands.BackupCommand | frogbackup.py:161-178 | Definition: `restic -r remote backup . --skip-if-unchanged`, then a `--tag` pair per tag, then an `--exclude` pair per exclusion. |
| Commands.SnapshotsCommand | frogbackup.py:211-215 | Definition: `restic -r remote snapshots`. |
| Commands.DiffCommand | frogbackup.py:229-235 | Definition: `restic -r remote diff older newer`. |
| Commands.DeleteLatestCommand | frogbackup.py:302-307 | Definition: `restic -r remote forget latest --prune`. |
| Commands.AppendFlagPairs | frogbackup.py:170-172 | The append loop adds one flag/value pair per value, in order. |
| Commands.BuildBackupCommand | frogbackup.py:161-178 | The list built by appending gives `restic -r remote backup . --skip-if-unchanged`, then a `--tag` pair per tag, then an `--exclude` pair per exclusion. Missing or empty lists add nothing. |
| Commands.BackupCommandLayout | frogbackup.py:161-178 | Every position of the backup command: the fixed prefix, tag k at 7+2k and exclusion k after all tags. |
| Commands.FlagPairsAppend | frogbackup.py:169-178 | The pairs for the concatenation of two value lists are the pairs of the first followed by the pairs of the second. |
| Commands.ReadCommandFor | frogbackup.py:126-307 | Each of the five command lines reads back as its repository and operation, so no two operations share a command line. |
| Commands.ReadBackupCommand | frogbackup.py:161-178 | The backup command reads back as its repository, tags and exclusions. |
| Commands.ReadListingCommands | frogbackup.py:211-235 | The listing command and the diff command read back. The older ID comes before the newer one. |
| Commands.PruneKeepsCount | frogbackup.py:128-134 | The prune command is `forget --keep-last N --prune`, and its argument parses back to N. |
| Snapshots.ParseListing | frogbackup.py:219-226 | Definition: split the output into lines and reverse them. Fewer than four lines is `TooShort`. If reversed line 3 holds no digit, the result is `SingleSnapshot`. Otherwise it is `TwoLatest` of the first eight characters of reversed lines 3 and 2. |
| Snapshots.ListingFromEnd | frogbackup.py:219-226 | The conclusion stated on the lines in their own order. The penultimate ID is the first eight characters of the fourth line from the end, and the latest is the third. A comparison happens iff the fourth line from the end holds a digit. Fewer than four lines is unreadable. |
| Snapshots.ListingOfLines | frogbackup.py:219-226 | The same conclusion for a listing written out line by line. |
| Snapshots.ShortListing | frogbackup.py:222 | A listing of fewer than four lines cannot be read. In the source this is the IndexError on `dividedOutput[3]`. |
| Stages.Classify | frogbackup.py:263-289 | Definition: strip and lower the answer; "y" or "s" is yes, "n" is no, anything else is invalid. |
| Stages.CollectStep | frogbackup.py:106-115 | Definition: take the next password. A blank one asks again; any other is put in the environment and the stage moves to pruning. |
| Stages.PruneStep | frogbackup.py:125-154 | Definition: with a positive maxSnapshots, record the prune command; either way move to the backup. |
| Stages.Restart | frogbackup.py:201-202 | Definition: the "Press Enter to restart this backup stage" pause consumes one typed line and returns the location to the password prompt. |
| Stages.BackupStep | frogbackup.py:161-202 | Definition: record the backup command run from the local path. If its error output contains "wrong password", pause and restart; otherwise move to the comparison. |
| Stages.DiffStep | frogbackup.py:210-251 | Definition: record the listing command and parse its output. An unreadable listing stops the run; with two snapshots, record the diff of the penultimate against the latest; then move to the confirmation. |
| Stages.ConfirmStep | frogbackup.py:260-278 | Definition: a yes moves to the next location, or finishes after the last; a no moves to the delete offer; an invalid answer asks again. |
| Stages.DeleteStep | frogbackup.py:280-331 | Definition: a yes records `forget latest --prune`, then pauses and restarts; a no restarts at once; an invalid answer asks again. |
| Stages.Step | frogbackup.py:76-331 | Definition: one transition of the current location's stage. Its contract says each step consumes an input or moves to a later stage, keeps the log and never goes back an entry. |
| Stages.Run | frogbackup.py:72-331 | Definition: steps until the run stops, which it always does, since the script is finite. |
| Stages.ClassifyAnswers | frogbackup.py:263-295 | An answer is yes iff, stripped, it is y, Y, s or S. It is no iff, stripped, it is n or N. Anything else is asked again. |
| Stages.SkipBlankPasswords | frogbackup.py:106-115 | Blank passwords at the prompt are consumed and change nothing else. |
| Stages.SkipInvalidAnswers | frogbackup.py:261-292 | Invalid answers at either yes/no prompt are consumed and change nothing else. |
| Stages.AskPassword | frogbackup.py:106-115 | The prompt loop stops at the first non-blank password, having skipped only blank ones. |
| Stages.AskYesNo | frogbackup.py:261-292 | The question loop stops at the first valid answer, having skipped only invalid ones. |
| Stages.RunConfirmYes | frogbackup.py:271-273 | A yes to the confirmation moves to the next location, or finishes the run after the last. |
| Stages.RunConfirmNo | frogbackup.py:274-292 | A no to the confirmation moves to the delete offer. |
| Stages.RunDeleteYes | frogbackup.py:295-331 | A yes to the delete offer starts `forget latest --prune`, waits for Enter and restarts the location. |
| Stages.RunDeleteNo | frogbackup.py:289-295 | A no to the delete offer restarts the location at once. |
| Stages.RunOutOfAnswers | frogbackup.py:261-292 | A yes/no prompt with no input left ends the run. |
| Stages.ConfirmUnanswered | frogbackup.py:261-269 | After only invalid answers, with no input left, the confirmation ends the run. |
| Stages.ConfirmedAfter | frogbackup.py:261-273 | Invalid answers followed by a yes move to the next location, with the answers after the yes still unread. |
| Stages.DeclinedAfter | frogbackup.py:261-292 | Invalid answers followed by a no lead to the delete offer, with the answers after the no still unread. |
| Stages.CollectPassword | frogbackup.py:105-115 | The password stage, as a loop, matches the machine. It either yields a non-blank password and moves on to pruning, or the input is exhausted. |
| Stages.PruneOld | frogbackup.py:125-154 | The prune stage, as a method, matches the machine. |
| Stages.BackUp | frogbackup.py:161-202 | The backup stage matches the machine. It continues to the comparison, restarts the location after a rejected password and the Enter pause, or runs out of input. |
| Stages.CompareLatest | frogbackup.py:210-251 | The listing and diff stage matches the machine. It ends at the confirmation, or stops on an unreadable listing or exhausted input. |
| Stages.ConfirmBackup | frogbackup.py:260-278 | The confirmation loop matches the machine. On a yes it reports the backup confirmed and returns the stage the next location opens with. Otherwise it goes on to the delete offer, or stops when input runs out. |
| Stages.OfferDelete | frogbackup.py:280-331 | The delete-offer loop matches the machine, and always comes back to the password prompt unless input runs out. |
| Stages.BackupEntry | frogbackup.py:76-331 | The inner `while True` of one location computes the same outcome as the machine: the next location, or the reason the run stopped. |
| Stages.BackupFiles | frogbackup.py:62-331 | The whole loop over the locations starts exactly the processes the machine records and stops for the same reason. |
| Behaviour.StepStartsOwnStage | frogbackup.py:125-331 | A step starts at most two restic processes. Each runs on the current location's repository, with the password in the environment, and performs an operation of the current stage. |
| Behaviour.PromptStartsNothing | frogbackup.py:106-115 | The password prompt starts nothing. A blank answer asks again; any other moves to pruning with that password. |
| Behaviour.PruneOnlyWhenConfigured | frogbackup.py:126-154 | Old snapshots are pruned iff maxSnapshots is positive, by one `forget --keep-last maxSnapshots --prune`. The backup follows either way. |
| Behaviour.WrongPasswordRestarts | frogbackup.py:181-202 | The backup runs from the local path with the entry's tags and exclusions. The location restarts at the password prompt iff restic's error output contains "wrong password", and otherwise goes on to the comparison. |
| Behaviour.CompareOnlyTwoLatest | frogbackup.py:211-235 | The snapshots are always listed. The two latest are compared, penultimate first, iff the listing shows two. A listing of fewer than four lines stops the run. |
| Behaviour.AdvanceOnlyOnYes | frogbackup.py:271-273 | The run moves to another location only on a yes to the confirmation, and then to the next one. |
| Behaviour.NoOffersDelete | frogbackup.py:274-292 | A no to the confirmation leads to the delete offer and starts nothing. |
| Behaviour.DeleteOfferOnlyAfterNo | frogbackup.py:271-292 | The delete offer is only reached by a no to the confirmation, or again from the offer itself after an invalid answer; a valid answer to the offer never leads back to it. |
| Behaviour.DeleteOnlyOnYes | frogbackup.py:294-331 | The latest snapshot is forgotten iff the answer is yes. The location restarts at the password prompt either way. |
| Behaviour.InvalidAnswerAsksAgain | frogbackup.py:266-292 | An invalid answer is asked again and has no other effect. |
| Behaviour.StepGuarded | frogbackup.py:105-309 | One step keeps the invariant: every process started so far had a non-blank password and a well-formed command line. |
| Behaviour.StepKeepsPassword | frogbackup.py:105-115 | Once past the prompt, the environment holds a non-blank password at every later stage of the location. |
| Behaviour.RunGuarded | frogbackup.py:72-331 | From a guarded state, a run only adds to the log, never returns to an earlier location and stays guarded. |
| Behaviour.SessionNeverBlank | frogbackup.py:62-331 | No restic process of any session is started with a blank password, and every command line it starts reads back as one of the five operations. |
| Behaviour.FourSnapshotsCompared | frogbackup.py:219-226 | On a listing of four snapshots, the third and the fourth are compared by their short IDs. |
| Behaviour.OneSnapshotNotCompared | frogbackup.py:221-223 | On a listing of one snapshot, nothing is compared. |
| Behaviour.ConfirmedSession | frogbackup.py:72-273 | A location keeping 5 snapshots, confirmed with yes, goes through prune, plain backup, listing and diff of the two newest, and finishes. |
| Behaviour.DeclinedSession | frogbackup.py:72-331 | A location keeping no snapshots, answered no twice, gets no prune, one backup, one listing, no deletion and a restart. |
| Behaviour.SessionAnswers | frogbackup.py:263-266 | "Y" reads as yes; "N" and "n" read as no. |
| Behaviour.TypedSessions | frogbackup.py:62-331 | The two sessions with the answers typed as "Y", and as "N" then "n". |

## Left out

- Loading `config.yaml`: reading and parsing the YAML file, and exiting
  when it is absent. The model starts from the parsed entries, where an
  absent or null key is `None`.
- Language selection and gettext translation: the texts are fixed English.
- YAML values of the wrong type. The model's types rule these values out.
  In the source they behave as follows:
  - A string `tags` or `exclude` (say `tags: nightly`) raises nothing. The
    append loops walk its characters and pass `--tag n --tag i …`. A
    mapping is walked by its keys in the same way.
  - A float or boolean `maxSnapshots` raises nothing either. It passes the
    presence check, the `> 0` test decides on it, and `str()` passes
    `--keep-last 5.0` or `--keep-last True`.
  - A string `maxSnapshots` raises a TypeError at the `> 0` test.
  - An entry that is not a mapping raises an AttributeError at `.get`.
- Screen clearing, window titles, the banners and the progress counter.
  They do not influence control flow.
- Printing restic's output as it streams. Only the two outputs the driver
  inspects are inputs of the model: the backup's error output and the
  listing's standard output. Exit codes and the output of the other
  commands are never read by the source.
- The process environment: `os.environ.copy()` is reduced to the one
  variable the driver sets, `RESTIC_PASSWORD`.
- `getpass`, `input` and terminal input: these become queues in `Script`.
  The answers queue feeds both the yes/no prompts and the two "Press Enter
  to restart this backup stage" pauses. Reaching the end of the passwords
  or answers (an EOFError in Python) stops the run with `EndOfInput`.
- The run also stops with `EndOfInput` when the scripted backup error
  outputs or listings run out. This stop exists only in the model: in the
  source a finished restic process always yields its output, possibly empty.
- The IndexError raised on a listing of fewer than four lines: the run
  stops with `UnreadableListing` instead of propagating an exception.
- `main`: the welcome and exit screens and their Enter pauses. These happen
  before and after `backupFiles` and hold nothing else.
- Text.Lower: ASCII letters only. Python's `lower()` also folds non-ASCII
  letters, but none of them folds to the ASCII letters y, s or n that the
  answers are compared with.
- Text.HasDigit: ASCII digits only. Python's `isdigit()` also accepts other
  Unicode digits, such as superscripts and digits of other scripts; a line
  that holds such a digit but no ASCII digit is read as "no snapshot" here,
  where the source would read it as one.
- Stages.BackupFiles: requires every entry to be complete (`ValidEntries`).
  The source only calls `backupFiles` after `initialChecks` succeeded, and
  `Config.NoErrorsMeansComplete` shows the two conditions agree.
- restic itself: what the commands do to the repository is outside the
  model; a run's outcome depends only on the scripted replies.
