/**
 * The restic command lines the driver issues for one backup location. Each is
 * an argument list addressed to the repository at the entry's remotePath.
 */
module Commands {
  import opened Wrappers
  import opened Decimal
  import opened Config

  type Command = seq<string>

  /** The common head of every command: restic against one repository. */
  function Repository(remote: string): Command {
    ["restic", "-r", remote]
  }

  /** Keep the last keepLast snapshots and reclaim the space of the others. */
  function PruneCommand(remote: string, keepLast: nat): Command {
    Repository(remote) + ["forget", "--keep-last", DecimalOf(keepLast), "--prune"]
  }

  /** `flag v` for each value v, in order. */
  function FlagPairs(flag: string, values: seq<string>): Command
    decreases |values|
  {
    if values == [] then [] else [flag, values[0]] + FlagPairs(flag, values[1..])
  }

  /** Back up the working directory, then `--tag` pairs, then `--exclude` pairs. */
  function BackupCommand(remote: string, tags: seq<string>, excludes: seq<string>): Command {
    Repository(remote) + ["backup", ".", "--skip-if-unchanged"]
    + FlagPairs("--tag", tags) + FlagPairs("--exclude", excludes)
  }

  function SnapshotsCommand(remote: string): Command {
    Repository(remote) + ["snapshots"]
  }

  /** Compare snapshot `older` with snapshot `newer`. */
  function DiffCommand(remote: string, older: string, newer: string): Command {
    Repository(remote) + ["diff", older, newer]
  }

  /** Forget the most recent snapshot and reclaim its space. */
  function DeleteLatestCommand(remote: string): Command {
    Repository(remote) + ["forget", "latest", "--prune"]
  }

  lemma {:induction false} FlagPairsAppend(flag: string, xs: seq<string>, ys: seq<string>)
    ensures FlagPairs(flag, xs + ys) == FlagPairs(flag, xs) + FlagPairs(flag, ys)
    decreases |xs|
  {
    if xs == [] {
      assert xs + ys == ys;
    } else {
      assert (xs + ys)[0] == xs[0] && (xs + ys)[1..] == xs[1..] + ys;
      FlagPairsAppend(flag, xs[1..], ys);
    }
  }

  /** Appends `flag v` for each value v, in order, one argument at a time. */
  method AppendFlagPairs(c0: Command, flag: string, values: seq<string>) returns (c: Command)
    ensures c == c0 + FlagPairs(flag, values)
  {
    c := c0;
    var i := 0;
    while i < |values|
      invariant i <= |values|
      invariant c == c0 + FlagPairs(flag, values[..i])
    {
      FlagPairsAppend(flag, values[..i], [values[i]]);
      assert FlagPairs(flag, [values[i]]) == [flag, values[i]];
      assert values[..i + 1] == values[..i] + [values[i]];
      c := c + [flag];
      c := c + [values[i]];
      i := i + 1;
    }
    assert values[..i] == values;
  }

  /**
   * The backup command as the driver grows it: the fixed head, then for each
   * configured tag and each configured exclude pattern two appended arguments.
   */
  method BuildBackupCommand(e: Entry) returns (c: Command)
    requires e.remotePath.Some?
    ensures c == BackupCommand(e.remotePath.value, Tags(e), Excludes(e))
  {
    c := ["restic", "-r", e.remotePath.value, "backup", ".", "--skip-if-unchanged"];
    assert c == Repository(e.remotePath.value) + ["backup", ".", "--skip-if-unchanged"];
    if e.tags.Some? && e.tags.value != [] {
      c := AppendFlagPairs(c, "--tag", e.tags.value);
    }
    if e.exclude.Some? && e.exclude.value != [] {
      c := AppendFlagPairs(c, "--exclude", e.exclude.value);
    }
  }

  lemma {:induction false} FlagPairsAt(flag: string, values: seq<string>, k: nat)
    requires k < |values|
    ensures |FlagPairs(flag, values)| == 2 * |values|
    ensures FlagPairs(flag, values)[2 * k] == flag && FlagPairs(flag, values)[2 * k + 1] == values[k]
    decreases |values|
  {
    FlagPairsLength(flag, values);
    if k > 0 {
      FlagPairsAt(flag, values[1..], k - 1);
    }
  }

  lemma {:induction false} FlagPairsLength(flag: string, values: seq<string>)
    ensures |FlagPairs(flag, values)| == 2 * |values|
    decreases |values|
  {
    if values != [] {
      FlagPairsLength(flag, values[1..]);
    }
  }

  /**
   * Layout of the backup command: 6 + 2*|tags| + 2*|excludes| arguments, the
   * k-th tag right after the k-th "--tag", the k-th pattern right after the
   * k-th "--exclude", tags before excludes, each in configuration order.
   */
  lemma BackupCommandLayout(remote: string, tags: seq<string>, excludes: seq<string>)
    ensures var c := BackupCommand(remote, tags, excludes);
      && |c| == 6 + 2 * |tags| + 2 * |excludes|
      && c[..6] == ["restic", "-r", remote, "backup", ".", "--skip-if-unchanged"]
      && (forall k | 0 <= k < |tags| :: c[6 + 2 * k] == "--tag" && c[7 + 2 * k] == tags[k])
      && (forall k | 0 <= k < |excludes| ::
            c[6 + 2 * |tags| + 2 * k] == "--exclude" && c[7 + 2 * |tags| + 2 * k] == excludes[k])
  {
    var c := BackupCommand(remote, tags, excludes);
    var t, x := FlagPairs("--tag", tags), FlagPairs("--exclude", excludes);
    FlagPairsLength("--tag", tags);
    FlagPairsLength("--exclude", excludes);
    assert c == Repository(remote) + ["backup", ".", "--skip-if-unchanged"] + t + x;
    forall k | 0 <= k < |tags|
      ensures c[6 + 2 * k] == "--tag" && c[7 + 2 * k] == tags[k]
    {
      FlagPairsAt("--tag", tags, k);
      assert c[6 + 2 * k] == t[2 * k] && c[7 + 2 * k] == t[2 * k + 1];
    }
    forall k | 0 <= k < |excludes|
      ensures c[6 + 2 * |tags| + 2 * k] == "--exclude" && c[7 + 2 * |tags| + 2 * k] == excludes[k]
    {
      FlagPairsAt("--exclude", excludes, k);
      assert c[6 + 2 * |tags| + 2 * k] == x[2 * k] && c[7 + 2 * |tags| + 2 * k] == x[2 * k + 1];
    }
  }

  /** What a command line asks restic to do, apart from the repository. */
  datatype Operation =
    | Forget(keepLast: nat)
    | MakeSnapshot(tags: seq<string>, excludes: seq<string>)
    | ListSnapshots
    | Compare(older: string, newer: string)
    | ForgetLatest

  /** The command the driver builds for an operation on a repository. */
  function CommandFor(remote: string, op: Operation): Command {
    match op
    case Forget(n) => PruneCommand(remote, n)
    case MakeSnapshot(tags, excludes) => BackupCommand(remote, tags, excludes)
    case ListSnapshots => SnapshotsCommand(remote)
    case Compare(older, newer) => DiffCommand(remote, older, newer)
    case ForgetLatest => DeleteLatestCommand(remote)
  }

  /**
   * Leading `flag v` pairs of args: their values, and what follows them.
   */
  function ReadFlagPairs(flag: string, args: Command): (r: (seq<string>, Command))
    ensures |r.1| <= |args|
    decreases |args|
  {
    if |args| >= 2 && args[0] == flag then
      var (values, rest) := ReadFlagPairs(flag, args[2..]);
      ([args[1]] + values, rest)
    else ([], args)
  }

  /** Reads a command line back into its repository and operation. */
  function ReadCommand(c: Command): Option<(string, Operation)> {
    if |c| < 4 || c[0] != "restic" || c[1] != "-r" then None
    else
      var remote, args := c[2], c[4..];
      match c[3]
      case "forget" =>
        if |args| == 3 && args[0] == "--keep-last" && args[2] == "--prune"
           && ParseDecimal(args[1]).Some?
        then Some((remote, Forget(ParseDecimal(args[1]).value)))
        else if args == ["latest", "--prune"] then Some((remote, ForgetLatest))
        else None
      case "backup" =>
        if |args| >= 2 && args[..2] == [".", "--skip-if-unchanged"] then
          var (tags, afterTags) := ReadFlagPairs("--tag", args[2..]);
          var (excludes, rest) := ReadFlagPairs("--exclude", afterTags);
          if rest == [] then Some((remote, MakeSnapshot(tags, excludes))) else None
        else None
      case "snapshots" => if args == [] then Some((remote, ListSnapshots)) else None
      case "diff" => if |args| == 2 then Some((remote, Compare(args[0], args[1]))) else None
      case _ => None
  }

  lemma {:induction false} ReadFlagPairsOf(flag: string, values: seq<string>, rest: Command)
    requires rest == [] || rest[0] != flag
    ensures ReadFlagPairs(flag, FlagPairs(flag, values) + rest) == (values, rest)
    decreases |values|
  {
    if values != [] {
      var args := FlagPairs(flag, values) + rest;
      assert args == [flag, values[0]] + (FlagPairs(flag, values[1..]) + rest);
      assert args[0] == flag && args[1] == values[0];
      assert args[2..] == FlagPairs(flag, values[1..]) + rest;
      ReadFlagPairsOf(flag, values[1..], rest);
      assert values == [values[0]] + values[1..];
    } else {
      assert FlagPairs(flag, values) + rest == rest;
    }
  }

  lemma ReadPruneCommand(remote: string, n: nat)
    ensures ReadCommand(PruneCommand(remote, n)) == Some((remote, Forget(n)))
  {
    ParseDecimalOf(n);
    assert PruneCommand(remote, n)[4..] == ["--keep-last", DecimalOf(n), "--prune"];
  }

  lemma ReadBackupCommand(remote: string, tags: seq<string>, excludes: seq<string>)
    ensures ReadCommand(BackupCommand(remote, tags, excludes)) == Some((remote, MakeSnapshot(tags, excludes)))
  {
    var c := BackupCommand(remote, tags, excludes);
    var args := FlagPairs("--tag", tags) + FlagPairs("--exclude", excludes);
    assert c[4..] == [".", "--skip-if-unchanged"] + args;
    assert c[4..][2..] == args;
    ReadBackupFlags(tags, excludes);
  }

  /** The tag pairs and the exclude pairs of a backup command read back apart. */
  lemma ReadBackupFlags(tags: seq<string>, excludes: seq<string>)
    ensures var read := ReadFlagPairs("--tag", FlagPairs("--tag", tags) + FlagPairs("--exclude", excludes));
      read.0 == tags && ReadFlagPairs("--exclude", read.1) == (excludes, [])
  {
    var x := FlagPairs("--exclude", excludes);
    assert x == [] || x[0] == "--exclude";
    ReadFlagPairsOf("--tag", tags, x);
    ReadFlagPairsOf("--exclude", excludes, []);
    assert x + [] == x;
  }

  lemma ReadListingCommands(remote: string, older: string, newer: string)
    ensures ReadCommand(SnapshotsCommand(remote)) == Some((remote, ListSnapshots))
    ensures ReadCommand(DiffCommand(remote, older, newer)) == Some((remote, Compare(older, newer)))
  {
    assert SnapshotsCommand(remote)[4..] == [];
    assert DiffCommand(remote, older, newer)[4..] == [older, newer];
  }

  lemma ReadDeleteLatestCommand(remote: string)
    ensures ReadCommand(DeleteLatestCommand(remote)) == Some((remote, ForgetLatest))
  {
    assert DeleteLatestCommand(remote)[4..] == ["latest", "--prune"];
  }

  /**
   * Every command the driver builds is unambiguous: reading it back yields
   * the repository and the operation with all its parameters.
   */
  lemma ReadCommandFor(remote: string, op: Operation)
    ensures ReadCommand(CommandFor(remote, op)) == Some((remote, op))
  {
    match op
    case Forget(n) => ReadPruneCommand(remote, n);
    case MakeSnapshot(tags, excludes) => ReadBackupCommand(remote, tags, excludes);
    case ListSnapshots => ReadListingCommands(remote, "", "");
    case Compare(older, newer) => ReadListingCommands(remote, older, newer);
    case ForgetLatest => ReadDeleteLatestCommand(remote);
  }

  /** The argument after "--keep-last" reads back as the retention count. */
  lemma PruneKeepsCount(remote: string, keepLast: nat)
    ensures var c := PruneCommand(remote, keepLast);
      |c| == 7 && c[4] == "--keep-last" && ParseDecimal(c[5]) == Some(keepLast)
  {
    ParseDecimalOf(keepLast);
  }
}
