/**
 * The configuration of backup locations and the start-up integrity check
 * (`initialChecks`): every entry is inspected, blocks are numbered from 1,
 * and one error is collected for each required field that is blank or missing.
 */
module Config {
  import opened Wrappers
  import opened Decimal

  /**
   * One item of `backupLocations`. A key that is absent or null is None.
   * `maxSnapshots` is whatever integer the file holds (it may be 0).
   */
  datatype Entry = Entry(
    name: Option<string>,
    localPath: Option<string>,
    remotePath: Option<string>,
    maxSnapshots: Option<int>,
    tags: Option<seq<string>>,
    exclude: Option<seq<string>>)

  /** The parsed file; an absent `backupLocations` key reads as no entries. */
  datatype Config = Config(backupLocations: seq<Entry>)

  /** The four required fields, in the order the check visits them. */
  datatype Field = Name | LocalPath | RemotePath | MaxSnapshots

  function FieldRank(f: Field): nat {
    match f
    case Name => 0
    case LocalPath => 1
    case RemotePath => 2
    case MaxSnapshots => 3
  }

  /** An error names the field and the 1-based block it is missing from. */
  datatype FieldError = FieldError(field: Field, block: nat)

  /** Python falsiness of a string value: absent, null or "". */
  predicate Blank(v: Option<string>) {
    v.None? || v.value == ""
  }

  /**
   * Whether the check reports field f of entry e. The three strings must be
   * non-blank; the retention count only has to be present, so 0 is accepted.
   */
  predicate Missing(e: Entry, f: Field) {
    match f
    case Name => Blank(e.name)
    case LocalPath => Blank(e.localPath)
    case RemotePath => Blank(e.remotePath)
    case MaxSnapshots => e.maxSnapshots.None?
  }

  predicate Complete(e: Entry) {
    !Missing(e, Name) && !Missing(e, LocalPath) && !Missing(e, RemotePath) && !Missing(e, MaxSnapshots)
  }

  /** The tags the backup is labelled with; absent and empty both mean none. */
  function Tags(e: Entry): seq<string> {
    if e.tags.Some? then e.tags.value else []
  }

  /** The exclude patterns; absent and empty both mean none. */
  function Excludes(e: Entry): seq<string> {
    if e.exclude.Some? then e.exclude.value else []
  }

  /** The errors of one block, in field order. */
  function EntryErrors(e: Entry, block: nat): seq<FieldError> {
    (if Missing(e, Name) then [FieldError(Name, block)] else [])
    + (if Missing(e, LocalPath) then [FieldError(LocalPath, block)] else [])
    + (if Missing(e, RemotePath) then [FieldError(RemotePath, block)] else [])
    + (if Missing(e, MaxSnapshots) then [FieldError(MaxSnapshots, block)] else [])
  }

  /** The errors of all blocks, block by block; block k is entries[k - 1]. */
  function Errors(entries: seq<Entry>): seq<FieldError>
    decreases |entries|
  {
    if entries == [] then []
    else Errors(entries[..|entries| - 1]) + EntryErrors(entries[|entries| - 1], |entries|)
  }

  /** Outcome of the check: the configuration unchanged, or exit status and errors. */
  datatype Checked = Loaded(config: Config) | Exit(status: int, errors: seq<FieldError>)

  /**
   * initialChecks after the file is loaded: walk the entries with a block
   * counter, collect every missing field, and stop with status 1 if any was found.
   */
  method InitialChecks(config: Config) returns (r: Checked)
    ensures Errors(config.backupLocations) == [] ==> r == Loaded(config)
    ensures Errors(config.backupLocations) != [] ==> r == Exit(1, Errors(config.backupLocations))
  {
    var entries := config.backupLocations;
    var errors: seq<FieldError> := [];
    var blockCounter: nat := 0;
    while blockCounter < |entries|
      invariant blockCounter <= |entries|
      invariant errors == Errors(entries[..blockCounter])
    {
      var e := entries[blockCounter];
      ghost var before := errors;
      blockCounter := blockCounter + 1;
      if Blank(e.name) {
        errors := errors + [FieldError(Name, blockCounter)];
      }
      ghost var afterName := errors;
      if Blank(e.localPath) {
        errors := errors + [FieldError(LocalPath, blockCounter)];
      }
      ghost var afterLocal := errors;
      if Blank(e.remotePath) {
        errors := errors + [FieldError(RemotePath, blockCounter)];
      }
      ghost var afterRemote := errors;
      if e.maxSnapshots.None? {
        errors := errors + [FieldError(MaxSnapshots, blockCounter)];
      }
      BlockChecked(e, blockCounter, before, afterName, afterLocal, afterRemote, errors);
      ErrorsExtend(entries, blockCounter - 1);
    }
    assert entries[..blockCounter] == entries;
    if errors != [] {
      return Exit(1, errors);
    }
    return Loaded(config);
  }

  /** The four field tests of one block, in sequence, append that block's errors. */
  lemma BlockChecked(e: Entry, block: nat, s0: seq<FieldError>, s1: seq<FieldError>,
                     s2: seq<FieldError>, s3: seq<FieldError>, s4: seq<FieldError>)
    requires s1 == s0 + (if Missing(e, Name) then [FieldError(Name, block)] else [])
    requires s2 == s1 + (if Missing(e, LocalPath) then [FieldError(LocalPath, block)] else [])
    requires s3 == s2 + (if Missing(e, RemotePath) then [FieldError(RemotePath, block)] else [])
    requires s4 == s3 + (if Missing(e, MaxSnapshots) then [FieldError(MaxSnapshots, block)] else [])
    ensures s4 == s0 + EntryErrors(e, block)
  {
  }

  /** The check of one more block appends that block's errors. */
  lemma ErrorsExtend(entries: seq<Entry>, k: nat)
    requires k < |entries|
    ensures Errors(entries[..k + 1]) == Errors(entries[..k]) + EntryErrors(entries[k], k + 1)
  {
    assert entries[..k + 1][..k] == entries[..k];
  }

  lemma EntryErrorsAre(e: Entry, block: nat, x: FieldError)
    ensures x in EntryErrors(e, block) <==> x.block == block && Missing(e, x.field)
  {
  }

  /**
   * Errors are collected across all blocks: an error is reported exactly when
   * its block exists and that block lacks the field.
   */
  lemma {:induction false} ErrorsReportEveryMissingField(entries: seq<Entry>, x: FieldError)
    ensures x in Errors(entries) <==> 1 <= x.block <= |entries| && Missing(entries[x.block - 1], x.field)
    decreases |entries|
  {
    if entries != [] {
      var init := entries[..|entries| - 1];
      ErrorsReportEveryMissingField(init, x);
      EntryErrorsAre(entries[|entries| - 1], |entries|, x);
      if 1 <= x.block < |entries| {
        assert init[x.block - 1] == entries[x.block - 1];
      }
    }
  }

  /** Strict order of reports: by block, then by field within a block. */
  predicate Precedes(a: FieldError, b: FieldError) {
    a.block < b.block || (a.block == b.block && FieldRank(a.field) < FieldRank(b.field))
  }

  predicate Ordered(errs: seq<FieldError>) {
    forall i, j | 0 <= i < j < |errs| :: Precedes(errs[i], errs[j])
  }

  lemma EntryErrorsOrdered(e: Entry, block: nat)
    ensures Ordered(EntryErrors(e, block))
    ensures forall x | x in EntryErrors(e, block) :: x.block == block
  {
  }

  /**
   * Reports come in configuration order and, within a block, in the order
   * name, localPath, remotePath, maxSnapshots; so none is reported twice.
   */
  lemma {:induction false} ErrorsOrdered(entries: seq<Entry>)
    ensures Ordered(Errors(entries))
    decreases |entries|
  {
    if entries != [] {
      var init := entries[..|entries| - 1];
      var n := |entries|;
      ErrorsOrdered(init);
      EntryErrorsOrdered(entries[n - 1], n);
      var front, back := Errors(init), EntryErrors(entries[n - 1], n);
      forall i | 0 <= i < |front|
        ensures front[i].block < n
      {
        ErrorsReportEveryMissingField(init, front[i]);
      }
      var all := front + back;
      forall i, j | 0 <= i < j < |all|
        ensures Precedes(all[i], all[j])
      {
        if j < |front| {
          assert all[i] == front[i] && all[j] == front[j];
        } else if i >= |front| {
          assert all[i] == back[i - |front|] && all[j] == back[j - |front|];
        } else {
          assert all[j] in back;
        }
      }
    }
  }

  /** The check passes exactly when every entry has all four required fields. */
  lemma {:induction false} NoErrorsMeansComplete(entries: seq<Entry>)
    ensures Errors(entries) == [] <==> forall k | 0 <= k < |entries| :: Complete(entries[k])
  {
    if Errors(entries) == [] {
      forall k | 0 <= k < |entries|
        ensures Complete(entries[k])
      {
        ErrorsReportEveryMissingField(entries, FieldError(Name, k + 1));
        ErrorsReportEveryMissingField(entries, FieldError(LocalPath, k + 1));
        ErrorsReportEveryMissingField(entries, FieldError(RemotePath, k + 1));
        ErrorsReportEveryMissingField(entries, FieldError(MaxSnapshots, k + 1));
      }
    } else {
      var x := Errors(entries)[0];
      ErrorsReportEveryMissingField(entries, x);
      assert !Complete(entries[x.block - 1]);
    }
  }

  function FieldName(f: Field): string {
    match f
    case Name => "name"
    case LocalPath => "localPath"
    case RemotePath => "remotePath"
    case MaxSnapshots => "maxSnapshots"
  }

  /** The text the check records for an error, such as "localPath (block 2)". */
  function ErrorText(x: FieldError): string {
    FieldName(x.field) + " (block " + DecimalOf(x.block) + ")"
  }

  /** Reads an error text back, trying the fields in order. */
  function ReadErrorText(s: string): Option<FieldError> {
    ReadErrorFor(s, Name)
  }

  function NextField(f: Field): Option<Field> {
    match f
    case Name => Some(LocalPath)
    case LocalPath => Some(RemotePath)
    case RemotePath => Some(MaxSnapshots)
    case MaxSnapshots => None
  }

  function ReadErrorFor(s: string, f: Field): Option<FieldError>
    decreases 3 - FieldRank(f)
  {
    var head := FieldName(f) + " (block ";
    if |s| > |head| && s[..|head|] == head && s[|s| - 1] == ')'
       && ParseDecimal(s[|head|..|s| - 1]).Some?
    then Some(FieldError(f, ParseDecimal(s[|head|..|s| - 1]).value))
    else match NextField(f)
      case Some(g) => ReadErrorFor(s, g)
      case None => None
  }

  /** An error text determines the field and the block it reports. */
  lemma ReadErrorTextOf(x: FieldError)
    ensures ReadErrorText(ErrorText(x)) == Some(x)
  {
    var s := ErrorText(x);
    var head := FieldName(x.field) + " (block ";
    var digits := DecimalOf(x.block);
    assert s == head + digits + ")";
    assert s[..|head|] == head;
    assert s[|head|..|s| - 1] == digits;
    ParseDecimalOf(x.block);
    assert s[0] == FieldName(x.field)[0];
  }

  /** Distinct errors have distinct texts. */
  lemma ErrorTextInjective(x: FieldError, y: FieldError)
    requires ErrorText(x) == ErrorText(y)
    ensures x == y
  {
    ReadErrorTextOf(x);
    ReadErrorTextOf(y);
  }
}
