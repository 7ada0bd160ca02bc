/**
 * Reading the two latest snapshot IDs off the plain `restic snapshots`
 * listing. The listing is split into lines and read from the bottom: the
 * last two lines are the closing rule and the count, so the line three from
 * the bottom is the latest snapshot and the one above it is the penultimate
 * snapshot, or the header rule when there is only one snapshot.
 */
module Snapshots {
  import opened Text

  /** What the driver concludes from a listing. */
  datatype Listing =
    | TooShort              // fewer than four lines: indexing line 3 fails
    | SingleSnapshot        // reversed line 3 holds no digit: nothing to compare
    | TwoLatest(penultimate: string, latest: string)

  /** Python's list(reversed(s)): the elements from last to first. */
  function Reverse<T>(s: seq<T>): seq<T>
    decreases |s|
  {
    if s == [] then [] else [s[|s| - 1]] + Reverse(s[..|s| - 1])
  }

  lemma {:induction false} ReverseAt<T>(s: seq<T>, k: nat)
    requires k < |s|
    ensures |Reverse(s)| == |s|
    ensures Reverse(s)[k] == s[|s| - 1 - k]
    decreases |s|
  {
    ReverseLength(s);
    if k > 0 {
      ReverseAt(s[..|s| - 1], k - 1);
    }
  }

  lemma {:induction false} ReverseLength<T>(s: seq<T>)
    ensures |Reverse(s)| == |s|
    decreases |s|
  {
    if s != [] {
      ReverseLength(s[..|s| - 1]);
    }
  }

  /** line[:8]: a snapshot's short ID is the first eight characters of its line. */
  function ShortId(line: string): (id: string)
    ensures |id| <= 8 && id <= line
    ensures |line| >= 8 ==> |id| == 8
  {
    if |line| <= 8 then line else line[..8]
  }

  /** The snapshot-listing step of the driver. */
  function ParseListing(stdout: string): Listing {
    var dividedOutput := Reverse(SplitLines(stdout));
    if |dividedOutput| < 4 then TooShort
    else if !HasDigit(dividedOutput[3]) then SingleSnapshot
    else TwoLatest(ShortId(dividedOutput[3]), ShortId(dividedOutput[2]))
  }

  /**
   * The listing's decision stated on the lines in their own order: the
   * penultimate ID comes from the fourth line from the end and the latest
   * from the third; a comparison happens exactly when the fourth line from
   * the end holds a digit.
   */
  lemma ListingFromEnd(stdout: string)
    ensures var lines := SplitLines(stdout); var n := |lines|;
      ParseListing(stdout) ==
        if n < 4 then TooShort
        else if !HasDigit(lines[n - 4]) then SingleSnapshot
        else TwoLatest(ShortId(lines[n - 4]), ShortId(lines[n - 3]))
  {
    var lines := SplitLines(stdout);
    ReverseLength(lines);
    if |lines| >= 4 {
      ReverseAt(lines, 2);
      ReverseAt(lines, 3);
    }
  }

  /**
   * For a listing written as lines, each without a line break: the driver
   * compares the short IDs of the fourth and the third line from the end,
   * in that order, when the fourth from the end holds a digit, and
   * otherwise reports a single snapshot.
   */
  lemma ListingOfLines(lines: seq<string>)
    requires |lines| >= 4
    requires forall k | 0 <= k < |lines| :: NoBreak(lines[k])
    ensures var n := |lines|;
      ParseListing(JoinLines(lines)) ==
        if HasDigit(lines[n - 4]) then TwoLatest(ShortId(lines[n - 4]), ShortId(lines[n - 3]))
        else SingleSnapshot
  {
    SplitJoinLines(lines);
    ListingFromEnd(JoinLines(lines));
  }

  /** A listing of fewer than four lines cannot be read: the driver fails on it. */
  lemma ShortListing(lines: seq<string>)
    requires |lines| < 4
    requires forall k | 0 <= k < |lines| :: NoBreak(lines[k])
    ensures ParseListing(JoinLines(lines)) == TooShort
  {
    SplitJoinLines(lines);
    ReverseLength(lines);
  }
}
