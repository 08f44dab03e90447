/** Crash consistency, from the live engine through the bytes on disk and back. */
module Crash {
  import opened JournalRecord
  import opened JournalReader
  import opened Venue

  /** A run with a healthy journal, whose records fill the segments `groups`. */
  predicate Journaled(attempts: seq<Attempt>, groups: seq<seq<Record>>) {
    && AllSane(attempts) && |attempts| < 0x1_0000_0000_0000_0000
    && LiveAll(attempts).healthy && LiveAll(attempts).journal == Joined(groups)
  }

  /** Take any run of the venue with a healthy journal, kept in any number of segments; cut every
      segment anywhere, read what is left and replay it into a fresh engine.  The result is exactly
      the state (books, trade counters and sequence number) the live engine had when it had recorded
      the commands before the first cut, and its last when nothing was cut. */
  lemma CrashConsistent(attempts: seq<Attempt>, groups: seq<seq<Record>>, cuts: seq<nat>)
    returns (m: nat, i: nat, j: nat)
    requires Journaled(attempts, groups) && |cuts| == |groups| && Cutting(groups, cuts)
    ensures var found := ReadJournal(CutSegments(groups, cuts), 1);
            && m <= |attempts| && found.records == LiveAll(attempts[..m]).journal
            && LiveAll(attempts[..m]).healthy
            && Surviving(groups, cuts, i, j, found.outcome, found.records)
            && Replayable(found.records) && Replay(found.records) == LiveAll(attempts[..m]).state
            && (i == |groups| ==> m == |attempts|)
  {
    hide LiveAll, ReadJournal, Replay, CutSegments, Joined, Surviving, Cutting;
    GapFree(attempts);
    i, j := CutJournal(groups, cuts, 1);
    var found := ReadJournal(CutSegments(groups, cuts), 1);
    SurvivingPrefix(groups, cuts, i, j, found.outcome, found.records);
    var n := |found.records|;
    m := JournalPrefix(attempts, n);
    assert LiveAll(attempts).journal[..n] == found.records;
    ReplayReproduces(attempts[..m]);
    GapFree(attempts[..m]);
  }

  /** An append can fail after its record has reached the disk, when the sync or the next segment
      fails.  The command has then had no effect and its client is told so; but an engine rebuilt
      from the disk has performed it. */
  lemma RefusedButRecorded(attempts: seq<Attempt>, a: Attempt)
    requires AllSane(attempts) && Sane(a.body) && LiveAll(attempts).healthy && !TurnedAway(LiveAll(attempts).state, a)
    ensures var r := LiveAll(attempts);
            var disk := r.journal + [Record(r.state.sequence + 1, a.now, a.body)];
            && Live(r, a.(stored := false)).state == r.state.(sequence := r.state.sequence + 1)
            && Replayable(disk) && Replay(disk) == Perform(r.state, a.body, a.now)
  {
    hide Perform, Replay, Replayable, Passes;
    var taken := attempts + [a.(stored := true)];
    assert taken[..|attempts|] == attempts;
    ReplayReproduces(taken);
    GapFree(attempts);
    PerformDefined(LiveAll(attempts).state, a.body, a.now);
  }

  lemma SurvivingPrefix(groups: seq<seq<Record>>, cuts: seq<nat>, i: nat, j: nat, outcome: Outcome,
                        records: seq<Record>)
    requires |cuts| == |groups| && Surviving(groups, cuts, i, j, outcome, records)
    ensures records <= Joined(groups) && (i == |groups| ==> records == Joined(groups))
  {
    hide Bytes, Aftermath, Joined;
    if i < |groups| {
      JoinedFront(groups, i, j);
    }
  }

  lemma {:induction false} JoinedFront(groups: seq<seq<Record>>, i: nat, j: nat)
    requires i < |groups| && j <= |groups[i]|
    ensures Joined(groups[..i]) + groups[i][..j] <= Joined(groups)
  {
    if i == 0 {
      assert groups[..0] == [] && Joined([]) + groups[0][..j] == groups[0][..j];
    } else {
      JoinedFront(groups[1..], i - 1, j);
      assert groups[..i][0] == groups[0] && groups[..i][1..] == groups[1..][..i - 1];
      assert groups[1..][i - 1] == groups[i];
      assert groups[0] + (Joined(groups[1..][..i - 1]) + groups[i][..j]) ==
             Joined(groups[..i]) + groups[i][..j];
    }
  }
}
