/** VerifyTallyForPoll of internal/sequencer/audit.go: when a tally fits a poll. */
module Tallies {
  import opened Wrappers
  import opened Artifacts

  function Sum(totals: seq<ChoiceTotal>): int {
    if totals == [] then 0 else Sum(totals[..|totals| - 1]) + totals[|totals| - 1].total
  }

  predicate DistinctTotals(totals: seq<ChoiceTotal>) {
    forall i, j :: 0 <= i < j < |totals| ==> totals[i].choiceID != totals[j].choiceID
  }

  predicate HeaderMatches(poll: Poll, tally: Tally) {
    && tally.schemaVersion == SCHEMA_VERSION && tally.protocol == PROTOCOL && tally.pollID == poll.pollID
    && |tally.totals| == |poll.choices|
  }

  /** The structural meaning of a tally: non-negative totals, each for a listed choice, no choice
      twice, adding up to the ballot count. */
  predicate TallyFits(poll: Poll, tally: Tally) {
    && HeaderMatches(poll, tally)
    && TotalsListed(poll.choices, tally.totals)
    && DistinctTotals(tally.totals)
    && Sum(tally.totals) == tally.ballotCount
  }

  predicate TotalsListed(choices: seq<Choice>, totals: seq<ChoiceTotal>) {
    forall i :: 0 <= i < |totals| ==> totals[i].total >= 0 && ChoiceExists(choices, totals[i].choiceID)
  }

  function TallyVerdict(w: World, poll: Poll, tally: Tally): Result<()> {
    if !w.keyDecodes(poll.checkpointPublicKey) then Err("invalid_checkpoint_public_key")
    else if !TallyFits(poll, tally) then Err("tally_mismatch")
    else if !VerifyTally(w, poll.checkpointPublicKey, tally) then Err("invalid_sequencer_signature")
    else Ok(())
  }

  // The values of Go's int on the platforms the program runs on.
  type GoInt = x: int | -0x8000_0000_0000_0000 <= x < 0x8000_0000_0000_0000

  predicate InRange(tally: Tally) {
    && -0x8000_0000_0000_0000 <= tally.ballotCount < 0x8000_0000_0000_0000
    && forall i :: 0 <= i < |tally.totals| ==> -0x8000_0000_0000_0000 <= tally.totals[i].total < 0x8000_0000_0000_0000
  }

  // The first loop: the set of the poll's choice ids.
  method ChoiceSet(choices: seq<Choice>) returns (ids: set<string>)
    ensures forall id :: id in ids <==> ChoiceExists(choices, id)
  {
    ids := {};
    var index := 0;
    while index < |choices|
      invariant 0 <= index <= |choices|
      invariant forall id :: id in ids <==> ChoiceExists(choices[..index], id)
    {
      ExistsGrows(choices, index);
      ids := ids + {choices[index].id};
      index := index + 1;
    }
    assert choices[..index] == choices;
  }

  // The second loop. Every intermediate value is a GoInt, so nothing overflows.
  method CheckTotals(choices: seq<Choice>, totals: seq<ChoiceTotal>, ballotCount: GoInt) returns (ok: bool)
    requires ballotCount >= 0
    requires forall i :: 0 <= i < |totals| ==> -0x8000_0000_0000_0000 <= totals[i].total < 0x8000_0000_0000_0000
    ensures ok <==> TotalsListed(choices, totals) && DistinctTotals(totals) && Sum(totals) == ballotCount
  {
    var listed := ChoiceSet(choices);
    var seen: set<string> := {};
    var totalVotes: GoInt := 0;
    var index := 0;
    while index < |totals|
      invariant 0 <= index <= |totals|
      invariant totalVotes == Sum(totals[..index]) && 0 <= totalVotes <= ballotCount
      invariant TotalsListed(choices, totals[..index]) && DistinctTotals(totals[..index])
      invariant seen == TotalIds(totals[..index])
    {
      var total := totals[index];
      var through := totals[..index + 1];
      assert through[..index] == totals[..index] && through[index] == total;
      if total.total < 0 || total.choiceID !in listed {
        assert !TotalsListed(choices, totals);
        return false;
      }
      if total.choiceID in seen {
        var i :| 0 <= i < index && totals[..index][i].choiceID == total.choiceID;
        assert totals[i].choiceID == totals[index].choiceID;
        return false;
      }
      var remaining: GoInt := ballotCount - totalVotes;
      if total.total > remaining {
        PrefixSumBounded(totals, index + 1);
        return false;
      }
      TotalIdsGrow(totals, index);
      assert forall i :: 0 <= i < index ==> through[i] == totals[..index][i];
      seen := seen + {total.choiceID};
      totalVotes := totalVotes + total.total;
      index := index + 1;
    }
    assert totals[..index] == totals;
    return totalVotes == ballotCount;
  }

  method VerifyTallyForPoll(w: World, poll: Poll, tally: Tally) returns (result: Result<()>)
    requires InRange(tally)
    ensures result == TallyVerdict(w, poll, tally)
  {
    if !w.keyDecodes(poll.checkpointPublicKey) {
      return Err("invalid_checkpoint_public_key");
    }
    SumNonNegativeWhenFits(poll, tally);
    if tally.schemaVersion != SCHEMA_VERSION || tally.protocol != PROTOCOL || tally.pollID != poll.pollID
       || |tally.totals| != |poll.choices| || tally.ballotCount < 0 {
      return Err("tally_mismatch");
    }
    var ok := CheckTotals(poll.choices, tally.totals, tally.ballotCount);
    if !ok {
      return Err("tally_mismatch");
    }
    if !VerifyTally(w, poll.checkpointPublicKey, tally) {
      return Err("invalid_sequencer_signature");
    }
    return Ok(());
  }

  lemma TotalIdsGrow(totals: seq<ChoiceTotal>, k: nat)
    requires k < |totals|
    ensures TotalIds(totals[..k + 1]) == TotalIds(totals[..k]) + {totals[k].choiceID}
  {
  }

  lemma ExistsGrows(choices: seq<Choice>, k: nat)
    requires k < |choices|
    ensures forall id :: ChoiceExists(choices[..k + 1], id) <==> ChoiceExists(choices[..k], id) || id == choices[k].id
  {
  }

  lemma {:induction false} PrefixSumBounded(totals: seq<ChoiceTotal>, k: nat)
    requires k <= |totals|
    ensures (forall i :: 0 <= i < |totals| ==> totals[i].total >= 0) ==> 0 <= Sum(totals[..k]) <= Sum(totals)
    decreases |totals|
  {
    if k == |totals| {
      assert totals[..k] == totals;
      if k > 0 { PrefixSumBounded(totals[..k - 1], k - 1); assert totals[..k - 1][..k - 1] == totals[..k - 1]; }
    } else {
      PrefixSumBounded(totals[..|totals| - 1], k);
      assert totals[..|totals| - 1][..k] == totals[..k];
    }
  }

  lemma SumNonNegativeWhenFits(poll: Poll, tally: Tally)
    ensures TallyFits(poll, tally) ==> tally.ballotCount >= 0
  {
    PrefixSumBounded(tally.totals, 0);
  }

  /* Pigeonhole: as many distinct listed ids as choices means every choice is listed once */

  function Ids(choices: seq<Choice>): (ids: set<string>)
    ensures forall id :: id in ids <==> ChoiceExists(choices, id)
  {
    set i | 0 <= i < |choices| :: choices[i].id
  }

  function TotalIds(totals: seq<ChoiceTotal>): (ids: set<string>) {
    set i | 0 <= i < |totals| :: totals[i].choiceID
  }

  lemma {:induction false} IdsBound(choices: seq<Choice>)
    ensures |Ids(choices)| <= |choices|
    ensures |Ids(choices)| == |choices| ==> DistinctChoices(choices)
  {
    if choices != [] {
      var k := |choices| - 1;
      IdsBound(choices[..k]);
      IdsGrow(choices, k);
    }
  }

  lemma IdsGrow(choices: seq<Choice>, k: nat)
    requires |choices| == k + 1
    ensures Ids(choices) == Ids(choices[..k]) + {choices[k].id}
    ensures choices[k].id !in Ids(choices[..k]) && DistinctChoices(choices[..k]) ==> DistinctChoices(choices)
  {
  }

  lemma {:induction false} TotalIdsCount(totals: seq<ChoiceTotal>)
    requires DistinctTotals(totals)
    ensures |TotalIds(totals)| == |totals|
  {
    if totals != [] {
      var k := |totals| - 1;
      TotalIdsCount(totals[..k]);
      assert TotalIds(totals) == TotalIds(totals[..k]) + {totals[k].choiceID};
      assert totals[k].choiceID !in TotalIds(totals[..k]);
    }
  }

  lemma SubsetOfSameSize<T>(a: set<T>, b: set<T>)
    requires a <= b && |a| >= |b|
    ensures a == b
  {
    if a != b {
      var x :| x in b && x !in a;
      SubsetSize(a, b - {x});
    }
  }

  lemma {:induction false} SubsetSize<T>(a: set<T>, b: set<T>)
    requires a <= b
    ensures |a| <= |b|
  {
    if a != {} {
      var x :| x in a;
      SubsetSize(a - {x}, b - {x});
    }
  }

  // A fitting tally lists exactly the poll's choices, so the poll's choices are distinct.
  lemma FitsForcesDistinctChoices(poll: Poll, tally: Tally)
    requires TallyFits(poll, tally)
    ensures DistinctChoices(poll.choices)
    ensures forall id :: ChoiceExists(poll.choices, id) <==> exists i :: 0 <= i < |tally.totals| && tally.totals[i].choiceID == id
  {
    var listed, wanted := TotalIds(tally.totals), Ids(poll.choices);
    TotalIdsCount(tally.totals);
    IdsBound(poll.choices);
    SubsetOfSameSize(listed, wanted);
    forall id ensures ChoiceExists(poll.choices, id) <==> exists i :: 0 <= i < |tally.totals| && tally.totals[i].choiceID == id {
      assert id in listed <==> id in wanted;
    }
  }
}
