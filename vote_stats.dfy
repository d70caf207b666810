/** Vote statistics: the integer part of `calculateStats`
    (internal/handlers/room.go) and the value breakdown the reveal handler
    broadcasts (internal/handlers/ws.go). Votes are a map from voter to the
    value chosen; Go's map iteration order is left open by picking an
    arbitrary unvisited key at each step. */
module VoteStats {
  import opened Results

  /** The voters in `votes` who chose `value`. */
  function Voters(votes: map<string, string>, value: string): set<string> {
    set p | p in votes && votes[p] == value
  }

  /** `breakdown` counts, for each value chosen at least once, the voters
      who chose it, and has no other entries. */
  ghost predicate Tallies(votes: map<string, string>, breakdown: map<string, int>) {
    (forall v :: v in breakdown <==> Voters(votes, v) != {})
    && forall v :: v in breakdown ==> breakdown[v] == |Voters(votes, v)|
  }

  /** `breakdown[v]`, zero for a value not counted yet (Go's map read). */
  function CountOf(breakdown: map<string, int>, v: string): int {
    if v in breakdown then breakdown[v] else 0
  }

  /** Counting one more voter: the `valueBreakdown[value]++` step. */
  lemma {:induction false} TallyStep(votes: map<string, string>, breakdown: map<string, int>, p: string, value: string)
    requires Tallies(votes, breakdown) && p !in votes
    ensures Tallies(votes[p := value], breakdown[value := CountOf(breakdown, value) + 1])
  {
    var votes' := votes[p := value];
    var breakdown' := breakdown[value := CountOf(breakdown, value) + 1];
    forall v
      ensures Voters(votes', v) == if v == value then Voters(votes, v) + {p} else Voters(votes, v)
    {
    }
    forall v | v in breakdown'
      ensures breakdown'[v] == |Voters(votes', v)|
    {
      if v == value {
        assert p !in Voters(votes, v);
      }
    }
  }

  /** Nothing counted, nothing tallied. */
  lemma TallyEmpty()
    ensures Tallies(map[], map[])
  {
    forall v
      ensures Voters(map[], v) == {}
    {
    }
  }

  /** The reveal handler's `for value, count := range voteValueCounts {
      total += count }`: summing a tally gives the number of votes. */
  method SumCounts(votes: map<string, string>, breakdown: map<string, int>) returns (total: int)
    requires Tallies(votes, breakdown)
    ensures total == |votes|
  {
    total := 0;
    var pending := breakdown.Keys;
    forall p | p in votes
      ensures votes[p] in pending
    {
      assert p in Voters(votes, votes[p]);
    }
    while pending != {}
      invariant pending <= breakdown.Keys
      invariant total == |set p | p in votes && votes[p] !in pending|
      decreases pending
    {
      var v :| v in pending;
      var before := set p | p in votes && votes[p] !in pending;
      var after := set p | p in votes && votes[p] !in pending - {v};
      assert after == before + Voters(votes, v);
      assert before !! Voters(votes, v);
      total := total + breakdown[v];
      pending := pending - {v};
    }
    assert (set p | p in votes && votes[p] !in pending) == votes.Keys;
  }

  /** The integer statistics of a non-empty vote map. The agreement
      percentage is `mostCommonCount` out of `total`. */
  datatype Stats = Stats(
    total: int,
    valueBreakdown: map<string, int>,
    mostCommonValue: string,
    mostCommonCount: int,
    consensus: bool)

  /** Every voter chose the same value. */
  predicate Unanimous(votes: map<string, string>) {
    forall p, q :: p in votes && q in votes ==> votes[p] == votes[q]
  }

  /** A value chosen by every voter is the only one, and conversely. */
  lemma {:induction false} UnanimousIff(votes: map<string, string>, v: string)
    requires v in votes.Values
    ensures Unanimous(votes) <==> |Voters(votes, v)| == |votes|
  {
    var vs := Voters(votes, v);
    assert vs <= votes.Keys;
    if Unanimous(votes) {
      var p :| p in votes && votes[p] == v;
      assert vs == votes.Keys;
    }
    if |vs| == |votes| {
      assert |votes.Keys - vs| == |votes.Keys| - |vs| == 0;
      forall p, q | p in votes && q in votes
        ensures votes[p] == votes[q]
      {
        assert p in vs && q in vs;
      }
    }
  }

  /** Part way through the counting loop: the voters not `pending` are
      counted in `breakdown`, and `best` is a value with the top count. */
  ghost predicate Counting(votes: map<string, string>, pending: set<string>, seen: map<string, string>,
                           breakdown: map<string, int>, best: string, top: int) {
    pending <= votes.Keys && seen.Keys == votes.Keys - pending
    && (forall p :: p in seen ==> seen[p] == votes[p])
    && Tallies(seen, breakdown)
    && (forall v :: v in breakdown ==> breakdown[v] <= top)
    && (seen == map[] ==> top == 0)
    && (seen != map[] ==> best in breakdown && breakdown[best] == top)
  }

  /** One iteration of the counting loop keeps `Counting`. */
  lemma {:induction false} CountingStep(votes: map<string, string>, pending: set<string>, seen: map<string, string>,
                                        breakdown: map<string, int>, best: string, top: int, p: string)
    requires Counting(votes, pending, seen, breakdown, best, top) && p in pending
    ensures var breakdown' := breakdown[votes[p] := CountOf(breakdown, votes[p]) + 1];
      Counting(votes, pending - {p}, seen[p := votes[p]], breakdown',
               if breakdown'[votes[p]] > top then votes[p] else best,
               if breakdown'[votes[p]] > top then breakdown'[votes[p]] else top)
  {
    TallyStep(seen, breakdown, p, votes[p]);
  }

  /** With nobody pending, every voter is counted. */
  lemma CountingDone(votes: map<string, string>, seen: map<string, string>,
                     breakdown: map<string, int>, best: string, top: int)
    requires |votes| > 0 && Counting(votes, {}, seen, breakdown, best, top)
    ensures Tallies(votes, breakdown)
    ensures best in breakdown && breakdown[best] == top
  {
    assert seen == votes;
  }

  /** The counting loop of `calculateStats`: the breakdown by value, and
      the value that first reached the highest count. */
  method CountVotes(votes: map<string, string>) returns (breakdown: map<string, int>, mostCommonValue: string, mostCommonCount: int)
    requires |votes| > 0
    ensures Tallies(votes, breakdown)
    ensures mostCommonValue in breakdown && breakdown[mostCommonValue] == mostCommonCount
    ensures forall v :: v in breakdown ==> breakdown[v] <= mostCommonCount
  {
    breakdown := map[];
    mostCommonValue := "";
    mostCommonCount := 0;
    var pending := votes.Keys;
    ghost var seen: map<string, string> := map[];
    TallyEmpty();
    while pending != {}
      invariant Counting(votes, pending, seen, breakdown, mostCommonValue, mostCommonCount)
      decreases pending
    {
      var p :| p in pending;
      CountingStep(votes, pending, seen, breakdown, mostCommonValue, mostCommonCount, p);
      var value := votes[p];
      seen := seen[p := value];
      breakdown := breakdown[value := CountOf(breakdown, value) + 1];
      if breakdown[value] > mostCommonCount {
        mostCommonCount := breakdown[value];
        mostCommonValue := value;
      }
      pending := pending - {p};
    }
    CountingDone(votes, seen, breakdown, mostCommonValue, mostCommonCount);
  }

  /** `calculateStats`: nothing for no votes; otherwise the number of
      votes, the breakdown by value, a value with the highest count (the
      first to reach it in iteration order), and consensus exactly when all
      votes agree. The average is not modelled. */
  method CalculateStats(votes: map<string, string>) returns (r: Option<Stats>)
    ensures r.None? <==> |votes| == 0
    ensures r.Some? ==> r.value.total == |votes| && Tallies(votes, r.value.valueBreakdown)
    ensures r.Some? ==>
      r.value.mostCommonValue in r.value.valueBreakdown && r.value.valueBreakdown[r.value.mostCommonValue] == r.value.mostCommonCount
    ensures r.Some? ==> forall v :: v in r.value.valueBreakdown ==> r.value.valueBreakdown[v] <= r.value.mostCommonCount
    ensures r.Some? ==> (r.value.consensus <==> Unanimous(votes))
  {
    if |votes| == 0 {
      return None;
    }
    var breakdown, mostCommonValue, mostCommonCount := CountVotes(votes);
    UnanimityIsTheTopCount(votes, breakdown, mostCommonValue, mostCommonCount);
    var consensus := mostCommonCount == |votes|;
    return Some(Stats(|votes|, breakdown, mostCommonValue, mostCommonCount, consensus));
  }

  /** With a maximal count `top` for the value `best`, that count is the
      number of votes exactly when all votes agree. */
  lemma {:induction false} UnanimityIsTheTopCount(votes: map<string, string>, breakdown: map<string, int>, best: string, top: int)
    requires Tallies(votes, breakdown) && best in breakdown && breakdown[best] == top
    requires forall v :: v in breakdown ==> breakdown[v] <= top
    ensures top == |votes| <==> Unanimous(votes)
  {
    var p :| p in Voters(votes, best);
    UnanimousIff(votes, best);
  }
}
