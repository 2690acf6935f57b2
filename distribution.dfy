/**
  How `interpretCommand` combines the goals built for each matched target
  object: concatenated under "any" and "the", crossed under "all" so that
  every conjunct of the result carries one alternative for each match.
*/
module Distribution {
  import opened LiteralSets

  /** Keeps `c` unless an already-kept conjunct contains every literal of it. */
  function Push(kept: Goal, c: Conjunct): Goal {
    if SomeContainsAll(kept, c) then kept else kept + [c]
  }

  /** The cross-product candidate for earlier conjunct `k` and alternative `j`. */
  function Candidate(prev: Goal, alts: Goal, j: nat, k: nat): Conjunct
    requires j < |alts| && k < |prev|
  {
    Merged(prev[k], alts[j])
  }

  /** Candidate (j', k') comes before (j, k) in the order alternatives-outer, earlier-conjuncts-inner. */
  predicate Before(j': nat, k': nat, j: nat, k: nat) {
    j' < j || (j' == j && k' < k)
  }

  /**
    The conjuncts kept once the crossing loop reaches earlier conjunct `k` of
    alternative `j`: every candidate before (j, k), pushed in order.
  */
  function KeptUpTo(prev: Goal, alts: Goal, j: nat, k: nat): Goal
    requires j <= |alts| && (if j < |alts| then k <= |prev| else k == 0)
    decreases j, k
  {
    if k > 0 then Push(KeptUpTo(prev, alts, j, k - 1), Candidate(prev, alts, j, k - 1))
    else if j > 0 then KeptUpTo(prev, alts, j - 1, |prev|)
    else []
  }

  /**
    One "all" step: with nothing accumulated the match's alternatives are
    taken as they are; otherwise every earlier conjunct is merged with every
    alternative and the non-redundant merges are kept.
  */
  function Combined(prev: Goal, alts: Goal): Goal {
    if prev == [] then alts else KeptUpTo(prev, alts, |alts|, 0)
  }

  function Step(isAll: bool, acc: Goal, alts: Goal): Goal {
    if isAll then Combined(acc, alts) else acc + alts
  }

  /** The goal accumulated over the per-match goals, in match order. */
  function Accumulated(isAll: bool, goals: seq<Goal>): Goal {
    if goals == [] then []
    else Step(isAll, Accumulated(isAll, goals[..|goals| - 1]), goals[|goals| - 1])
  }

  /** The concatenation of goals, in order. */
  function Concat(goals: seq<Goal>): Goal {
    if goals == [] then [] else Concat(goals[..|goals| - 1]) + goals[|goals| - 1]
  }

  lemma AccumulatedSnoc(isAll: bool, goals: seq<Goal>, alts: Goal)
    ensures Accumulated(isAll, goals + [alts]) == Step(isAll, Accumulated(isAll, goals), alts)
  {
    assert (goals + [alts])[..|goals|] == goals;
  }

  /** Without "all" the per-match goals are simply concatenated. */
  lemma {:induction false} AccumulatedAnyIsConcat(goals: seq<Goal>)
    ensures Accumulated(false, goals) == Concat(goals)
  {
    if goals != [] {
      AccumulatedAnyIsConcat(goals[..|goals| - 1]);
    }
  }

  /**
    Under "all", once nothing is accumulated (at the start, or after a match
    with no alternatives wiped the accumulator) the next match's
    alternatives are taken unchanged; a match without alternatives empties
    the accumulator.
  */
  lemma AccumulatedAllRestarts(goals: seq<Goal>, alts: Goal)
    ensures Accumulated(true, goals) == [] ==> Accumulated(true, goals + [alts]) == alts
    ensures Accumulated(true, goals + [[]]) == []
  {
    AccumulatedSnoc(true, goals, alts);
    AccumulatedSnoc(true, goals, []);
  }

  lemma SomeContainsAllGrows(kept: Goal, c: Conjunct, x: Conjunct)
    requires SomeContainsAll(kept, x)
    ensures SomeContainsAll(kept + [c], x)
  {
    var i :| 0 <= i < |kept| && ContainsAll(kept[i], x);
    assert (kept + [c])[i] == kept[i];
  }

  /** Every kept conjunct is the merge of one earlier conjunct with one alternative. */
  lemma {:induction false} KeptFromCandidates(prev: Goal, alts: Goal, j: nat, k: nat)
    requires j <= |alts| && (if j < |alts| then k <= |prev| else k == 0)
    ensures forall c :: c in KeptUpTo(prev, alts, j, k) ==>
              exists j', k' :: 0 <= j' < |alts| && 0 <= k' < |prev| && c == Candidate(prev, alts, j', k')
    decreases j, k
  {
    if k > 0 {
      KeptFromCandidates(prev, alts, j, k - 1);
      var cand := Candidate(prev, alts, j, k - 1);
      forall c | c in KeptUpTo(prev, alts, j, k)
        ensures exists j', k' :: 0 <= j' < |alts| && 0 <= k' < |prev| && c == Candidate(prev, alts, j', k')
      {
        if c !in KeptUpTo(prev, alts, j, k - 1) {
          assert c == cand;
        }
      }
    } else if j > 0 {
      KeptFromCandidates(prev, alts, j - 1, |prev|);
    }
  }

  /** Every candidate met so far is contained in some kept conjunct: skipping loses no requirement. */
  lemma {:induction false} KeptCoversCandidates(prev: Goal, alts: Goal, j: nat, k: nat)
    requires j <= |alts| && (if j < |alts| then k <= |prev| else k == 0)
    ensures forall j', k' :: 0 <= j' < |alts| && 0 <= k' < |prev| && Before(j', k', j, k) ==>
              SomeContainsAll(KeptUpTo(prev, alts, j, k), Candidate(prev, alts, j', k'))
    decreases j, k
  {
    if k > 0 {
      KeptCoversCandidates(prev, alts, j, k - 1);
      var kept, cand := KeptUpTo(prev, alts, j, k - 1), Candidate(prev, alts, j, k - 1);
      if !SomeContainsAll(kept, cand) {
        assert ContainsAll((kept + [cand])[|kept|], cand);
        forall j', k' | 0 <= j' < |alts| && 0 <= k' < |prev| && Before(j', k', j, k - 1)
          ensures SomeContainsAll(kept + [cand], Candidate(prev, alts, j', k'))
        {
          SomeContainsAllGrows(kept, cand, Candidate(prev, alts, j', k'));
        }
      }
    } else if j > 0 {
      KeptCoversCandidates(prev, alts, j - 1, |prev|);
    }
  }

  /** No kept conjunct has all its literals in an earlier kept one. */
  lemma {:induction false} KeptIrredundant(prev: Goal, alts: Goal, j: nat, k: nat)
    requires j <= |alts| && (if j < |alts| then k <= |prev| else k == 0)
    ensures forall a, b :: 0 <= a < b < |KeptUpTo(prev, alts, j, k)| ==>
              !ContainsAll(KeptUpTo(prev, alts, j, k)[a], KeptUpTo(prev, alts, j, k)[b])
    decreases j, k
  {
    if k > 0 {
      KeptIrredundant(prev, alts, j, k - 1);
    } else if j > 0 {
      KeptIrredundant(prev, alts, j - 1, |prev|);
    }
  }

  /** At most one conjunct is kept per candidate met. */
  lemma {:induction false} KeptLength(prev: Goal, alts: Goal, j: nat, k: nat)
    requires j <= |alts| && (if j < |alts| then k <= |prev| else k == 0)
    ensures |KeptUpTo(prev, alts, j, k)| <= j * |prev| + k
    decreases j, k
  {
    if k > 0 {
      KeptLength(prev, alts, j, k - 1);
    } else if j > 0 {
      KeptLength(prev, alts, j - 1, |prev|);
      assert (j - 1) * |prev| + |prev| == j * |prev|;
    }
  }

  /** Some candidate is kept as soon as one has been met. */
  lemma {:induction false} KeptNonEmpty(prev: Goal, alts: Goal, j: nat, k: nat)
    requires j <= |alts| && (if j < |alts| then k <= |prev| else k == 0)
    requires (j > 0 && |prev| > 0) || k > 0
    ensures KeptUpTo(prev, alts, j, k) != []
    decreases j, k
  {
    if k > 1 {
      KeptNonEmpty(prev, alts, j, k - 1);
    } else if k == 0 {
      KeptNonEmpty(prev, alts, j - 1, |prev|);
    }
  }

  /**
    The "all" step with a non-empty accumulator: each kept conjunct is a
    merge `concatLiterals(prev[k], alts[j])`, every merge is contained in a
    kept conjunct, no kept conjunct is contained in an earlier one, and at
    most |prev|·|alts| are kept.
  */
  lemma CombinedCrossProduct(prev: Goal, alts: Goal)
    requires prev != []
    ensures forall c :: c in Combined(prev, alts) ==>
              exists j, k :: 0 <= j < |alts| && 0 <= k < |prev| && c == Merged(prev[k], alts[j])
    ensures forall j, k :: 0 <= j < |alts| && 0 <= k < |prev| ==>
              SomeContainsAll(Combined(prev, alts), Merged(prev[k], alts[j]))
    ensures forall a, b :: 0 <= a < b < |Combined(prev, alts)| ==>
              !ContainsAll(Combined(prev, alts)[a], Combined(prev, alts)[b])
    ensures |Combined(prev, alts)| <= |prev| * |alts|
    ensures alts != [] ==> Combined(prev, alts) != []
  {
    KeptFromCandidates(prev, alts, |alts|, 0);
    KeptCoversCandidates(prev, alts, |alts|, 0);
    forall j, k | 0 <= j < |alts| && 0 <= k < |prev|
      ensures SomeContainsAll(Combined(prev, alts), Merged(prev[k], alts[j]))
    {
      assert Before(j, k, |alts|, 0);
      assert Candidate(prev, alts, j, k) == Merged(prev[k], alts[j]);
    }
    KeptIrredundant(prev, alts, |alts|, 0);
    KeptLength(prev, alts, |alts|, 0);
    if alts != [] {
      KeptNonEmpty(prev, alts, |alts|, 0);
    }
  }

  /**
    The crossing loop of `interpretCommand` under "all": every earlier
    conjunct merged with every alternative of the current match, skipping a
    merge that an already-kept conjunct contains.
  */
  method CrossLiterals(previousLiterals: Goal, matchLiterals: Goal) returns (newLiterals: Goal)
    ensures newLiterals == Combined(previousLiterals, matchLiterals)
  {
    newLiterals := [];
    var j := 0;
    while j < |matchLiterals|
      invariant 0 <= j <= |matchLiterals|
      invariant |previousLiterals| == 0 ==> newLiterals == if j == 0 then [] else matchLiterals
      invariant |previousLiterals| > 0 ==> newLiterals == KeptUpTo(previousLiterals, matchLiterals, j, 0)
    {
      if |previousLiterals| == 0 {
        newLiterals := matchLiterals;
      } else {
        var k := 0;
        while k < |previousLiterals|
          invariant 0 <= k <= |previousLiterals|
          invariant newLiterals == KeptUpTo(previousLiterals, matchLiterals, j, k)
        {
          var newestLiterals := ConcatLiterals(previousLiterals[k], matchLiterals[j]);
          var present := ListContainsList(newLiterals, newestLiterals);
          if !present {
            newLiterals := newLiterals + [newestLiterals];
          }
          assert newLiterals == Push(KeptUpTo(previousLiterals, matchLiterals, j, k), Candidate(previousLiterals, matchLiterals, j, k));
          k := k + 1;
        }
        assert KeptUpTo(previousLiterals, matchLiterals, j + 1, 0) == KeptUpTo(previousLiterals, matchLiterals, j, |previousLiterals|);
      }
      j := j + 1;
    }
  }

  /** Conjunct `c` contains all the literals of some alternative of `alts`. */
  predicate MeetsOne(c: Conjunct, alts: Goal) {
    exists a :: a in alts && ContainsAll(c, a)
  }

  /** Conjunct `c` contains all the literals of one alternative of every goal in `goals`. */
  predicate MeetsEvery(c: Conjunct, goals: seq<Goal>) {
    forall i :: 0 <= i < |goals| ==> MeetsOne(c, goals[i])
  }

  /** Merging `p` with an alternative keeps what `p` met and meets that alternative's goal too. */
  lemma MergedMeetsEvery(p: Conjunct, a: Conjunct, goals: seq<Goal>, alts: Goal)
    requires p != [] && MeetsEvery(p, goals) && a in alts
    ensures Merged(p, a) != [] && MeetsEvery(Merged(p, a), goals + [alts])
  {
    var c := Merged(p, a);
    MergedIsUnion(p, a);
    assert p[0] in c;
    forall i | 0 <= i < |goals + [alts]|
      ensures MeetsOne(c, (goals + [alts])[i])
    {
      if i < |goals| {
        assert MeetsOne(p, goals[i]);
        var b :| b in goals[i] && ContainsAll(p, b);
        assert ContainsAll(c, b);
        assert (goals + [alts])[i] == goals[i];
      } else {
        assert ContainsAll(c, a);
        assert (goals + [alts])[i] == alts;
      }
    }
  }

  /** The "all" step keeps every conjunct non-empty and meeting every goal so far. */
  lemma CombinedMeetsEvery(prev: Goal, goals: seq<Goal>, alts: Goal)
    requires prev != []
    requires forall c :: c in prev ==> c != [] && MeetsEvery(c, goals)
    ensures forall c :: c in Combined(prev, alts) ==> c != [] && MeetsEvery(c, goals + [alts])
  {
    CombinedCrossProduct(prev, alts);
    forall c | c in Combined(prev, alts)
      ensures c != [] && MeetsEvery(c, goals + [alts])
    {
      var j, k :| 0 <= j < |alts| && 0 <= k < |prev| && c == Merged(prev[k], alts[j]);
      assert prev[k] in prev;
      MergedMeetsEvery(prev[k], alts[j], goals, alts);
    }
  }

  /**
    What the crossing achieves under "all": when every match has at least one
    alternative and no alternative is empty, every conjunct of the
    accumulated goal is non-empty and contains all the literals of one
    alternative of every match.
  */
  lemma {:induction false} UniversalSatisfiesEveryMatch(goals: seq<Goal>)
    requires forall i :: 0 <= i < |goals| ==> goals[i] != []
    requires forall i, c :: 0 <= i < |goals| && c in goals[i] ==> c != []
    ensures goals != [] ==> Accumulated(true, goals) != []
    ensures forall c :: c in Accumulated(true, goals) ==> c != [] && MeetsEvery(c, goals)
  {
    if goals != [] {
      var init, alts := goals[..|goals| - 1], goals[|goals| - 1];
      assert goals == init + [alts];
      UniversalSatisfiesEveryMatch(init);
      AccumulatedSnoc(true, init, alts);
      var prev := Accumulated(true, init);
      if prev == [] {
        assert init == [];
        forall c | c in alts
          ensures MeetsEvery(c, goals)
        {
          assert ContainsAll(c, c);
          assert MeetsOne(c, goals[0]);
        }
      } else {
        CombinedMeetsEvery(prev, init, alts);
        CombinedCrossProduct(prev, alts);
      }
    }
  }
}
