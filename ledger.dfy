/**
 * The predictor's cross-call ledger: for each file number, the number of
 * rounds it has been predicted since its entry was created. After a round
 * every predicted number is counted once more, a number the round does not
 * predict keeps its count (it is never reset), and entries counted more
 * than three times are dropped as noise.
 */
module Ledger {

  /** Entries counted more than this many times are evicted. */
  const EVICTION_COUNT: nat := 3

  /** The count of `id`, zero when it has no entry (as `operator[]` creates one). */
  function Count(ledger: map<nat, nat>, id: nat): nat {
    if id in ledger then ledger[id] else 0
  }

  /** Every number of `round` counted once more; a new entry starts at one. */
  function Incremented(ledger: map<nat, nat>, round: set<nat>): (r: map<nat, nat>)
    ensures r.Keys == ledger.Keys + round
    ensures forall id :: id in round ==> r[id] == Count(ledger, id) + 1
    ensures forall id :: id in ledger && id !in round ==> r[id] == ledger[id]
  {
    map id | id in ledger.Keys + round :: Count(ledger, id) + (if id in round then 1 else 0)
  }

  /** The entries whose count does not exceed the eviction count. */
  function Evicted(ledger: map<nat, nat>): (r: map<nat, nat>)
    ensures r.Keys <= ledger.Keys
    ensures forall id :: id in r ==> r[id] == ledger[id] <= EVICTION_COUNT
    ensures forall id :: id in ledger && ledger[id] <= EVICTION_COUNT ==> id in r
  {
    map id | id in ledger && ledger[id] <= EVICTION_COUNT :: ledger[id]
  }

  /** The ledger after a prediction round whose result is `round`. */
  function AfterRound(ledger: map<nat, nat>, round: set<nat>): (r: map<nat, nat>)
    ensures r.Keys <= ledger.Keys + round
    ensures forall id :: id in r ==> r[id] <= EVICTION_COUNT
    ensures forall id :: id in r && id !in round ==> id in ledger && r[id] == ledger[id]
  {
    Evicted(Incremented(ledger, round))
  }

  /**
   * Counting one more number of the round increments that number's count
   * in the part counted so far.
   */
  lemma IncrementedStep(ledger: map<nat, nat>, done: set<nat>, id: nat)
    requires id !in done
    ensures Incremented(ledger, done + {id})
         == Incremented(ledger, done)[id := Count(Incremented(ledger, done), id) + 1]
  {
    assert Count(Incremented(ledger, done), id) == Count(ledger, id);
  }

  /**
   * What a round does to one entry: a predicted number is counted once
   * more and survives only while its count is at most three; any other
   * entry survives unchanged exactly when its count is at most three.
   */
  lemma AfterRoundEntry(ledger: map<nat, nat>, round: set<nat>, id: nat)
    ensures id in round ==>
      (id in AfterRound(ledger, round) <==> Count(ledger, id) + 1 <= EVICTION_COUNT)
      && (id in AfterRound(ledger, round) ==> AfterRound(ledger, round)[id] == Count(ledger, id) + 1)
    ensures id !in round ==>
      (id in AfterRound(ledger, round) <==> id in ledger && ledger[id] <= EVICTION_COUNT)
      && (id in AfterRound(ledger, round) ==> AfterRound(ledger, round)[id] == ledger[id])
  {
  }

  /** Every count of a ledger lies between one and the eviction count. */
  predicate CountsInRange(ledger: map<nat, nat>) {
    forall id :: id in ledger ==> 1 <= ledger[id] <= EVICTION_COUNT
  }

  /** A round keeps every count between one and three. */
  lemma AfterRoundKeepsCountsInRange(ledger: map<nat, nat>, round: set<nat>)
    requires CountsInRange(ledger)
    ensures CountsInRange(AfterRound(ledger, round))
  {
  }

  /**
   * A number with no entry that each of four rounds predicts is counted
   * 1, 2 and 3 and has no entry after the fourth round.
   */
  lemma EvictedAfterFourRounds(ledger: map<nat, nat>, r1: set<nat>, r2: set<nat>, r3: set<nat>, r4: set<nat>, id: nat)
    requires id !in ledger
    requires id in r1 && id in r2 && id in r3 && id in r4
    ensures var l1 := AfterRound(ledger, r1);
            var l2 := AfterRound(l1, r2);
            var l3 := AfterRound(l2, r3);
            id in l1 && l1[id] == 1 && id in l2 && l2[id] == 2 && id in l3 && l3[id] == 3
            && id !in AfterRound(l3, r4)
  {
    AfterRoundEntry(ledger, r1, id);
    var l1 := AfterRound(ledger, r1);
    AfterRoundEntry(l1, r2, id);
    var l2 := AfterRound(l1, r2);
    AfterRoundEntry(l2, r3, id);
    var l3 := AfterRound(l2, r3);
    AfterRoundEntry(l3, r4, id);
  }

  /** A round predicting the only number of a one-entry ledger. */
  lemma RoundOfSingleEntry(id: nat, count: nat)
    ensures AfterRound(map[id := count], {id})
         == if count + 1 <= EVICTION_COUNT then map[id := count + 1] else map[]
  {
    var after := AfterRound(map[id := count], {id});
    AfterRoundEntry(map[id := count], {id}, id);
    assert after.Keys <= {id};
  }

  /**
   * A round without a number leaves its count alone: predicted, missed,
   * predicted again, the number is counted twice.
   */
  lemma MissedRoundKeepsCount()
    ensures AfterRound(AfterRound(AfterRound(map[], {7}), {}), {7}) == map[7 := 2]
  {
    var l1 := AfterRound(map[], {7});
    AfterRoundEntry(map[], {7}, 7);
    assert l1 == map[7 := 1];
    var l2 := AfterRound(l1, {});
    AfterRoundEntry(l1, {}, 7);
    assert l2 == map[7 := 1];
    RoundOfSingleEntry(7, 1);
  }

  /**
   * An entry at one that is predicted four more times is dropped after the
   * third and created afresh, at one, by the fourth.
   */
  lemma EntryRecreatedAfterEviction()
    ensures AfterRound(AfterRound(AfterRound(AfterRound(map[7 := 1], {7}), {7}), {7}), {7}) == map[7 := 1]
  {
    RoundOfSingleEntry(7, 1);
    RoundOfSingleEntry(7, 2);
    RoundOfSingleEntry(7, 3);
    var l3 := AfterRound(AfterRound(AfterRound(map[7 := 1], {7}), {7}), {7});
    assert l3 == map[];
    AfterRoundEntry(map[], {7}, 7);
    assert AfterRound(map[], {7}).Keys <= {7};
  }
}
