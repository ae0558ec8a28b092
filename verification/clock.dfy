/** The slot clock of blockGenerationSchedule (node-implementation/p2p_communication.go). */
module Clock {
  import opened Powers

  /** First slot of the window that absolute round `round` uses. */
  function SlotAt(L: nat, rounds: nat, round: nat): nat
    requires rounds > 0
  {
    L * (round % rounds)
  }

  /** The test for the next commitment generation, on the slot reached from round `round` - 1. */
  predicate Generates(L: nat, rounds: nat, round: nat)
    requires L > 0 && rounds > 0 && round > 0 && L * rounds > 0
  {
    (SlotAt(L, rounds, round - 1) + L) % (L * rounds) == 2 * L
  }

  predicate EpochEnds(L: nat, rounds: nat, round: nat)
    requires L > 0 && rounds > 0 && round > 0 && L * rounds > 0
  {
    (SlotAt(L, rounds, round - 1) + L) % (L * rounds) == 0
  }

  lemma EpochSizePositive(L: nat, rounds: nat)
    requires L > 0 && rounds > 0
    ensures L * rounds > 0
  {
  }

  lemma NextRemainder(round: nat, rounds: nat)
    requires rounds > 0 && round > 0
    ensures round % rounds == if (round - 1) % rounds == rounds - 1 then 0 else (round - 1) % rounds + 1
  {
    var q, r := (round - 1) / rounds, (round - 1) % rounds;
    assert round == q * rounds + r + 1;
    if r == rounds - 1 {
      assert round == (q + 1) * rounds + 0;
      DivModUnique(round, rounds, q + 1, 0);
    } else {
      DivModUnique(round, rounds, q, r + 1);
    }
  }

  /** The slot before wrapping, reduced modulo the epoch size, is the first slot of the next window. */
  lemma NextSlot(L: nat, rounds: nat, round: nat)
    requires L > 0 && rounds > 0 && round > 0
    ensures L * rounds > 0 && (SlotAt(L, rounds, round - 1) + L) % (L * rounds) == SlotAt(L, rounds, round)
    ensures SlotAt(L, rounds, round - 1) + L == if round % rounds == 0 then L * rounds else SlotAt(L, rounds, round)
  {
    EpochSizePositive(L, rounds);
    NextRemainder(round, rounds);
    var r := (round - 1) % rounds;
    assert L * r + L == L * (r + 1);
    if r == rounds - 1 {
      DivModUnique(L * rounds, L * rounds, 1, 0);
      assert SlotAt(L, rounds, round) == 0;
    } else {
      ProductMonotone(r + 2, rounds, L);
      assert (r + 2) * L == L * (r + 1) + L && rounds * L == L * rounds;
      DivModUnique(L * (r + 1), L * rounds, 0, L * (r + 1));
    }
  }

  lemma EqualMultiples(L: nat, a: nat, b: nat)
    requires L > 0
    ensures L * a == L * b <==> a == b
  {
    var d := a - b;
    assert d * L == L * a - L * b;
    ProductBounds(d, L);
  }

  /** When the two tests fire. */
  lemma TestsExact(L: nat, rounds: nat, round: nat)
    requires L > 0 && rounds > 0 && round > 0
    ensures L * rounds > 0
    ensures Generates(L, rounds, round) <==> rounds >= 3 && round % rounds == 2
    ensures EpochEnds(L, rounds, round) <==> round % rounds == 0
  {
    NextSlot(L, rounds, round);
    EqualMultiples(L, round % rounds, 2);
    EqualMultiples(L, round % rounds, 0);
    assert L * 2 == 2 * L && L * 0 == 0;
  }

  ghost predicate GeneratesOnceIn(L: nat, rounds: nat, epoch: nat)
    requires L > 0 && rounds > 0 && L * rounds > 0
  {
    exists a: nat :: epoch * rounds < a <= epoch * rounds + rounds && Generates(L, rounds, a)
      && forall b: nat :: epoch * rounds < b <= epoch * rounds + rounds && Generates(L, rounds, b) ==> b == a
  }

  /** Commitments for the next epoch are generated exactly once in an epoch of at least three rounds, and never in
      a shorter one. */
  lemma GenerationOncePerEpochIff(L: nat, rounds: nat, epoch: nat)
    requires L > 0 && rounds > 0
    ensures L * rounds > 0
    ensures GeneratesOnceIn(L, rounds, epoch) <==> rounds >= 3
  {
    EpochSizePositive(L, rounds);
    if rounds >= 3 {
      var a := epoch * rounds + 2;
      DivModUnique(a, rounds, epoch, 2);
      TestsExact(L, rounds, a);
      forall b: nat | epoch * rounds < b <= epoch * rounds + rounds && Generates(L, rounds, b) ensures b == a {
        TestsExact(L, rounds, b);
        if b == epoch * rounds + rounds {
          assert b == (epoch + 1) * rounds + 0;
          DivModUnique(b, rounds, epoch + 1, 0);
        } else {
          DivModUnique(b, rounds, epoch, b - epoch * rounds);
        }
      }
    } else {
      forall a: nat | epoch * rounds < a <= epoch * rounds + rounds ensures !Generates(L, rounds, a) {
        TestsExact(L, rounds, a);
      }
    }
  }

  /** The windows of one epoch tile [0, EPOCH_SIZE): every slot falls into exactly one round, at the row that
      the modulus recovers. */
  lemma WindowsTileEpoch(L: nat, rounds: nat, epoch: nat, slot: nat, round: nat)
    requires L > 0 && rounds > 0 && slot < rounds * L && epoch * rounds <= round < epoch * rounds + rounds
    ensures SlotAt(L, rounds, round) <= slot < SlotAt(L, rounds, round) + L <==> round - epoch * rounds == slot / L
    ensures SlotAt(L, rounds, round) <= slot < SlotAt(L, rounds, round) + L ==>
              slot % L == slot - SlotAt(L, rounds, round)
    ensures slot / L < rounds
  {
    var a := round - epoch * rounds;
    DivModUnique(round, rounds, epoch, a);
    DivBound(slot, rounds, L);
    assert SlotAt(L, rounds, round) == a * L;
    if a * L <= slot < a * L + L {
      DivModUnique(slot, L, a, slot - a * L);
    }
    if a == slot / L {
      assert slot == a * L + slot % L;
    }
  }

  class SlotClock {
    const parallelLen: nat
    const epochSizeRounds: nat
    var slot: nat
    var absRound: nat

    ghost predicate Valid()
      reads this
    {
      parallelLen > 0 && epochSizeRounds > 0 && slot == SlotAt(parallelLen, epochSizeRounds, absRound)
    }

    constructor (parallelLen: nat, epochSizeRounds: nat)
      requires parallelLen > 0 && epochSizeRounds > 0
      ensures Valid() && absRound == 0
      ensures this.parallelLen == parallelLen && this.epochSizeRounds == epochSizeRounds
    {
      this.parallelLen, this.epochSizeRounds := parallelLen, epochSizeRounds;
      slot, absRound := 0, 0;
      new;
      DivModUnique(0, epochSizeRounds, 0, 0);
    }

    /** epochIndexes of the current round; the row of an index is its remainder. */
    method EpochIndexes() returns (indexes: seq<nat>)
      requires Valid()
      ensures |indexes| == parallelLen
      ensures forall i :: 0 <= i < |indexes| ==> indexes[i] == slot + i && indexes[i] % parallelLen == i
    {
      indexes := [];
      for i := 0 to parallelLen
        invariant |indexes| == i
        invariant forall k :: 0 <= k < i ==> indexes[k] == slot + k && indexes[k] % parallelLen == k
      {
        var r := absRound % epochSizeRounds;
        assert slot + i == r * parallelLen + i;
        DivModUnique(slot + i, parallelLen, r, i);
        indexes := indexes + [slot + i];
      }
    }

    /** The end of a round: advance, and report which of the two epoch actions are due. */
    method NextRound() returns (generateCommitments: bool, startEpoch: bool)
      requires Valid()
      modifies this
      ensures Valid() && absRound == old(absRound) + 1
      ensures generateCommitments <==> epochSizeRounds >= 3 && absRound % epochSizeRounds == 2
      ensures startEpoch <==> absRound % epochSizeRounds == 0
    {
      var epochSize := parallelLen * epochSizeRounds;
      NextSlot(parallelLen, epochSizeRounds, absRound + 1);
      TestsExact(parallelLen, epochSizeRounds, absRound + 1);
      slot := slot + parallelLen;
      absRound := absRound + 1;
      generateCommitments := slot % epochSize == parallelLen * 2;
      startEpoch := slot % epochSize == 0 && slot > 0;
      if startEpoch {
        slot := 0;
      }
    }
  }
}
