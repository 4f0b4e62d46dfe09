/**
 * Index arithmetic on the cyclic list of checkpoints: the next checkpoint
 * after a pass (AircraftAgent.GotCheckpoint) and the last completed one an
 * aircraft respawns at (AircraftArea.ResetAgentPosition).
 */
module CheckpointIndex {
  import opened Arithmetic

  /** The checkpoint to fly to after passing checkpoint i of count. */
  function Next(i: int, count: int): (r: int)
    requires 0 <= i < count
    ensures 0 <= r < count
    ensures r == 0 <==> i == count - 1
    ensures r != 0 ==> r == i + 1
  {
    (i + 1) % count
  }

  /**
   * The checkpoint before next, as ResetAgentPosition computes it: one less,
   * with -1 read as the last checkpoint.
   */
  function Previous(next: int, count: int): int {
    var p := next - 1;
    if p == -1 then count - 1 else p
  }

  /** For an index in range, Previous is the modular predecessor and undoes Next. */
  lemma PreviousIsPredecessor(next: int, count: int)
    requires 0 <= next < count
    ensures Previous(next, count) == (next + count - 1) % count
    ensures 0 <= Previous(next, count) < count
    ensures Next(Previous(next, count), count) == next
    ensures Previous(Next(next, count), count) == next
  {
    if next == 0 {
      assert (count - 1) % count == count - 1;
    } else {
      assert (next + count - 1) % count == next - 1 by {
        assert next + count - 1 == (next - 1) + count;
      }
    }
  }

  /** The index after k passes starting from checkpoint i. */
  function Advance(i: int, count: int, k: nat): (r: int)
    requires 0 <= i < count
    ensures 0 <= r < count
    decreases k
  {
    if k == 0 then i else Advance(Next(i, count), count, k - 1)
  }

  /** k passes move the index k places round the cycle. */
  lemma {:induction false} AdvanceIsModular(i: int, count: int, k: nat)
    requires 0 <= i < count
    ensures Advance(i, count, k) == (i + k) % count
    decreases k
  {
    if k > 0 {
      AdvanceIsModular(Next(i, count), count, k - 1);
      var n := Next(i, count);
      if n == 0 {
        assert i + k == (k - 1) + count;
        ModAddCount(k - 1, count);
      } else {
        assert n + (k - 1) == i + k;
      }
    }
  }

  /** After count passes an aircraft is back at the checkpoint it started from. */
  lemma FullCycleReturns(i: int, count: int)
    requires 0 <= i < count
    ensures Advance(i, count, count) == i
  {
    AdvanceIsModular(i, count, count);
    ModUnique(i + count, count, 1, i);
  }
}
