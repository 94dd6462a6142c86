/** `SELECT id ... ORDER BY id LIMIT size`, as a relation on sets of ids (src/queue.rs:36-38). */
module Batches {

  /** The smallest ids of the queue: all of them, or `size` of them if there are more. */
  ghost predicate IsBatch(queue: set<nat>, size: nat, taken: set<nat>) {
    && taken <= queue
    && |taken| == (if |queue| < size then |queue| else size)
    && forall x, y :: x in taken && y in queue && y !in taken ==> x < y
  }

  lemma {:induction false} Least(s: set<nat>) returns (m: nat)
    requires s != {}
    ensures m in s && forall x :: x in s ==> m <= x
  {
    m :| m in s;
    if s != {m} {
      var rest := s - {m};
      var n := Least(rest);
      assert forall x :: x in s ==> x == m || x in rest;
      m := if n < m then n else m;
    }
  }

  lemma {:induction false} BatchExists(queue: set<nat>, size: nat) returns (taken: set<nat>)
    ensures IsBatch(queue, size, taken)
    decreases size
  {
    if queue == {} || size == 0 {
      taken := {};
    } else {
      var m := Least(queue);
      var rest := BatchExists(queue - {m}, size - 1);
      assert |queue - {m}| == |queue| - 1;
      taken := rest + {m};
      assert |taken| == |rest| + 1;
      forall x, y | x in taken && y in queue && y !in taken ensures x < y {
        assert y in queue - {m} && m <= y && m != y;
      }
    }
  }

  lemma SubsetOfSameSize(a: set<nat>, b: set<nat>)
    requires a <= b && |a| == |b|
    ensures a == b
  {
    assert |b - a| == |b| - |a|;
    assert b == a + (b - a);
  }

  lemma BatchUnique(queue: set<nat>, size: nat, a: set<nat>, b: set<nat>)
    requires IsBatch(queue, size, a) && IsBatch(queue, size, b)
    ensures a == b
  {
    if x :| x in a && x !in b {
      forall y | y in b ensures y in a {}
      SubsetOfSameSize(b, a);
    } else {
      SubsetOfSameSize(a, b);
    }
  }

  /** A batch below the limit is the whole queue; an empty one means that the queue is empty. */
  lemma ShortBatchIsAll(queue: set<nat>, size: nat, taken: set<nat>)
    requires IsBatch(queue, size, taken) && |taken| < size
    ensures taken == queue
  {
    SubsetOfSameSize(taken, queue);
  }

  lemma Complement(all: set<nat>, part: set<nat>)
    requires part <= all
    ensures |all - part| == |all| - |part|
    ensures |part| == |all| ==> part == all
  {
    assert all == part + (all - part);
    if |part| == |all| {
      SubsetOfSameSize(part, all);
    }
  }

  lemma Positive(x: int, size: nat)
    requires x * size > 0
    ensures x > 0
  {
  }
}
