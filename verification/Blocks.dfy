/** How a drain cuts the queue into batches: how many transactions, and which rows each of them takes. */
module Blocks {
  import opened Batches

  /** A transaction: the rows it took, and how long their calls took. */
  datatype Txn = Txn(taken: set<nat>, took: nat)

  function Left(queue: set<nat>, txns: seq<Txn>): set<nat> {
    if txns == [] then queue else Left(queue, txns[..|txns| - 1]) - txns[|txns| - 1].taken
  }

  /** Every transaction took the batch that was due. */
  ghost predicate InTurn(queue: set<nat>, txns: seq<Txn>, size: nat) {
    txns == [] ||
    var init, last := txns[..|txns| - 1], txns[|txns| - 1];
    && InTurn(queue, init, size)
    && IsBatch(Left(queue, init), size, last.taken)
    && (last.taken == {} ==> last.took == 0)
  }

  /** All of them took something, except the last, which found the queue empty. */
  predicate StopsWhenEmpty(txns: seq<Txn>) {
    && txns != [] && txns[|txns| - 1].taken == {}
    && forall i :: 0 <= i < |txns| - 1 ==> txns[i].taken != {}
  }

  lemma OneMore(queue: set<nat>, txns: seq<Txn>, txn: Txn, size: nat)
    requires InTurn(queue, txns, size)
    requires IsBatch(Left(queue, txns), size, txn.taken) && (txn.taken == {} ==> txn.took == 0)
    ensures InTurn(queue, txns + [txn], size)
  {
    assert (txns + [txn])[..|txns|] == txns;
  }

  lemma {:induction false} InTurnAt(queue: set<nat>, txns: seq<Txn>, i: nat, size: nat)
    requires InTurn(queue, txns, size) && i < |txns|
    ensures IsBatch(Left(queue, txns[..i]), size, txns[i].taken)
  {
    if i < |txns| - 1 {
      InTurnAt(queue, txns[..|txns| - 1], i, size);
      assert txns[..|txns| - 1][..i] == txns[..i];
    }
  }

  // ----- How many -----

  lemma {:induction false} Remaining(queue: set<nat>, txns: seq<Txn>, size: nat)
    requires InTurn(queue, txns, size) && forall i :: 0 <= i < |txns| ==> txns[i].taken != {}
    ensures |Left(queue, txns)| == if |txns| * size <= |queue| then |queue| - |txns| * size else 0
    ensures txns != [] ==> (|txns| - 1) * size < |queue|
  {
    if txns != [] {
      var init, last := txns[..|txns| - 1], txns[|txns| - 1];
      Remaining(queue, init, size);
      Complement(Left(queue, init), last.taken);
      assert txns[|txns| - 1].taken != {} && |last.taken| >= 1;
      assert |txns| * size == |init| * size + size;
    }
  }

  lemma EmptyAtEnd(queue: set<nat>, txns: seq<Txn>, size: nat)
    requires size >= 1 && InTurn(queue, txns, size) && StopsWhenEmpty(txns)
    ensures Left(queue, txns[..|txns| - 1]) == {} && Left(queue, txns) == {}
  {
    ShortBatchIsAll(Left(queue, txns[..|txns| - 1]), size, {});
  }

  /** On a queue of n rows: n / size transactions with rows, rounded up, and one without. */
  lemma DrainCount(queue: set<nat>, txns: seq<Txn>, size: nat)
    requires size >= 1 && InTurn(queue, txns, size) && StopsWhenEmpty(txns)
    ensures |txns| == (|queue| + size - 1) / size + 1
  {
    var init := txns[..|txns| - 1];
    forall i | 0 <= i < |init| ensures init[i].taken != {} {
      assert init[i] == txns[i];
    }
    Remaining(queue, init, size);
    EmptyAtEnd(queue, txns, size);
    RoundedUp(|init|, |queue|, size);
  }

  /** `k` batches of `size` hold `n` rows, and one fewer do not. */
  lemma RoundedUp(k: nat, n: nat, size: nat)
    requires size >= 1 && n <= k * size && (k > 0 ==> (k - 1) * size < n)
    ensures k == (n + size - 1) / size
  {
    var q := (n + size - 1) / size;
    assert q * size <= n + size - 1 < q * size + size;
    if k > 0 {
      Positive(q + 1 - k, size);
    }
    Positive(k + 1 - q, size);
  }

  // ----- Which rows -----

  lemma {:induction false} OnlyShrinks(queue: set<nat>, txns: seq<Txn>, i: nat)
    requires i <= |txns|
    ensures Left(queue, txns) <= Left(queue, txns[..i])
  {
    if i < |txns| {
      OnlyShrinks(queue, txns[..|txns| - 1], i);
      assert txns[..|txns| - 1][..i] == txns[..i];
    } else {
      assert txns[..i] == txns;
    }
  }

  /** What transaction `j` takes was still queued after the earlier transaction `i`. */
  lemma StillQueued(queue: set<nat>, txns: seq<Txn>, i: nat, j: nat, y: nat, size: nat)
    requires InTurn(queue, txns, size) && i < j < |txns| && y in txns[j].taken
    ensures y in Left(queue, txns[..i]) && y !in txns[i].taken
  {
    InTurnAt(queue, txns, j, size);
    OnlyShrinks(queue, txns[..j], i + 1);
    assert txns[..j][..i + 1] == txns[..i + 1] && txns[..i + 1][..i] == txns[..i];
  }

  /** Increasing blocks: whatever an earlier transaction took is smaller than what a later one takes. */
  lemma BlocksIncrease(queue: set<nat>, txns: seq<Txn>, i: nat, j: nat, x: nat, y: nat, size: nat)
    requires InTurn(queue, txns, size) && i < j < |txns|
    requires x in txns[i].taken && y in txns[j].taken
    ensures x < y
  {
    InTurnAt(queue, txns, i, size);
    StillQueued(queue, txns, i, j, y, size);
  }

  /** Full blocks: only the last transaction that takes rows may take fewer than `size`. */
  lemma {:induction false} BlocksFull(queue: set<nat>, txns: seq<Txn>, i: nat, size: nat)
    requires InTurn(queue, txns, size) && i + 1 < |txns| && txns[i + 1].taken != {}
    ensures |txns[i].taken| == size
  {
    InTurnAt(queue, txns, i, size);
    var y :| y in txns[i + 1].taken;
    StillQueued(queue, txns, i, i + 1, y, size);
    if |txns[i].taken| < size {
      ShortBatchIsAll(Left(queue, txns[..i]), size, txns[i].taken);
    }
  }

  /** Complete blocks: what is no longer left was taken by one of them. */
  lemma {:induction false} EveryRowTaken(queue: set<nat>, txns: seq<Txn>, id: nat) returns (i: nat)
    requires id in queue && id !in Left(queue, txns)
    ensures i < |txns| && id in txns[i].taken
  {
    var init := txns[..|txns| - 1];
    if id in Left(queue, init) {
      i := |txns| - 1;
    } else {
      i := EveryRowTaken(queue, init, id);
      assert init[i] == txns[i];
    }
  }

  // ----- No choice -----

  lemma LeftNext(queue: set<nat>, txns: seq<Txn>, i: nat)
    requires i < |txns|
    ensures Left(queue, txns[..i + 1]) == Left(queue, txns[..i]) - txns[i].taken
  {
    assert txns[..i + 1][..i] == txns[..i];
  }

  lemma {:induction false} SameLeft(queue: set<nat>, a: seq<Txn>, b: seq<Txn>, i: nat, size: nat)
    requires InTurn(queue, a, size) && InTurn(queue, b, size) && i <= |a| && i <= |b|
    ensures Left(queue, a[..i]) == Left(queue, b[..i])
  {
    if i > 0 {
      SameLeft(queue, a, b, i - 1, size);
      SameTaken(queue, a, b, i - 1, size);
      LeftNext(queue, a, i - 1);
      LeftNext(queue, b, i - 1);
    }
  }

  lemma SameTaken(queue: set<nat>, a: seq<Txn>, b: seq<Txn>, i: nat, size: nat)
    requires InTurn(queue, a, size) && InTurn(queue, b, size) && i < |a| && i < |b|
    requires Left(queue, a[..i]) == Left(queue, b[..i])
    ensures a[i].taken == b[i].taken
  {
    InTurnAt(queue, a, i, size);
    InTurnAt(queue, b, i, size);
    BatchUnique(Left(queue, a[..i]), size, a[i].taken, b[i].taken);
  }

  /** The queue and the batch size determine the blocks: any two drains take the same ones in turn. */
  lemma BlocksDetermined(queue: set<nat>, a: seq<Txn>, b: seq<Txn>, size: nat)
    requires size >= 1
    requires InTurn(queue, a, size) && StopsWhenEmpty(a) && InTurn(queue, b, size) && StopsWhenEmpty(b)
    ensures |a| == |b| && forall i :: 0 <= i < |a| ==> a[i].taken == b[i].taken
  {
    DrainCount(queue, a, size);
    DrainCount(queue, b, size);
    forall i | 0 <= i < |a| ensures a[i].taken == b[i].taken {
      SameLeft(queue, a, b, i, size);
      SameTaken(queue, a, b, i, size);
    }
  }
}
