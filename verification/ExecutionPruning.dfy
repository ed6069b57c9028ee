/** Pruning in batches ends where one unlimited prune would. */
module ExecutionPruning {
  import opened Ordering
  import opened ControlRows
  import opened Executions

  lemma AgeIsTotal(t: Table, s: set<string>)
    requires s <= Endable(t)
    ensures StrictTotal(ByAge(t), s)
  {
    var less := ByAge(t);
    forall x <- s ensures !less(x, x) { LexIrreflexive(CharCode, x); }
    forall x <- s, y <- s, z <- s | less(x, y) && less(y, z) ensures less(x, z) {
      if t[x].terminalAt == t[y].terminalAt == t[z].terminalAt { LexTransitive(CharCode, x, y, z); }
    }
    forall x <- s, y <- s ensures x == y || less(x, y) || less(y, x) { LexTotal(CharCode, x, y); }
  }

  /** A batch holds the oldest: whatever is prunable and older than a member is a member. */
  lemma BatchIsOldest(t: Table, q: PruneRequest, x: string, y: string)
    requires y in Batch(t, q) && x in Prunable(t, q) && Older(t, x, y)
    ensures x in Batch(t, q)
  {
    hide Prunable, Older;
    AgeIsTotal(t, Prunable(t, q)) by { assert Prunable(t, q) <= Endable(t) by { PrunableEnded(t, q); } }
    RankMonotone(ByAge(t), Prunable(t, q), x, y);
  }

  lemma PrunableEnded(t: Table, q: PruneRequest)
    ensures Prunable(t, q) <= Endable(t) && Batch(t, q) <= Prunable(t, q)
  {
  }

  lemma EndableAfter(t: Table, b: set<string>)
    ensures Endable(t - b) == Endable(t) - b
  {
  }

  /** Deleting rows never moves a survivor back, and moves it forward only if a newer row of its plugin went. */
  lemma PositionAfter(t: Table, b: set<string>, id: string)
    requires id in t && id !in b
    ensures id in t - b && Position(t - b, id) <= Position(t, id)
    ensures (forall j <- Partition(t, id) :: Older(t, id, j) ==> j !in b) ==> Position(t - b, id) == Position(t, id)
  {
    var u := t - b;
    EndableAfter(t, b);
    RankBelow(Newest(u), Partition(u, id), Newest(t), Partition(t, id), id);
    if forall j <- Partition(t, id) :: Older(t, id, j) ==> j !in b {
      RankBelow(Newest(t), Partition(t, id), Newest(u), Partition(u, id), id);
    }
  }

  /** A batch leaves exactly the rest of the prunable rows prunable. */
  lemma BatchLeavesTheRest(t: Table, q: PruneRequest)
    requires q.limit >= 0
    ensures Prunable(Pruned(t, q), q) == Prunable(t, q) - Batch(t, q)
  {
    var b, u := Batch(t, q), Pruned(t, q);
    PrunableEnded(t, q);
    EndableAfter(t, b);
    forall id | id in Endable(u) ensures id in Prunable(u, q) <==> id in Prunable(t, q) {
      SurvivorKeepsStatus(t, q, id);
    }
    hide Batch;
    assert forall id :: id in Prunable(u, q) ==> id in Endable(u);
  }

  lemma SurvivorKeepsStatus(t: Table, q: PruneRequest, id: string)
    requires id in Endable(t) && id !in Batch(t, q)
    ensures id in Endable(Pruned(t, q)) && (id in Prunable(Pruned(t, q), q) <==> id in Prunable(t, q))
  {
    var b := Batch(t, q);
    PositionAfter(t, b, id);
    EndableAfter(t, b);
    if id in Prunable(t, q) {
      forall j <- Partition(t, id) | Older(t, id, j) ensures j !in b {
        if j in b {
          BatchIsOldest(t, q, id, j);
          assert false;
        }
      }
    }
  }

  // ---------------------------------------------------------------------------
  // Convergence
  // ---------------------------------------------------------------------------

  lemma BatchMakesProgress(t: Table, q: PruneRequest)
    requires q.limit >= 1
    ensures |Batch(t, q)| == if q.limit < |Prunable(t, q)| then q.limit else |Prunable(t, q)|
    ensures Batch(t, q) == {} <==> Prunable(t, q) == {}
    ensures |Prunable(Pruned(t, q), q)| == |Prunable(t, q)| - |Batch(t, q)|
  {
    PrunableEnded(t, q);
    AgeIsTotal(t, Prunable(t, q));
    FirstRankedSize(ByAge(t), Prunable(t, q), q.limit);
    BatchLeavesTheRest(t, q);
  }

  /** Pruning until a batch deletes nothing. */
  ghost function PruneAll(t: Table, q: PruneRequest): Table
    requires q.limit >= 1
    decreases |Prunable(t, q)|
  {
    if Batch(t, q) == {} then t
    else
      BatchMakesProgress(t, q);
      PruneAll(Pruned(t, q), q)
  }

  /** For any limit, the batches together delete exactly what one unlimited prune deletes. */
  lemma {:induction false} BatchesConverge(t: Table, q: PruneRequest)
    requires q.limit >= 1
    ensures PruneAll(t, q) == t - Prunable(t, q)
    decreases |Prunable(t, q)|
  {
    BatchMakesProgress(t, q);
    if Batch(t, q) != {} {
      BatchesConverge(Pruned(t, q), q);
      BatchLeavesTheRest(t, q);
      PrunableEnded(t, q);
      hide Batch, Prunable;
      assert (t - Batch(t, q)) - (Prunable(t, q) - Batch(t, q)) == t - Prunable(t, q);
    }
  }

  /** Afterwards every plugin has at most the rows it may keep, and none of them is too old. */
  lemma PrunedIsWithinLimits(t: Table, q: PruneRequest, id: string)
    requires q.limit >= 1 && q.kept >= 1 && id in t
    ensures var u := PruneAll(t, q);
            && (id in u <==> id !in Prunable(t, q))
            && (id in u ==> |Partition(u, id)| <= q.kept)
            && (id in u && id in Endable(t) ==> t[id].terminalAt.value >= Nanos(q.before))
  {
    BatchesConverge(t, q);
    var gone := Prunable(t, q);
    EndableAfter(t, gone);
    if id !in gone { PartitionIsSmall(t, q, id); }
  }

  /** The survivors of a partition are its newest rows, and there are at most as many as may be kept. */
  lemma PartitionIsSmall(t: Table, q: PruneRequest, id: string)
    requires q.kept >= 1 && id in t && id !in Prunable(t, q)
    ensures |Partition(t - Prunable(t, q), id)| <= q.kept
  {
    var gone := Prunable(t, q);
    var u := t - gone;
    EndableAfter(t, gone);
    var rows, left := Partition(t, id), Partition(u, id);
    var newer := Newest(t);
    NewestIsTotal(t, rows);
    forall j <- left ensures j in FirstRanked(newer, rows, q.kept) {
      assert Partition(t, j) == rows;
    }
    FirstRankedSize(newer, rows, q.kept);
    CardinalityMonotone(left, FirstRanked(newer, rows, q.kept));
  }

  lemma NewestIsTotal(t: Table, s: set<string>)
    requires s <= Endable(t)
    ensures StrictTotal(Newest(t), s)
  {
    AgeIsTotal(t, s);
    var less, newer := ByAge(t), Newest(t);
    forall x <- s, y <- s ensures newer(x, y) == less(y, x) {}
    forall x <- s, y <- s, z <- s | newer(x, y) && newer(y, z) ensures newer(x, z) {
      assert less(z, y) && less(y, x);
    }
  }
}
