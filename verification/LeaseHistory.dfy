/**
 What a history of operations leaves in a store's cell, told from the operations
 alone: who holds the lease, how long renewing keeps it, and which replay ID is
 stored.
 */
module LeaseHistory {
  import opened Common
  import opened Lease

  /** An operation that asks for the lease, or for more of it. */
  predicate Claims(op: Op, owner: Owner) {
    op.owner == owner && (op.Acquire? || op.Renew? || (op.Commit? && op.replayId != []))
  }

  /** Whether a claim made at an instant still counts at another: the two stores
      disagree about the very last instant. */
  predicate Lasts(store: Store, made: int, ttl: nat, now: int) {
    if store.Redis? then now - made < ttl else now - made <= ttl
  }

  predicate Granted(store: Store, ops: seq<Timed>, i: nat, owner: Owner)
    requires i < |ops|
  {
    Claims(ops[i].op, owner) && OutcomeAt(store, EMPTY, ops, i) == Done
  }

  /** The i-th operation is the owner's last word on the lease. */
  predicate LastWord(store: Store, ops: seq<Timed>, i: nat, owner: Owner)
    requires i < |ops|
  {
    && Granted(store, ops, i, owner)
    && forall j :: i < j < |ops| ==> !Granted(store, ops, j, owner) && ops[j].op != Release(owner)
  }

  function LastNow(start: int, ops: seq<Timed>): int { if ops == [] then start else ops[|ops| - 1].now }

  lemma FrontOutcome(store: Store, ops: seq<Timed>, i: nat)
    requires i < |ops| - 1
    ensures OutcomeAt(store, EMPTY, ops[..|ops| - 1], i) == OutcomeAt(store, EMPTY, ops, i)
  {
    assert ops[..|ops| - 1][..i] == ops[..i];
  }

  lemma FrontOrdered(start: int, ops: seq<Timed>)
    requires Ordered(start, ops) && ops != []
    ensures Ordered(start, ops[..|ops| - 1]) && LastNow(start, ops[..|ops| - 1]) <= ops[|ops| - 1].now
  {
  }

  /** A grant in the cell stands for its owner's last word, and the other way round
      as long as that word lasts. */
  ghost predicate Recorded(store: Store, ops: seq<Timed>, owner: Owner, now: int) {
    var cell := After(store, EMPTY, ops);
    && (forall i :: 0 <= i < |ops| && LastWord(store, ops, i, owner) && Lasts(store, ops[i].now, ops[i].op.ttl, now) ==>
          cell.lease == Some(Grant(owner, ops[i].now + ops[i].op.ttl)))
    && (Holder(store, cell, now) == Some(owner) ==>
          exists i :: 0 <= i < |ops| && LastWord(store, ops, i, owner)
                      && cell.lease.value.expires == ops[i].now + ops[i].op.ttl)
  }

  lemma LastWordStays(store: Store, ops: seq<Timed>, owner: Owner, i: nat)
    requires i < |ops| - 1
    ensures LastWord(store, ops, i, owner)
       <==> LastWord(store, ops[..|ops| - 1], i, owner)
            && !Granted(store, ops, |ops| - 1, owner) && ops[|ops| - 1].op != Release(owner)
  {
    var front := ops[..|ops| - 1];
    forall j | 0 <= j < |front| ensures Granted(store, front, j, owner) <==> Granted(store, ops, j, owner) {
      FrontOutcome(store, ops, j);
    }
    if LastWord(store, ops, i, owner) {
      forall j | i < j < |front| ensures !Granted(store, front, j, owner) && front[j].op != Release(owner) {
        assert front[j] == ops[j];
      }
    }
  }

  lemma {:induction false} GrantsRecorded(store: Store, start: int, ops: seq<Timed>, owner: Owner, now: int)
    requires Ordered(start, ops) && LastNow(start, ops) <= now
    ensures Recorded(store, ops, owner, now)
    decreases |ops|
  {
    if ops != [] {
      var front, last := ops[..|ops| - 1], ops[|ops| - 1];
      FrontOrdered(start, ops);
      GrantsRecorded(store, start, front, owner, last.now);
      forall i | 0 <= i < |front|
        ensures LastWord(store, ops, i, owner)
           <==> LastWord(store, front, i, owner)
                && !Granted(store, ops, |ops| - 1, owner) && last.op != Release(owner)
      {
        LastWordStays(store, ops, owner, i);
      }
      GrantRecorded(store, ops, owner, now);
    }
  }

  /** The last operation makes of the grant what it should. */
  lemma LastPerformed(store: Store, ops: seq<Timed>, owner: Owner, now: int)
    requires ops != [] && ops[|ops| - 1].now <= now
    ensures var before, cell := After(store, EMPTY, ops[..|ops| - 1]), After(store, EMPTY, ops);
            var last := ops[|ops| - 1];
            && (Granted(store, ops, |ops| - 1, owner) ==>
                  cell.lease == Some(Grant(owner, last.now + last.op.ttl)))
            && (!Granted(store, ops, |ops| - 1, owner) && last.op != Release(owner) ==>
                  Holder(store, before, last.now) == Some(owner) ==> cell.lease == before.lease)
            && (!Granted(store, ops, |ops| - 1, owner) && Holder(store, cell, now) == Some(owner) ==>
                  cell.lease == before.lease && last.op != Release(owner)
                  && Holder(store, before, last.now) == Some(owner))
  {
  }

  lemma GrantRecorded(store: Store, ops: seq<Timed>, owner: Owner, now: int)
    requires ops != [] && ops[|ops| - 1].now <= now
    requires Recorded(store, ops[..|ops| - 1], owner, ops[|ops| - 1].now)
    requires forall i :: 0 <= i < |ops| - 1 ==>
               (LastWord(store, ops, i, owner)
                <==> LastWord(store, ops[..|ops| - 1], i, owner)
                     && !Granted(store, ops, |ops| - 1, owner) && ops[|ops| - 1].op != Release(owner))
    ensures Recorded(store, ops, owner, now)
  {
    forall i | 0 <= i < |ops| && LastWord(store, ops, i, owner) && Lasts(store, ops[i].now, ops[i].op.ttl, now)
      ensures After(store, EMPTY, ops).lease == Some(Grant(owner, ops[i].now + ops[i].op.ttl))
    {
      LastWordRecorded(store, ops, owner, now, i);
    }
    if Holder(store, After(store, EMPTY, ops), now) == Some(owner) {
      var i := HolderRecorded(store, ops, owner, now);
    }
  }

  lemma LastWordRecorded(store: Store, ops: seq<Timed>, owner: Owner, now: int, i: nat)
    requires i < |ops| && ops[|ops| - 1].now <= now && Recorded(store, ops[..|ops| - 1], owner, ops[|ops| - 1].now)
    requires LastWord(store, ops, i, owner) && Lasts(store, ops[i].now, ops[i].op.ttl, now)
    requires i < |ops| - 1 ==> LastWord(store, ops[..|ops| - 1], i, owner)
    ensures After(store, EMPTY, ops).lease == Some(Grant(owner, ops[i].now + ops[i].op.ttl))
  {
    LastPerformed(store, ops, owner, now);
    if i < |ops| - 1 {
      assert ops[..|ops| - 1][i] == ops[i];
    }
  }

  lemma HolderRecorded(store: Store, ops: seq<Timed>, owner: Owner, now: int) returns (i: nat)
    requires ops != [] && ops[|ops| - 1].now <= now
    requires Recorded(store, ops[..|ops| - 1], owner, ops[|ops| - 1].now)
    requires forall i :: 0 <= i < |ops| - 1 ==>
               (LastWord(store, ops, i, owner)
                <==> LastWord(store, ops[..|ops| - 1], i, owner)
                     && !Granted(store, ops, |ops| - 1, owner) && ops[|ops| - 1].op != Release(owner))
    requires Holder(store, After(store, EMPTY, ops), now) == Some(owner)
    ensures i < |ops| && LastWord(store, ops, i, owner)
    ensures After(store, EMPTY, ops).lease.value.expires == ops[i].now + ops[i].op.ttl
  {
    var front, k := ops[..|ops| - 1], |ops| - 1;
    LastPerformed(store, ops, owner, now);
    if Granted(store, ops, k, owner) {
      i := k;
    } else {
      i :| 0 <= i < |front| && LastWord(store, front, i, owner)
           && After(store, EMPTY, front).lease.value.expires == front[i].now + front[i].op.ttl;
      assert front[i] == ops[i];
    }
  }

  /** An owner holds the lease exactly while its last successful claim lasts and it has
      not released it since. */
  lemma HeldExactly(store: Store, start: int, ops: seq<Timed>, owner: Owner, now: int)
    requires Ordered(start, ops) && LastNow(start, ops) <= now
    ensures Holder(store, After(store, EMPTY, ops), now) == Some(owner) <==>
              exists i :: 0 <= i < |ops| && LastWord(store, ops, i, owner)
                          && Lasts(store, ops[i].now, ops[i].op.ttl, now)
  {
    GrantsRecorded(store, start, ops, owner, now);
  }

  /** Acquire lets an owner in exactly when nobody's last claim lasts; the memory store
      also lets the holder in again, and Redis refuses terms under a second. */
  lemma LetInExactly(store: Store, start: int, ops: seq<Timed>, i: nat)
    requires Ordered(start, ops) && i < |ops| && ops[i].op.Acquire?
    ensures OutcomeAt(store, EMPTY, ops, i) == Done <==>
              && (store.Redis? ==> ops[i].op.ttl >= 1000)
              && forall o, j :: 0 <= j < i && LastWord(store, ops[..i], j, o)
                                && Lasts(store, ops[j].now, ops[j].op.ttl, ops[i].now) ==>
                   store.Memory? && o == ops[i].op.owner
  {
    var before, now := ops[..i], ops[i].now;
    var holder := Holder(store, After(store, EMPTY, before), now);
    assert Ordered(start, before) && LastNow(start, before) <= now;
    forall o, j | 0 <= j < i && LastWord(store, before, j, o) && Lasts(store, ops[j].now, ops[j].op.ttl, now)
      ensures holder == Some(o)
    {
      assert before[j] == ops[j];
      HeldExactly(store, start, before, o, now);
    }
    if holder.Some? {
      HeldExactly(store, start, before, holder.value, now);
      var j :| 0 <= j < i && LastWord(store, before, j, holder.value)
               && Lasts(store, before[j].now, before[j].op.ttl, now);
      assert before[j] == ops[j];
    }
  }

  // ------------------------------------------------------------------ keeping a lease

  /** Every claim of the owner is for the same time. */
  predicate SameTtl(ops: seq<Timed>, owner: Owner, ttl: nat) {
    forall i :: 0 <= i < |ops| && Claims(ops[i].op, owner) ==> ops[i].op.ttl == ttl
  }

  /** From the k-th operation on the owner never releases, and at each operation some
      renewal or commit of its own, or the k-th operation, still lasts. */
  predicate KeptUp(store: Store, ops: seq<Timed>, k: nat, owner: Owner, ttl: nat) {
    forall m :: k < m < |ops| ==> KeptAt(store, ops, k, m, owner, ttl)
  }

  predicate KeptAt(store: Store, ops: seq<Timed>, k: nat, m: nat, owner: Owner, ttl: nat)
    requires k < m < |ops|
  {
    ops[m].op != Release(owner)
    && exists j :: k <= j < m && (j == k || !ops[j].op.Acquire?) && Claims(ops[j].op, owner)
                   && Lasts(store, ops[j].now, ttl, ops[m].now)
  }

  /** The cell as the owner's claims since the k-th operation leave it. */
  ghost predicate Keeps(store: Store, ops: seq<Timed>, k: nat, m: nat, owner: Owner, ttl: nat)
    requires k < m <= |ops|
  {
    var cell := After(store, EMPTY, ops[..m]);
    && cell.lease.Some? && cell.lease.value.owner == owner
    && forall j :: k <= j < m && (j == k || !ops[j].op.Acquire?) && Claims(ops[j].op, owner) ==>
         cell.lease.value.expires >= ops[j].now + ttl
  }

  lemma OrderedNow(start: int, ops: seq<Timed>, j: nat, m: nat)
    requires Ordered(start, ops) && j <= m < |ops|
    ensures ops[j].now <= ops[m].now
  {
    NowAscends(start, ops, j, m);
  }

  /** The owner holds the lease when the next operation comes. */
  lemma KeptBefore(store: Store, ops: seq<Timed>, k: nat, m: nat, owner: Owner, ttl: nat)
    requires k < m < |ops| && KeptUp(store, ops, k, owner, ttl) && Keeps(store, ops, k, m, owner, ttl)
    ensures Holder(store, After(store, EMPTY, ops[..m]), ops[m].now) == Some(owner)
  {
    assert KeptAt(store, ops, k, m, owner, ttl);
    var j :| k <= j < m && (j == k || !ops[j].op.Acquire?) && Claims(ops[j].op, owner)
             && Lasts(store, ops[j].now, ttl, ops[m].now);
  }

  /** One operation more while the owner holds the lease. */
  lemma KeepsNext(store: Store, start: int, ops: seq<Timed>, k: nat, m: nat, owner: Owner, ttl: nat)
    requires Ordered(start, ops) && k < m < |ops| && SameTtl(ops, owner, ttl)
    requires Keeps(store, ops, k, m, owner, ttl) && ops[m].op != Release(owner)
    requires Holder(store, After(store, EMPTY, ops[..m]), ops[m].now) == Some(owner)
    ensures Keeps(store, ops, k, m + 1, owner, ttl)
  {
    assert ops[..m + 1][..m] == ops[..m] && ops[..m + 1][m] == ops[m];
    var before, cell := After(store, EMPTY, ops[..m]), After(store, EMPTY, ops[..m + 1]);
    assert cell == Perform(store, before, ops[m].op, ops[m].now).0;
    forall j | k <= j < m + 1 && (j == k || !ops[j].op.Acquire?) && Claims(ops[j].op, owner)
      ensures cell.lease.value.expires >= ops[j].now + ttl
    {
      OrderedNow(start, ops, j, m);
    }
  }

  lemma KeepsFirst(store: Store, ops: seq<Timed>, k: nat, owner: Owner, ttl: nat)
    requires k < |ops| && ops[k].op.Acquire? && Granted(store, ops, k, owner) && ops[k].op.ttl == ttl
    ensures Keeps(store, ops, k, k + 1, owner, ttl)
  {
    assert ops[..k + 1][..k] == ops[..k] && ops[..k + 1][k] == ops[k];
  }

  lemma KeepsOneMore(store: Store, start: int, ops: seq<Timed>, k: nat, m: nat, owner: Owner, ttl: nat)
    requires Ordered(start, ops) && k < m < |ops| && SameTtl(ops, owner, ttl) && KeptUp(store, ops, k, owner, ttl)
    requires Keeps(store, ops, k, m, owner, ttl)
    ensures Keeps(store, ops, k, m + 1, owner, ttl)
  {
    assert KeptAt(store, ops, k, m, owner, ttl);
    KeptBefore(store, ops, k, m, owner, ttl);
    KeepsNext(store, start, ops, k, m, owner, ttl);
  }

  lemma {:induction false} KeepsOn(store: Store, start: int, ops: seq<Timed>, k: nat, m: nat, owner: Owner, ttl: nat)
    requires Ordered(start, ops) && k < m <= |ops| && SameTtl(ops, owner, ttl) && KeptUp(store, ops, k, owner, ttl)
    requires ops[k].op.Acquire? && Granted(store, ops, k, owner)
    ensures Keeps(store, ops, k, m, owner, ttl)
    decreases m
  {
    if m == k + 1 {
      KeepsFirst(store, ops, k, owner, ttl);
    } else {
      KeepsOn(store, start, ops, k, m - 1, owner, ttl);
      KeepsOneMore(store, start, ops, k, m - 1, owner, ttl);
    }
  }

  /** A lease once acquired is kept by renewing and committing in time, on either
      store: at every later operation its owner holds it until at least a full term
      after its last renewal or commit, its own claims succeed, and nobody else is
      let in. */
  lemma KeepAlive(store: Store, start: int, ops: seq<Timed>, k: nat, m: nat, owner: Owner, ttl: nat)
    requires Ordered(start, ops) && k < m < |ops| && SameTtl(ops, owner, ttl) && KeptUp(store, ops, k, owner, ttl)
    requires ops[k].op.Acquire? && Granted(store, ops, k, owner)
    ensures var cell := After(store, EMPTY, ops[..m]);
            && Holder(store, cell, ops[m].now) == Some(owner)
            && forall j :: k <= j < m && (j == k || !ops[j].op.Acquire?) && Claims(ops[j].op, owner) ==>
                 cell.lease.value.expires >= ops[j].now + ttl
    ensures ops[m].op.Acquire? && ops[m].op.owner != owner ==>
              OutcomeAt(store, EMPTY, ops, m) == if store.Redis? && ops[m].op.ttl < 1000 then Refused else Held
    ensures Claims(ops[m].op, owner) && !ops[m].op.Acquire? ==> OutcomeAt(store, EMPTY, ops, m) == Done
  {
    KeepsOn(store, start, ops, k, m, owner, ttl);
    KeptBefore(store, ops, k, m, owner, ttl);
  }

  // ------------------------------------------------------------------ the replay ID

  predicate Replaces(store: Store, ops: seq<Timed>, i: nat)
    requires i < |ops|
  {
    (ops[i].op.Commit? || ops[i].op.Clear?) && OutcomeAt(store, EMPTY, ops, i) == Done
  }

  predicate LastReplaced(store: Store, ops: seq<Timed>, i: nat)
    requires i < |ops|
  {
    Replaces(store, ops, i) && forall j :: i < j < |ops| ==> !Replaces(store, ops, j)
  }

  /** The replay ID in the store is the one of the last successful commit, unless it
      was cleared since; expiry, takeover and release leave it alone. */
  lemma {:induction false} StoredExactly(store: Store, ops: seq<Timed>, id: ReplayId)
    ensures After(store, EMPTY, ops).replay == Some(id) <==>
              exists i :: 0 <= i < |ops| && LastReplaced(store, ops, i) && ops[i].op.Commit? && ops[i].op.replayId == id
    decreases |ops|
  {
    if ops != [] {
      var front, k := ops[..|ops| - 1], |ops| - 1;
      StoredExactly(store, front, id);
      forall i | 0 <= i < k ensures Replaces(store, front, i) <==> Replaces(store, ops, i) {
        FrontOutcome(store, ops, i);
      }
      if Replaces(store, ops, k) {
        assert LastReplaced(store, ops, k);
      } else {
        forall i | 0 <= i < k ensures LastReplaced(store, front, i) <==> LastReplaced(store, ops, i) {
          LastReplacedStays(store, ops, i);
        }
        assert forall i :: 0 <= i < k ==> front[i] == ops[i];
      }
    }
  }

  lemma LastReplacedStays(store: Store, ops: seq<Timed>, i: nat)
    requires i < |ops| - 1 && !Replaces(store, ops, |ops| - 1)
    requires forall j :: 0 <= j < |ops| - 1 ==> (Replaces(store, ops[..|ops| - 1], j) <==> Replaces(store, ops, j))
    ensures LastReplaced(store, ops[..|ops| - 1], i) <==> LastReplaced(store, ops, i)
  {
    var front := ops[..|ops| - 1];
    if LastReplaced(store, ops, i) {
      forall j | i < j < |front| ensures !Replaces(store, front, j) {
        assert !Replaces(store, ops, j);
      }
    }
    if LastReplaced(store, front, i) {
      forall j | i < j < |ops| ensures !Replaces(store, ops, j) {
        if j < |front| { assert !Replaces(store, front, j); }
      }
    }
  }
}
