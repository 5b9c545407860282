/**
 The checkpoint stores: a lease with an expiry and a replay ID for each key, kept
 in Redis by atomic scripts or in memory under a lock. Both are instances of one
 fenced cell.
 */
module Lease {
  import opened Common
  import Topic

  type Owner = string

  type ReplayId = seq<Topic.Byte>

  /** The two stores differ in the instant a lease ends and in whether the holder
      may acquire again. */
  datatype Store = Redis | Memory

  datatype Grant = Grant(owner: Owner, expires: int)

  /** What a store keeps for one key. */
  datatype Cell = Cell(lease: Option<Grant>, replay: Option<ReplayId>)

  const EMPTY := Cell(None, None)

  datatype Op =
    | Acquire(owner: Owner, ttl: nat)
    | Commit(owner: Owner, ttl: nat, replayId: ReplayId)
    | Renew(owner: Owner, ttl: nat)
    | Release(owner: Owner)
    | Clear(owner: Owner)

  datatype Outcome = Done | Held | LeaseLost | Refused

  predicate Alive(store: Store, grant: Grant, now: int) {
    if store.Redis? then now < grant.expires else now <= grant.expires
  }

  /** Who holds the lease at an instant. */
  function Holder(store: Store, cell: Cell, now: int): Option<Owner> {
    if cell.lease.Some? && Alive(store, cell.lease.value, now) then Some(cell.lease.value.owner) else None
  }

  function Perform(store: Store, cell: Cell, op: Op, now: int): (Cell, Outcome) {
    var holder := Holder(store, cell, now);
    match op
    case Acquire(owner, ttl) =>
      if store.Redis? && ttl < 1000 then (cell, Refused)
      else if holder.None? || (store.Memory? && holder == Some(owner))
      then (cell.(lease := Some(Grant(owner, now + ttl))), Done)
      else (cell, Held)
    case Commit(owner, ttl, id) =>
      if id == [] then (cell, Refused)
      else if holder == Some(owner)
      then (Cell(Some(Grant(owner, now + ttl)), Some(id)), Done)
      else (cell, LeaseLost)
    case Renew(owner, ttl) =>
      if holder == Some(owner) then (cell.(lease := Some(Grant(owner, now + ttl))), Done) else (cell, LeaseLost)
    case Release(owner) =>
      if holder == Some(owner) then (cell.(lease := None), Done) else (cell, Done)
    case Clear(owner) =>
      if holder == Some(owner) then (cell.(replay := None), Done) else (cell, LeaseLost)
  }

  // ------------------------------------------------------------ runs of operations

  /** Operations with the instants at which they are executed. */
  datatype Timed = Timed(now: int, op: Op)

  predicate Ordered(start: int, ops: seq<Timed>) {
    forall i :: 0 <= i < |ops| ==> start <= ops[i].now && (i > 0 ==> ops[i - 1].now <= ops[i].now)
  }

  function After(store: Store, cell: Cell, ops: seq<Timed>): Cell {
    if ops == [] then cell
    else
      var before := After(store, cell, ops[..|ops| - 1]);
      var last := ops[|ops| - 1];
      Perform(store, before, last.op, last.now).0
  }

  function OutcomeAt(store: Store, cell: Cell, ops: seq<Timed>, i: nat): Outcome
    requires i < |ops|
  {
    Perform(store, After(store, cell, ops[..i]), ops[i].op, ops[i].now).1
  }

  predicate NeverAcquires(ops: seq<Timed>, owner: Owner) {
    forall i :: 0 <= i < |ops| && ops[i].op.Acquire? ==> ops[i].op.owner != owner
  }

  /** An expired grant stays expired. */
  lemma ExpiryIsFinal(store: Store, cell: Cell, now: int, later: int)
    requires now <= later
    ensures Holder(store, cell, later) == Holder(store, cell, now) || Holder(store, cell, later) == None
  {
  }

  lemma {:induction false} LostStays(store: Store, cell: Cell, start: int, ops: seq<Timed>, owner: Owner)
    requires Ordered(start, ops) && NeverAcquires(ops, owner)
    requires Holder(store, cell, start) != Some(owner)
    ensures Holder(store, After(store, cell, ops), if ops == [] then start else ops[|ops| - 1].now) != Some(owner)
  {
    if ops != [] {
      var front := ops[..|ops| - 1];
      LostStays(store, cell, start, front, owner);
      var before := After(store, cell, front);
      var at := if front == [] then start else front[|front| - 1].now;
      ExpiryIsFinal(store, before, at, ops[|ops| - 1].now);
    }
  }

  /** What an owner without the lease is told. */
  function FencedReply(op: Op): Outcome {
    match op
    case Commit(_, _, id) => if id == [] then Refused else LeaseLost
    case Release(_) => Done
    case _ => LeaseLost
  }

  /** Once an owner does not hold the lease, none of its operations that need the
      lease succeeds again, and none of them changes the cell, whatever the others
      do and however late they arrive; only a new Acquire could change that. */
  lemma FencedOwner(store: Store, cell: Cell, start: int, ops: seq<Timed>, owner: Owner, i: nat)
    requires Ordered(start, ops) && NeverAcquires(ops, owner) && i < |ops|
    requires Holder(store, cell, start) != Some(owner) && ops[i].op.owner == owner
    ensures OutcomeAt(store, cell, ops, i) == FencedReply(ops[i].op)
    ensures After(store, cell, ops[..i + 1]) == After(store, cell, ops[..i])
  {
    var front := ops[..i];
    LostStays(store, cell, start, front, owner);
    var before := After(store, cell, front);
    var at := if front == [] then start else front[|front| - 1].now;
    ExpiryIsFinal(store, before, at, ops[i].now);
    assert ops[..i + 1][..i] == front;
  }

  /** The replay ID changes only by a commit or a clear of the current holder. */
  lemma ReplayFenced(store: Store, cell: Cell, op: Op, now: int)
    ensures var (cell', outcome) := Perform(store, cell, op, now);
            cell'.replay != cell.replay ==>
              && Holder(store, cell, now) == Some(op.owner) && outcome == Done
              && (op.Commit? || op.Clear?)
              && cell'.replay == if op.Commit? then Some(op.replayId) else None
    ensures var (cell', outcome) := Perform(store, cell, op, now);
            op.Commit? && outcome == Done <==>
              op.Commit? && op.replayId != [] && Holder(store, cell, now) == Some(op.owner)
  {
  }

  /** Two owners are never both let in: whoever acquires found the lease free, or
      already its own. */
  lemma AcquireExcludes(store: Store, cell: Cell, op: Op, now: int)
    requires op.Acquire? && Perform(store, cell, op, now).1 == Done
    ensures Holder(store, cell, now) == None || (store.Memory? && Holder(store, cell, now) == Some(op.owner))
    ensures op.ttl > 0 ==> Holder(store, Perform(store, cell, op, now).0, now) == Some(op.owner)
  {
  }

  lemma {:induction false} AfterAll(store: Store, cell: Cell, ops: seq<Timed>, j: nat, i: nat)
    requires j <= i <= |ops|
    ensures After(store, After(store, cell, ops[..j]), ops[j..i]) == After(store, cell, ops[..i])
    decreases i
  {
    if j < i {
      AfterAll(store, cell, ops, j, i - 1);
      assert ops[j..i][..i - j - 1] == ops[j..i - 1] && ops[..i][..i - 1] == ops[..i - 1];
    }
  }

  lemma AfterRest(store: Store, cell: Cell, ops: seq<Timed>, j: nat, i: nat)
    requires j <= i <= |ops|
    ensures After(store, After(store, cell, ops[..j]), ops[j..][..i - j]) == After(store, cell, ops[..i])
  {
    assert ops[j..][..i - j] == ops[j..i];
    AfterAll(store, cell, ops, j, i);
  }

  /** Once another owner has been let in, the one before is fenced: nothing it still
      has under way succeeds or changes the cell. */
  lemma TakeoverFences(store: Store, cell: Cell, start: int, ops: seq<Timed>, j: nat, owner: Owner, i: nat)
    requires Ordered(start, ops) && j < i < |ops|
    requires ops[j].op.Acquire? && ops[j].op.ttl > 0 && ops[j].op.owner != owner
    requires OutcomeAt(store, cell, ops, j) == Done
    requires NeverAcquires(ops[j + 1..], owner) && ops[i].op.owner == owner
    ensures OutcomeAt(store, cell, ops, i) == FencedReply(ops[i].op)
    ensures After(store, cell, ops[..i + 1]) == After(store, cell, ops[..i])
  {
    var rest := ops[j + 1..];
    TakenOver(store, cell, ops, j);
    AfterRest(store, cell, ops, j + 1, i);
    AfterRest(store, cell, ops, j + 1, i + 1);
    LaterOrdered(start, ops, j);
    FencedOwner(store, After(store, cell, ops[..j + 1]), ops[j].now, rest, owner, i - j - 1);
  }

  lemma TakenOver(store: Store, cell: Cell, ops: seq<Timed>, j: nat)
    requires j < |ops| && ops[j].op.Acquire? && ops[j].op.ttl > 0 && OutcomeAt(store, cell, ops, j) == Done
    ensures Holder(store, After(store, cell, ops[..j + 1]), ops[j].now) == Some(ops[j].op.owner)
  {
    assert ops[..j + 1][..j] == ops[..j];
    AcquireExcludes(store, After(store, cell, ops[..j]), ops[j].op, ops[j].now);
  }

  lemma LaterOrdered(start: int, ops: seq<Timed>, j: nat)
    requires Ordered(start, ops) && j < |ops|
    ensures Ordered(ops[j].now, ops[j + 1..])
  {
    var rest := ops[j + 1..];
    forall i | 0 <= i < |rest| ensures ops[j].now <= rest[i].now && (i > 0 ==> rest[i - 1].now <= rest[i].now) {
      NowAscends(start, ops, j, j + 1 + i);
    }
  }

  lemma {:induction false} NowAscends(start: int, ops: seq<Timed>, j: nat, i: nat)
    requires Ordered(start, ops) && j <= i < |ops|
    ensures ops[j].now <= ops[i].now
    decreases i
  {
    if j < i { NowAscends(start, ops, j, i - 1); }
  }

  // ---------------------------------------------------------------- the Redis store

  datatype Entry = Entry(value: string, expires: Option<int>)

  /** A Redis server: expired entries are absent. */
  class Keyspace {
    var entries: map<string, Entry>
    var replays: map<string, ReplayId>
    var now: int

    ghost predicate LeasesExpire(leaseKey: string)
      reads this
    {
      leaseKey in entries ==> entries[leaseKey].expires.Some?
    }

    ghost function CellAt(leaseKey: string, replayKey: string): Cell
      requires LeasesExpire(leaseKey)
      reads this
    {
      Cell(if leaseKey in entries then Some(Grant(entries[leaseKey].value, entries[leaseKey].expires.value)) else None,
           if replayKey in replays then Some(replays[replayKey]) else None)
    }

    predicate Present(key: string)
      reads this
    {
      key in entries && (entries[key].expires.Some? ==> now < entries[key].expires.value)
    }

    /** GET key == value, as the scripts test it. */
    predicate Matches(key: string, value: string)
      reads this
    {
      Present(key) && entries[key].value == value
    }
  }

  class RedisLease {
    const server: Keyspace
    const owner: Owner
    const leaseKey: string
    const replayKey: string
    const ttl: nat

    ghost predicate Valid()
      reads this, server
    {
      server.LeasesExpire(leaseKey)
    }

    ghost function State(): Cell
      requires Valid()
      reads this, server
    {
      server.CellAt(leaseKey, replayKey)
    }

    /** Only this lease's two keys are touched. */
    twostate predicate Elsewhere()
      reads this, server
    {
      && (forall k :: k != leaseKey ==> (k in server.entries) == (k in old(server.entries)))
      && (forall k :: k != leaseKey && k in server.entries ==> server.entries[k] == old(server.entries)[k])
      && (forall k :: k != replayKey ==> (k in server.replays) == (k in old(server.replays)))
      && (forall k :: k != replayKey && k in server.replays ==> server.replays[k] == old(server.replays)[k])
    }

    constructor (server: Keyspace, owner: Owner, leaseKey: string, replayKey: string, ttl: nat)
      ensures this.server == server && this.owner == owner && this.ttl == ttl
      ensures this.leaseKey == leaseKey && this.replayKey == replayKey
    {
      this.server, this.owner, this.leaseKey, this.replayKey, this.ttl := server, owner, leaseKey, replayKey, ttl;
    }

    /** One attempt of Acquire: SET NX PX. */
    method TryAcquire() returns (outcome: Outcome)
      requires Valid()
      modifies server`entries
      ensures Valid() && Elsewhere()
      ensures (State(), outcome) == Perform(Redis, old(State()), Acquire(owner, ttl), server.now)
    {
      if ttl < 1000 {
        return Refused;
      }
      if server.Present(leaseKey) {
        return Held;
      }
      server.entries := server.entries[leaseKey := Entry(owner, Some(server.now + ttl))];
      return Done;
    }

    method Commit(replayId: ReplayId) returns (outcome: Outcome)
      requires Valid()
      modifies server`entries, server`replays
      ensures Valid() && Elsewhere()
      ensures (State(), outcome) == Perform(Redis, old(State()), Op.Commit(owner, ttl, replayId), server.now)
    {
      if |replayId| == 0 {
        return Refused;
      }
      if server.Matches(leaseKey, owner) {
        server.replays := server.replays[replayKey := replayId];
        server.entries := server.entries[leaseKey := Entry(owner, Some(server.now + ttl))];
        return Done;
      }
      return LeaseLost;
    }

    method Renew() returns (outcome: Outcome)
      requires Valid()
      modifies server`entries
      ensures Valid() && Elsewhere()
      ensures (State(), outcome) == Perform(Redis, old(State()), Op.Renew(owner, ttl), server.now)
    {
      if server.Matches(leaseKey, owner) {
        server.entries := server.entries[leaseKey := Entry(owner, Some(server.now + ttl))];
        return Done;
      }
      return LeaseLost;
    }

    method Release() returns (outcome: Outcome)
      requires Valid()
      modifies server`entries
      ensures Valid() && Elsewhere()
      ensures (State(), outcome) == Perform(Redis, old(State()), Op.Release(owner), server.now)
    {
      if server.Matches(leaseKey, owner) {
        server.entries := server.entries - {leaseKey};
      }
      return Done;
    }

    method Clear() returns (outcome: Outcome)
      requires Valid()
      modifies server`replays
      ensures Valid() && Elsewhere()
      ensures (State(), outcome) == Perform(Redis, old(State()), Op.Clear(owner), server.now)
    {
      if server.Matches(leaseKey, owner) {
        server.replays := server.replays - {replayKey};
        return Done;
      }
      return LeaseLost;
    }

    /** Reads the replay ID without looking at the lease. */
    method Load() returns (replayId: Option<ReplayId>)
      requires Valid()
      ensures replayId == State().replay
    {
      if replayKey in server.replays {
        return Some(server.replays[replayKey]);
      }
      return None;
    }
  }

  // --------------------------------------------------------------- the memory store

  class Backend {
    var leases: map<string, Grant>
    var checkpoints: map<string, ReplayId>
    var now: int

    ghost function CellAt(key: string): Cell
      reads this
    {
      Cell(if key in leases then Some(leases[key]) else None,
           if key in checkpoints then Some(checkpoints[key]) else None)
    }
  }

  /** Injected faults of one commit: before it applies, a cancelled context, and
      after it has applied. */
  datatype Faults = Faults(before: bool, cancelled: bool, after: bool)

  datatype CommitError = Applied | Lost | Rejected | Injected(applied: bool)

  class MemoryLease {
    const backend: Backend
    const owner: Owner
    const key: string
    const ttl: nat

    ghost function State(): Cell
      reads this, backend
    {
      backend.CellAt(key)
    }

    twostate predicate Elsewhere()
      reads this, backend
    {
      && (forall k :: k != key ==> (k in backend.leases) == (k in old(backend.leases)))
      && (forall k :: k != key && k in backend.leases ==> backend.leases[k] == old(backend.leases)[k])
      && (forall k :: k != key ==> (k in backend.checkpoints) == (k in old(backend.checkpoints)))
      && (forall k :: k != key && k in backend.checkpoints ==> backend.checkpoints[k] == old(backend.checkpoints)[k])
    }

    constructor (backend: Backend, owner: Owner, key: string, ttl: nat)
      ensures this.backend == backend && this.owner == owner && this.key == key && this.ttl == ttl
    {
      this.backend, this.owner, this.key, this.ttl := backend, owner, key, ttl;
    }

    predicate Holds()
      reads this, backend
    {
      key in backend.leases && backend.leases[key].owner == owner && !(backend.now > backend.leases[key].expires)
    }

    method TryAcquire() returns (outcome: Outcome)
      modifies backend`leases
      ensures Elsewhere()
      ensures (State(), outcome) == Perform(Memory, old(State()), Acquire(owner, ttl), backend.now)
    {
      if key !in backend.leases || backend.now > backend.leases[key].expires || backend.leases[key].owner == owner {
        backend.leases := backend.leases[key := Grant(owner, backend.now + ttl)];
        return Done;
      }
      return Held;
    }

    /** A commit with fault hooks: a fault before it applies leaves everything as it
        was, a fault after it only hides the success. */
    method Commit(replayId: ReplayId, faults: Faults) returns (result: CommitError)
      modifies backend`leases, backend`checkpoints
      ensures Elsewhere()
      ensures var (cell, outcome) := Perform(Memory, old(State()), Op.Commit(owner, ttl, replayId), backend.now);
              if replayId != [] && (faults.before || faults.cancelled)
              then result == Injected(false) && State() == old(State())
              else State() == cell && result == match outcome
                   case Done => if faults.after then Injected(true) else Applied
                   case Refused => Rejected
                   case _ => Lost
    {
      if |replayId| == 0 {
        return Rejected;
      }
      if faults.before {
        return Injected(false);
      }
      if faults.cancelled {
        return Injected(false);
      }
      if !Holds() {
        return Lost;
      }
      backend.checkpoints := backend.checkpoints[key := replayId];
      backend.leases := backend.leases[key := Grant(owner, backend.now + ttl)];
      if faults.after {
        return Injected(true);
      }
      return Applied;
    }

    method Renew() returns (outcome: Outcome)
      modifies backend`leases
      ensures Elsewhere()
      ensures (State(), outcome) == Perform(Memory, old(State()), Op.Renew(owner, ttl), backend.now)
    {
      if !Holds() {
        return LeaseLost;
      }
      backend.leases := backend.leases[key := Grant(owner, backend.now + ttl)];
      return Done;
    }

    method Release() returns (outcome: Outcome)
      modifies backend`leases
      ensures Elsewhere()
      ensures (State(), outcome) == Perform(Memory, old(State()), Op.Release(owner), backend.now)
    {
      if Holds() {
        backend.leases := backend.leases - {key};
      }
      return Done;
    }

    method Clear() returns (outcome: Outcome)
      modifies backend`checkpoints
      ensures Elsewhere()
      ensures (State(), outcome) == Perform(Memory, old(State()), Op.Clear(owner), backend.now)
    {
      if !Holds() {
        return LeaseLost;
      }
      backend.checkpoints := backend.checkpoints - {key};
      return Done;
    }
  }
}
