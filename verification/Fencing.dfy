/**
 The two checkpoint stores carry the protocol: collectors that work against a real
 store, with instants and replay IDs as bytes, do nothing the protocol does not
 allow. So the protocol's guarantees hold of what the store really keeps.
 */
module Fencing {
  import opened Common
  import L = Lease
  import opened Protocol
  import opened ProtocolInvariant
  import opened ProtocolCommits
  import opened ProtocolTheorems

  /** A stored replay ID as bytes. */
  function Encoded(n: Option<nat>): Option<L.ReplayId> {
    if n.Some? then Some(Topic.BigEndian(n.value, 8)) else None
  }

  /** At this instant a store's cell shows what the protocol says it holds. */
  ghost predicate Shows(store: L.Store, cell: L.Cell, now: int, st: State, name: Id -> L.Owner) {
    && L.Holder(store, cell, now) == (if st.lease.Some? then Some(name(st.lease.value)) else None)
    && cell.replay == Encoded(st.checkpoint)
  }

  ghost predicate OwnTokens(name: Id -> L.Owner) {
    forall a, b :: name(a) == name(b) ==> a == b
  }

  /** Acquiring succeeds exactly when the protocol lets the collector acquire. That
      the memory store would let a holder in again makes no difference: a collector
      that waits never holds the lease. */
  lemma AcquireIsAStep(store: L.Store, cell: L.Cell, now: int, ttl: nat, st: State, c: Id, name: Id -> L.Owner)
    requires Inv(st) && Sane(st) && c in st.collectors && st.collectors[c].phase.Waiting?
    requires OwnTokens(name) && Shows(store, cell, now, st, name) && ttl >= 1000
    ensures var (cell', outcome) := L.Perform(store, cell, L.Acquire(name(c), ttl), now);
            if Ready(st, st.collectors[c], Acquire)
            then outcome.Done? && Shows(store, cell', now, AfterMove(st, c, Acquire), name)
            else outcome.Held? && cell' == cell
  {
    assert CollectorOk(st, c, st.collectors[c]);
  }

  /** A commit that reaches the store is the protocol's commit: it succeeds exactly
      for the holder and otherwise changes nothing. */
  lemma CommitIsAStep(store: L.Store, cell: L.Cell, now: int, ttl: nat, st: State, c: Id, name: Id -> L.Owner,
                      reported: bool)
    requires Sane(st) && c in st.collectors && st.collectors[c].act.Committing?
    requires OwnTokens(name) && Shows(store, cell, now, st, name) && ttl > 0
    ensures var upTo := Topic.BigEndian(st.collectors[c].act.upTo, 8);
            var (cell', outcome) := L.Perform(store, cell, L.Commit(name(c), ttl, upTo), now);
            && (outcome.Done? <==> st.lease == Some(c))
            && (outcome.LeaseLost? <==> st.lease != Some(c))
            && Shows(store, cell', now, AfterTryCommit(st, c, true, reported), name)
  {
    assert |Topic.BigEndian(st.collectors[c].act.upTo, 8)| == 8;
  }

  /** So is a commit that arrives late. */
  lemma ArrivalIsAStep(store: L.Store, cell: L.Cell, now: int, ttl: nat, st: State, commit: Late, name: Id -> L.Owner)
    requires OwnTokens(name) && Shows(store, cell, now, st, name) && ttl > 0
    ensures var upTo := Topic.BigEndian(commit.upTo, 8);
            var (cell', outcome) := L.Perform(store, cell, L.Commit(name(commit.c), ttl, upTo), now);
            && (outcome.Done? <==> st.lease == Some(commit.c))
            && Shows(store, cell', now, AfterArrive(st, commit), name)
  {
    assert |Topic.BigEndian(commit.upTo, 8)| == 8;
  }

  lemma ReleaseIsAStep(store: L.Store, cell: L.Cell, now: int, st: State, c: Id, name: Id -> L.Owner)
    requires Sane(st) && c in st.collectors && st.collectors[c].phase.Stopped?
    requires OwnTokens(name) && Shows(store, cell, now, st, name)
    ensures Shows(store, L.Perform(store, cell, L.Release(name(c)), now).0, now, AfterMove(st, c, Release), name)
  {
  }

  /** Renewing is no step at all, whoever tries it. */
  lemma RenewIsNoStep(store: L.Store, cell: L.Cell, now: int, ttl: nat, st: State, c: Id, name: Id -> L.Owner)
    requires OwnTokens(name) && Shows(store, cell, now, st, name) && ttl > 0
    ensures Shows(store, L.Perform(store, cell, L.Renew(name(c), ttl), now).0, now, st, name)
    ensures L.Perform(store, cell, L.Renew(name(c), ttl), now).1.Done? <==> st.lease == Some(c)
  {
  }

  /** Time alone is at most the protocol's expiry. */
  lemma TimeIsExpiry(store: L.Store, cell: L.Cell, now: int, later: int, st: State, name: Id -> L.Owner)
    requires Sane(st) && Shows(store, cell, now, st, name) && now <= later
    ensures Shows(store, cell, later, st, name) || Shows(store, cell, later, Apply(st, Env(Expire)), name)
  {
    L.ExpiryIsFinal(store, cell, now, later);
  }

  // ------------------------------------------------------ collectors on a real store

  /** A store's cell, the clock, and everything else there is: the protocol's state
      without its lease and checkpoint. */
  datatype System = System(cell: L.Cell, now: int, rest: State)

  /** What can happen: time passes, a collector calls the store, or anything that
      does not involve the store. */
  datatype Event =
    | Tick(later: int)
    | Acquires(c: Id, ttl: nat)
    | Loads(c: Id)
    | Commits(c: Id, ttl: nat, reported: bool)
    | Arrives(commit: Late, ttl: nat)
    | Releases(c: Id)
    | Renews(c: Id, ttl: nat)
    | Elsewhere(step: Step)

  predicate Blind(step: Step) {
    match step
    case Env(event) => !event.Expire? && !event.Arrive?
    case By(_, move) => !move.Acquire? && !move.Load? && !move.Release? && (move.TryCommit? ==> !move.reached)
  }

  predicate Allowed(sys: System, e: Event) {
    match e
    case Tick(later) => sys.now <= later
    case Acquires(c, ttl) => c in sys.rest.collectors && sys.rest.collectors[c].phase.Waiting? && ttl >= 1000
    case Loads(c) => c in sys.rest.collectors && sys.rest.collectors[c].phase.Leased?
                     && |sys.rest.log| < Topic.SEQ_LIMIT
    case Commits(c, ttl, _) => c in sys.rest.collectors && sys.rest.collectors[c].act.Committing? && ttl > 0
    case Arrives(commit, ttl) => commit in sys.rest.late && ttl > 0
    case Releases(c) => c in sys.rest.collectors && sys.rest.collectors[c].phase.Stopped?
    case Renews(c, ttl) => ttl > 0
    case Elsewhere(step) => Blind(step) && Sane(sys.rest) && Enabled(sys.rest, step)
  }

  function AfterOutcome(rest: State, c: Id, outcome: L.Outcome, reported: bool): State
    requires c in rest.collectors && rest.collectors[c].act.Committing?
  {
    var k := rest.collectors[c];
    var kept := if outcome.Done? then Bare(Accepted(rest, Sent(c, k))) else rest;
    if !reported then kept.(late := kept.late + {Sent(c, k)})
    else if outcome.Done? then With(kept, c, AfterCommit(k))
    else With(kept, c, Halted(k))
  }

  function Happen(store: L.Store, sys: System, e: Event, name: Id -> L.Owner): System
    requires Allowed(sys, e)
  {
    match e
    case Tick(later) => sys.(now := later)
    case Acquires(c, ttl) =>
      var (cell, outcome) := L.Perform(store, sys.cell, L.Acquire(name(c), ttl), sys.now);
      if outcome.Done? then System(cell, sys.now, With(sys.rest, c, sys.rest.collectors[c].(phase := Leased)))
      else sys.(cell := cell)
    case Loads(c) =>
      var found := if sys.cell.replay.Some? then Topic.ReplaySeq(sys.cell.replay.value) else None;
      sys.(rest := With(sys.rest, c, AfterLoad(sys.rest.(checkpoint := found), sys.rest.collectors[c])))
    case Commits(c, ttl, reported) =>
      var upTo := Topic.BigEndian(sys.rest.collectors[c].act.upTo, 8);
      var (cell, outcome) := L.Perform(store, sys.cell, L.Commit(name(c), ttl, upTo), sys.now);
      System(cell, sys.now, AfterOutcome(sys.rest, c, outcome, reported))
    case Arrives(commit, ttl) =>
      var upTo := Topic.BigEndian(commit.upTo, 8);
      var (cell, outcome) := L.Perform(store, sys.cell, L.Commit(name(commit.c), ttl, upTo), sys.now);
      System(cell, sys.now, if outcome.Done? then Bare(Accepted(sys.rest, commit)) else sys.rest)
    case Releases(c) => sys.(cell := L.Perform(store, sys.cell, L.Release(name(c)), sys.now).0)
    case Renews(c, ttl) => sys.(cell := L.Perform(store, sys.cell, L.Renew(name(c), ttl), sys.now).0)
    case Elsewhere(step) => sys.(rest := Apply(sys.rest, step))
  }

  function Bare(st: State): State { st.(lease := None, checkpoint := None) }

  ghost predicate Mirrors(store: L.Store, sys: System, st: State, name: Id -> L.Owner) {
    Shows(store, sys.cell, sys.now, st, name) && sys.rest == Bare(st)
  }

  /** Moves other than those neither look at lease and checkpoint nor change them. */
  lemma BlindMove(st: State, c: Id, move: Move)
    requires Sane(st) && c in st.collectors && Ready(st, st.collectors[c], move) && Blind(By(c, move))
    ensures Ready(Bare(st), st.collectors[c], move)
    ensures Bare(AfterMove(st, c, move)) == AfterMove(Bare(st), c, move)
    ensures AfterMove(st, c, move).lease == st.lease && AfterMove(st, c, move).checkpoint == st.checkpoint
  {
    if Own(move) {
      assert AfterOwn(st, st.collectors[c], move) == AfterOwn(Bare(st), st.collectors[c], move);
    }
  }

  lemma BlindStep(st: State, step: Step)
    requires Sane(st) && Blind(step) && Enabled(Bare(st), step)
    ensures Enabled(st, step) && Bare(Apply(st, step)) == Apply(Bare(st), step)
    ensures Apply(st, step).lease == st.lease && Apply(st, step).checkpoint == st.checkpoint
  {
    if step.By? && !step.move.Start? {
      BlindMove(st, step.c, step.move);
    }
  }

  lemma LoadIsAStep(store: L.Store, sys: System, st: State, c: Id, name: Id -> L.Owner)
    requires Inv(st) && Sane(st) && Mirrors(store, sys, st, name) && Allowed(sys, Loads(c))
    ensures Mirrors(store, Happen(store, sys, Loads(c), name), AfterMove(st, c, Load), name)
  {
    if st.checkpoint.Some? {
      Topic.ReplayRoundTrip(st.checkpoint.value);
    }
  }

  lemma CommitSimulated(store: L.Store, sys: System, c: Id, ttl: nat, reported: bool, st: State, name: Id -> L.Owner)
    requires Sane(st) && OwnTokens(name) && Mirrors(store, sys, st, name) && Allowed(sys, Commits(c, ttl, reported))
    ensures Enabled(st, By(c, TryCommit(true, reported)))
    ensures Mirrors(store, Happen(store, sys, Commits(c, ttl, reported), name),
                    AfterMove(st, c, TryCommit(true, reported)), name)
  {
    CommitIsAStep(store, sys.cell, sys.now, ttl, st, c, name, reported);
  }

  lemma AcquireSimulated(store: L.Store, sys: System, c: Id, ttl: nat, st: State, name: Id -> L.Owner)
    requires Inv(st) && Sane(st) && OwnTokens(name) && Mirrors(store, sys, st, name) && Allowed(sys, Acquires(c, ttl))
    ensures Mirrors(store, Happen(store, sys, Acquires(c, ttl), name),
                    if st.lease.None? then AfterMove(st, c, Acquire) else st, name)
  {
    AcquireIsAStep(store, sys.cell, sys.now, ttl, st, c, name);
  }

  /** One event on the real store is one protocol step, or none. */
  lemma EventSimulated(store: L.Store, sys: System, e: Event, st: State, name: Id -> L.Owner)
      returns (steps: seq<Step>)
    requires Inv(st) && Sane(st) && OwnTokens(name) && Mirrors(store, sys, st, name) && Allowed(sys, e)
    ensures |steps| <= 1 && (|steps| == 1 ==> Enabled(st, steps[0]))
    ensures Mirrors(store, Happen(store, sys, e, name), if steps == [] then st else Apply(st, steps[0]), name)
  {
    match e {
      case Tick(later) =>
        TimeIsExpiry(store, sys.cell, sys.now, later, st, name);
        steps := if Shows(store, sys.cell, later, st, name) then [] else [Env(Expire)];
      case Acquires(c, ttl) =>
        AcquireSimulated(store, sys, c, ttl, st, name);
        steps := if st.lease.None? then [By(c, Acquire)] else [];
      case Loads(c) =>
        LoadIsAStep(store, sys, st, c, name);
        steps := [By(c, Load)];
      case Commits(c, ttl, reported) =>
        CommitSimulated(store, sys, c, ttl, reported, st, name);
        steps := [By(c, TryCommit(true, reported))];
      case Arrives(commit, ttl) =>
        ArrivalIsAStep(store, sys.cell, sys.now, ttl, st, commit, name);
        steps := [Env(Arrive(commit))];
      case Releases(c) =>
        ReleaseIsAStep(store, sys.cell, sys.now, st, c, name);
        steps := [By(c, Release)];
      case Renews(c, ttl) =>
        RenewIsNoStep(store, sys.cell, sys.now, ttl, st, c, name);
        steps := [];
      case Elsewhere(step) =>
        BlindStep(st, step);
        steps := [step];
    }
  }

  ghost predicate Unfolds(store: L.Store, sys: System, events: seq<Event>, name: Id -> L.Owner)
    decreases |events|
  {
    events == [] || (Allowed(sys, events[0]) && Unfolds(store, Happen(store, sys, events[0], name), events[1..], name))
  }

  ghost function Outcome(store: L.Store, sys: System, events: seq<Event>, name: Id -> L.Owner): System
    requires Unfolds(store, sys, events, name)
    decreases |events|
  {
    if events == [] then sys else Outcome(store, Happen(store, sys, events[0], name), events[1..], name)
  }

  /** Every history on a real store is a run of the protocol. */
  lemma {:induction false} HistorySimulated(store: L.Store, sys: System, events: seq<Event>, st: State,
                                            name: Id -> L.Owner)
      returns (steps: seq<Step>)
    requires Inv(st) && OwnTokens(name) && Mirrors(store, sys, st, name) && Unfolds(store, sys, events, name)
    ensures Possible(st, steps) && Mirrors(store, Outcome(store, sys, events, name), Run(st, steps), name)
    decreases |events|
  {
    steps := [];
    if events != [] {
      InvIsSane(st);
      var first := EventSimulated(store, sys, events[0], st, name);
      var next := Happen(store, sys, events[0], name);
      if first == [] {
        steps := HistorySimulated(store, next, events[1..], st, name);
      } else {
        StepInv(st, first[0]);
        var rest := HistorySimulated(store, next, events[1..], Apply(st, first[0]), name);
        steps := [first[0]] + rest;
        assert steps[1..] == rest;
      }
    }
  }

  /** Over every history of any number of collectors on either store, the replay ID
      the store really holds covers only archived events, from the base on, apart
      from what the server jumped over. */
  lemma StoredReplayIdIsCovered(store: L.Store, cfg: Config, start: int, events: seq<Event>, name: Id -> L.Owner)
    requires ConfigOk(cfg) && OwnTokens(name)
    requires Unfolds(store, System(L.EMPTY, start, Initial(cfg)), events, name)
    ensures var sys := Outcome(store, System(L.EMPTY, start, Initial(cfg)), events, name);
            sys.cell.replay.Some? ==>
              exists upTo: nat ::
                && sys.cell.replay == Some(Topic.BigEndian(upTo, 8))
                && sys.rest.base.Some? && upTo <= |sys.rest.log|
                && forall n :: sys.rest.base.value < n <= upTo ==> Safe(sys.rest, n)
  {
    InitialInv(cfg);
    var sys := Outcome(store, System(L.EMPTY, start, Initial(cfg)), events, name);
    var steps := HistorySimulated(store, System(L.EMPTY, start, Initial(cfg)), events, Initial(cfg), name);
    RunInv(Initial(cfg), steps);
    var st := Run(Initial(cfg), steps);
    if sys.cell.replay.Some? {
      var upTo := st.checkpoint.value;
      forall n: nat | st.base.value < n <= upTo ensures Safe(sys.rest, n) {
        assert Safe(st, n);
        assert EventAt(st, n) == EventAt(sys.rest, n);
      }
    }
  }
}
