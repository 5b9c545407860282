/**
 What a jump costs: once the server has jumped over an event for the holder of the
 lease, nothing but the holder and its server need go on for the checkpoint to pass
 an event that is not in the archive.
 */
module ProtocolLoss {
  import opened Common
  import opened Grouping
  import opened Topic
  import opened Protocol
  import opened ProtocolInvariant
  import opened ProtocolMoves
  import opened ProtocolCommits
  import opened ProtocolTheorems

  /** The server is past event n and it is nowhere on its way to the archive. */
  ghost predicate Astray(st: State, k: Collector, n: nat) {
    && Live(k.phase) && k.link.start < n <= k.link.cursor
    && (st.base.Some? ==> st.base.value < n)
    && EventAt(st, n) !in st.archived
    && n !in Ats(k.buffer) && n !in Inbox(k) && !InWire(k.link.wire, n)
  }

  ghost predicate Losing(st: State, c: Id, n: nat) {
    Inv(st) && Sane(st) && c in st.collectors && st.lease == Some(c) && Astray(st, st.collectors[c], n)
  }

  /** The checkpoint covers event n, which is not in the archive. */
  ghost predicate Lost(st: State, n: nat) {
    && st.checkpoint.Some? && n <= st.checkpoint.value
    && st.base.Some? && st.base.value < n
    && EventAt(st, n) !in st.archived
  }

  // ------------------------------------------------------------- the holder goes on

  /** The holder has nothing left to do and waits. */
  predicate Idle(k: Collector) {
    k.phase.Select? && k.act.NoAct? && k.link.wire == [] && k.buffer == [] && k.link.asked == []
  }

  /** What happens next when everything works. */
  function Onward(k: Collector): Move {
    match k.act
    case Writing(_) => WriteGroup(true, true)
    case Committing(_, _) => TryCommit(true, true)
    case NoAct =>
      match k.phase
      case Handling(inbox, _) => if inbox != [] then Decode else Advance
      case Select =>
        if k.link.wire != [] then Receive
        else if k.buffer != [] then StartFlush
        else ServerTake
      case _ => Advance
  }

  /** How far the holder still is from waiting with nothing to do. */
  function Stage(k: Collector): nat {
    match k.phase
    case Handling(_, _) => 4
    case Pinning(_) => 3
    case Keeping(_) => 2
    case ToppingUp => 1
    case _ => 0
  }

  function ToFlush(k: Collector): nat {
    match k.act
    case Writing(todo) => |todo| + 2
    case Committing(_, _) => 1
    case NoAct => if k.buffer == [] then 0 else |Kinds(k.buffer)| + 3
  }

  ghost predicate Nearer(k': Collector, k: Collector) {
    || |k'.link.wire| < |k.link.wire|
    || (|k'.link.wire| == |k.link.wire| &&
        (|| Stage(k') < Stage(k)
         || (Stage(k') == Stage(k) &&
             (|| |Inbox(k')| < |Inbox(k)|
              || (|Inbox(k')| == |Inbox(k)| &&
                  (|| ToFlush(k') < ToFlush(k)
                   || (ToFlush(k') == ToFlush(k) && |k'.link.asked| < |k.link.asked|)))))))
  }

  /** A later event is on its way. */
  ghost predicate Later(k: Collector, n: nat) {
    exists m :: m > n && (m in Ats(k.buffer) || m in Inbox(k) || InWire(k.link.wire, m))
  }

  lemma OnwardReady(st: State, c: Id, n: nat)
    requires Losing(st, c, n) && !Idle(st.collectors[c])
    ensures Ready(st, st.collectors[c], Onward(st.collectors[c]))
  {
    var k := st.collectors[c];
    assert CollectorOk(st, c, k);
  }

  /** One step onward: event n stays astray, and what is on its way stays so. */
  ghost predicate Closer(st: State, k: Collector, k': Collector, n: nat) {
    Astray(st, k', n) && Nearer(k', k) && (Later(k, n) ==> Later(k', n))
  }

  lemma SameTogether(k: Collector, k': Collector)
    requires Ats(k'.buffer) + Inbox(k') == Ats(k.buffer) + Inbox(k)
    ensures forall m :: m in Ats(k'.buffer) || m in Inbox(k') <==> m in Ats(k.buffer) || m in Inbox(k)
  {
    forall m ensures m in Ats(k'.buffer) || m in Inbox(k') <==> m in Ats(k.buffer) || m in Inbox(k) {
      assert m in Ats(k'.buffer) + Inbox(k') <==> m in Ats(k.buffer) + Inbox(k);
    }
  }

  lemma DecodeOnward(st: State, k: Collector, n: nat)
    requires Astray(st, k, n) && CanDecode(k)
    ensures Closer(st, k, AfterDecode(st, k), n)
  {
    DecodedSequence(st, k);
    SameTogether(k, AfterDecode(st, k));
  }

  lemma ReceiveOnward(st: State, k: Collector, n: nat)
    requires Astray(st, k, n) && k.phase.Select? && k.act.NoAct? && k.link.wire != []
    ensures Closer(st, k, AfterReceive(k), n)
  {
    forall m ensures InWire(k.link.wire, m) <==> m in k.link.wire[0].events || InWire(k.link.wire[1..], m) {
      InWireHead(k.link.wire, m);
    }
  }

  lemma AdvanceOnward(st: State, k: Collector, n: nat)
    requires Astray(st, k, n) && CanAdvance(k)
    ensures Closer(st, k, AfterAdvance(st, k), n)
  {
    SameTogether(k, AfterAdvance(st, k));
  }

  lemma FlushOnward(st: State, k: Collector, n: nat)
    requires Astray(st, k, n) && k.phase.Select? && k.act.NoAct? && k.buffer != []
    ensures Closer(st, k, OfferFlush(k), n)
  {
  }

  lemma TakeOnward(st: State, k: Collector, n: nat)
    requires Astray(st, k, n) && k.act.NoAct? && k.link.asked != []
    ensures Closer(st, k, AfterTake(k), n)
  {
  }

  lemma OwnOnward(st: State, c: Id, n: nat)
    requires Losing(st, c, n) && !Idle(st.collectors[c]) && st.collectors[c].act.NoAct?
    requires Ready(st, st.collectors[c], Onward(st.collectors[c]))
    ensures var k := st.collectors[c];
            Own(Onward(k)) && Closer(st, k, AfterOwn(st, k, Onward(k)), n)
  {
    var k := st.collectors[c];
    match Onward(k) {
      case Decode => DecodeOnward(st, k, n);
      case Receive => ReceiveOnward(st, k, n);
      case Advance => AdvanceOnward(st, k, n);
      case StartFlush => FlushOnward(st, k, n);
      case ServerTake => TakeOnward(st, k, n);
    }
  }

  /** A group of the buffer does not hold event n. */
  lemma WriteOnward(st: State, c: Id, n: nat)
    requires Losing(st, c, n) && CanWrite(st.collectors[c])
    ensures var st' := AfterWrite(st, c, true, true);
            Astray(st', st'.collectors[c], n) && Nearer(st'.collectors[c], st.collectors[c])
            && (Later(st.collectors[c], n) ==> Later(st'.collectors[c], n))
  {
    var k := st.collectors[c];
    var st' := AfterWrite(st, c, true, true);
    forall r | r in OfKind(k.buffer, k.act.todo[0]) ensures r != EventAt(st, n) {
      OfKindMember(k.buffer, k.act.todo[0], r);
      var i :| 0 <= i < |k.buffer| && k.buffer[i] == r;
      assert Ats(k.buffer)[i] == r.at;
    }
    assert EventAt(st', n) == EventAt(st, n);
    SameTogether(k, st'.collectors[c]);
  }

  /** A commit either covers event n, or changes nothing about it. */
  lemma CommitOnward(st: State, c: Id, n: nat)
    requires Losing(st, c, n) && st.collectors[c].act.Committing?
    ensures var st' := AfterTryCommit(st, c, true, true);
            if n <= st.collectors[c].act.upTo then Lost(st', n)
            else Astray(st', st'.collectors[c], n) && Nearer(st'.collectors[c], st.collectors[c])
                 && (Later(st.collectors[c], n) ==> Later(st'.collectors[c], n))
  {
    var k := st.collectors[c];
    var st' := AfterTryCommit(st, c, true, true);
    assert CollectorOk(st, c, k);
    assert EventAt(st', n) == EventAt(st, n);
    if k.act.upTo < n {
      forall m | m > n && m in Ats(k.buffer) ensures false {
        CommittedBuffer(st, k, m);
      }
    }
  }

  /** The holder's next step: event n is lost with it, or still astray after it. */
  lemma StepOnward(st: State, c: Id, n: nat)
    requires Losing(st, c, n) && !Idle(st.collectors[c])
    ensures var step := By(c, Onward(st.collectors[c]));
            && Enabled(st, step)
            && var st' := Apply(st, step);
               Lost(st', n)
               || (Losing(st', c, n) && Nearer(st'.collectors[c], st.collectors[c])
                   && (Later(st.collectors[c], n) ==> Later(st'.collectors[c], n)))
  {
    var k := st.collectors[c];
    OnwardReady(st, c, n);
    StepInv(st, By(c, Onward(k)));
    match k.act {
      case Writing(_) => WriteOnward(st, c, n);
      case Committing(_, _) => CommitOnward(st, c, n);
      case NoAct => OwnOnward(st, c, n);
    }
  }

  /** Steps of one collector and its server. */
  ghost predicate OfOne(steps: seq<Step>, c: Id) { forall i :: 0 <= i < |steps| ==> steps[i].By? && steps[i].c == c }

  /** Until the event is lost or the holder waits with nothing to do. */
  lemma {:induction false} GoOn(st: State, c: Id, n: nat) returns (steps: seq<Step>)
    requires Losing(st, c, n)
    ensures Possible(st, steps) && OfOne(steps, c)
    ensures var st' := Run(st, steps);
            Lost(st', n)
            || (Losing(st', c, n) && Idle(st'.collectors[c])
                && (Later(st.collectors[c], n) ==> Later(st'.collectors[c], n)))
    decreases |st.collectors[c].link.wire|, Stage(st.collectors[c]), |Inbox(st.collectors[c])|,
              ToFlush(st.collectors[c]), |st.collectors[c].link.asked|
  {
    steps := [];
    if !Idle(st.collectors[c]) {
      var step := By(c, Onward(st.collectors[c]));
      StepOnward(st, c, n);
      var next := Apply(st, step);
      if !Lost(next, n) {
        steps := GoOn(next, c, n);
      }
      steps := Before(st, step, steps);
    }
  }

  lemma Before(st: State, step: Step, rest: seq<Step>) returns (steps: seq<Step>)
    requires Sane(st) && Enabled(st, step) && Possible(Apply(st, step), rest)
    ensures steps == [step] + rest && Possible(st, steps) && Run(st, steps) == Run(Apply(st, step), rest)
  {
    steps := [step] + rest;
    assert steps[1..] == rest;
  }

  // ------------------------------------------------------------ one round more

  lemma IdleOwes(st: State, c: Id, n: nat)
    requires Losing(st, c, n) && Idle(st.collectors[c])
    ensures st.collectors[c].link.owed > 0 && !Later(st.collectors[c], n)
  {
    assert CollectorOk(st, c, st.collectors[c]);
  }

  lemma {:induction false} Joined(st: State, a: seq<Step>, b: seq<Step>) returns (steps: seq<Step>)
    requires Possible(st, a) && Possible(Run(st, a), b)
    ensures steps == a + b && Possible(st, steps) && Run(st, steps) == Run(Run(st, a), b)
    decreases |a|
  {
    steps := a + b;
    if a != [] {
      var rest := Joined(Apply(st, a[0]), a[1..], b);
      assert steps[1..] == rest;
    } else {
      assert steps == b;
    }
  }

  ghost predicate Loses(st: State, c: Id, n: nat, steps: seq<Step>) {
    Possible(st, steps) && OfOne(steps, c) && Lost(Run(st, steps), n)
  }

  /** The holder and its server alone can go on until event n is lost. */
  ghost predicate CanLose(st: State, c: Id, n: nat) { exists steps :: Loses(st, c, n, steps) }

  lemma CanLoseBefore(st: State, c: Id, n: nat, move: Move)
    requires Sane(st) && Enabled(st, By(c, move)) && CanLose(Apply(st, By(c, move)), c, n)
    ensures CanLose(st, c, n)
  {
    var rest :| Loses(Apply(st, By(c, move)), c, n, rest);
    var steps := Before(st, By(c, move), rest);
    assert Loses(st, c, n, steps);
  }

  lemma CanLoseAfter(st: State, c: Id, n: nat, first: seq<Step>)
    requires Possible(st, first) && OfOne(first, c) && CanLose(Run(st, first), c, n)
    ensures CanLose(st, c, n)
  {
    var rest :| Loses(Run(st, first), c, n, rest);
    var steps := Joined(st, first, rest);
    assert Loses(st, c, n, steps);
  }

  /** A move onward that is the holder's own, and what it leads to. */
  lemma OwnNext(st: State, c: Id, n: nat, move: Move, k': Collector) returns (next: State)
    requires Losing(st, c, n) && !Idle(st.collectors[c]) && st.collectors[c].act.NoAct?
    requires Onward(st.collectors[c]) == move && Own(move) && Ready(st, st.collectors[c], move)
    requires k' == AfterOwn(st, st.collectors[c], move)
    ensures Losing(next, c, n) && next.collectors[c] == k'
    ensures CanLose(next, c, n) ==> CanLose(st, c, n)
  {
    OwnOnward(st, c, n);
    StepInv(st, By(c, move));
    next := Apply(st, By(c, move));
    if CanLose(next, c, n) { CanLoseBefore(st, c, n, move); }
  }

  /** The commit under way covers event n. */
  lemma CommittingLoses(st: State, c: Id, n: nat)
    requires Losing(st, c, n) && st.collectors[c].act.Committing? && n <= st.collectors[c].act.upTo
    ensures CanLose(st, c, n)
  {
    CommitOnward(st, c, n);
    var next := Apply(st, By(c, TryCommit(true, true)));
    assert Loses(next, c, n, []);
    CanLoseBefore(st, c, n, TryCommit(true, true));
  }

  /** A keepalive on its way to be committed. */
  predicate Kept(k: Collector, resp: Response, n: nat) {
    k.act.NoAct? && MayKeep(k, resp) && n <= resp.latest
  }

  lemma PinningLoses(st: State, c: Id, n: nat, resp: Response)
    requires Losing(st, c, n) && st.collectors[c].phase == Pinning(resp) && Kept(st.collectors[c], resp, n)
    ensures CanLose(st, c, n)
  {
    var k := st.collectors[c];
    var next := OwnNext(st, c, n, Advance, k.(phase := Keeping(resp), act := Committing(resp.latest, true)));
    CommittingLoses(next, c, n);
  }

  lemma HandlingLoses(st: State, c: Id, n: nat, resp: Response)
    requires Losing(st, c, n) && st.collectors[c].phase == Handling([], resp) && Kept(st.collectors[c], resp, n)
    ensures CanLose(st, c, n)
  {
    var next := OwnNext(st, c, n, Advance, st.collectors[c].(phase := Pinning(resp)));
    PinningLoses(next, c, n, resp);
  }

  /** A keepalive that reports the head is committed at once when nothing else waits. */
  lemma KeepaliveLoses(st: State, c: Id, n: nat, resp: Response)
    requires Losing(st, c, n) && st.collectors[c].phase.Select? && Kept(st.collectors[c], resp, n)
    requires st.collectors[c].link.wire == [resp]
    ensures CanLose(st, c, n)
  {
    var next := OwnNext(st, c, n, Receive, AfterReceive(st.collectors[c]));
    HandlingLoses(next, c, n, resp);
  }

  /** A round after which the event is still astray. */
  lemma RoundKeeps(st: State, c: Id, n: nat, taken: nat, later: nat)
    requires Inv(st) && Sane(st) && c in st.collectors && st.lease == Some(c)
    requires Ready(st, st.collectors[c], ServerRespond(taken, later))
    requires var st' := AfterRespond(st, c, taken, later);
             Astray(st', st'.collectors[c], n)
    ensures Enabled(st, By(c, ServerRespond(taken, later)))
    ensures Apply(st, By(c, ServerRespond(taken, later))) == AfterRespond(st, c, taken, later)
    ensures Losing(AfterRespond(st, c, taken, later), c, n)
  {
    StepInv(st, By(c, ServerRespond(taken, later)));
  }

  /** The next round for a holder that waits sends a later event or reports the head. */
  lemma IdleRound(st: State, c: Id, n: nat) returns (r: Reply)
    requires Losing(st, c, n) && Idle(st.collectors[c])
    ensures var st', k := AfterRespond(st, c, 0, 0), st.collectors[c];
            && st'.collectors[c] == k.(link := Link(k.link.start, r.cursor, r.owed, [r.resp], []))
            && Astray(st', st'.collectors[c], n)
            && (if r.resp.events == [] then MayKeep(k, r.resp) && n <= r.resp.latest
                else Later(st'.collectors[c], n))
  {
    var k := st.collectors[c];
    IdleOwes(st, c, n);
    r := Respond(st.oldest, |st.log|, k.link.cursor, k.link.owed, 0, 0, st.cfg.perResponse);
    assert [] + [r.resp] == [r.resp];
    forall m ensures InWire([r.resp], m) <==> m in r.resp.events {
      InWireAppend([], r.resp, m);
    }
    assert r.resp.events != [] ==> InWire([r.resp], r.resp.events[0]);
    assert EventAt(AfterRespond(st, c, 0, 0), n) == EventAt(st, n);
  }

  lemma LaterLoses(st: State, c: Id, n: nat)
    requires Losing(st, c, n) && Later(st.collectors[c], n)
    ensures CanLose(st, c, n)
  {
    var steps := GoOn(st, c, n);
    var end := Run(st, steps);
    if !Lost(end, n) { IdleOwes(end, c, n); }
    assert Loses(st, c, n, steps);
  }

  lemma AfterIdleRound(st: State, c: Id, n: nat, r: Reply)
    requires Losing(st, c, n)
    requires var k := st.collectors[c];
             && k.phase.Select? && k.act.NoAct? && k.link.wire == [r.resp]
             && if r.resp.events == [] then MayKeep(k, r.resp) && n <= r.resp.latest else Later(k, n)
    ensures CanLose(st, c, n)
  {
    if r.resp.events == [] {
      KeepaliveLoses(st, c, n, r.resp);
    } else {
      LaterLoses(st, c, n);
    }
  }

  /** The server's next round lets a holder that waits lose the event. */
  lemma IdleLoses(st: State, c: Id, n: nat)
    requires Losing(st, c, n) && Idle(st.collectors[c])
    ensures CanLose(st, c, n)
  {
    var r := IdleRound(st, c, n);
    RoundKeeps(st, c, n, 0, 0);
    AfterIdleRound(AfterRespond(st, c, 0, 0), c, n, r);
    CanLoseBefore(st, c, n, ServerRespond(0, 0));
  }

  /** Whatever is astray can be lost. */
  lemma AstrayLoses(st: State, c: Id, n: nat)
    requires Losing(st, c, n)
    ensures CanLose(st, c, n)
  {
    var steps := GoOn(st, c, n);
    var end := Run(st, steps);
    if Lost(end, n) {
      assert Loses(st, c, n, steps);
    } else {
      IdleLoses(end, c, n);
      CanLoseAfter(st, c, n, steps);
    }
  }

  /** The event just jumped over is astray. */
  lemma JumpedIsAstray(st: State, c: Id, taken: nat, later: nat, n: nat)
    requires Inv(st) && Sane(st) && c in st.collectors && st.lease == Some(c)
    requires Ready(st, st.collectors[c], ServerRespond(taken, later))
    requires var link := st.collectors[c].link;
             n in Jumped(st.oldest, |st.log|, link.cursor, link.owed, Sum(link.asked[..taken]), st.cfg.perResponse)
    requires EventAt(st, n) !in st.archived
    ensures var st' := AfterRespond(st, c, taken, later);
            Astray(st', st'.collectors[c], n)
  {
    var k := st.collectors[c];
    assert CollectorOk(st, c, k);
    var late, more := Sum(k.link.asked[..taken]), Sum(k.link.asked[taken..taken + later]);
    LaterOnlyCounts(st.oldest, |st.log|, k.link.cursor, k.link.owed, late, more, st.cfg.perResponse);
    var r := Respond(st.oldest, |st.log|, k.link.cursor, k.link.owed, late, more, st.cfg.perResponse);
    InWireAppend(k.link.wire, r.resp, n);
    NotYetSent(st, k, n);
    assert EventAt(AfterRespond(st, c, taken, later), n) == EventAt(st, n);
  }

  lemma InWireBelow(mark: nat, wire: seq<Response>, cursor: nat, n: nat)
    requires WireOk(mark, wire, cursor) && InWire(wire, n)
    ensures n <= cursor
  {
    var i :| 0 <= i < |wire| && n in wire[i].events;
    if i > 0 {
      assert Within(wire[i].events, wire[i - 1].latest, wire[i].latest);
    }
  }

  lemma InboxBelow(st: State, k: Collector, n: nat)
    requires StreamOk(st, k) && (n in Ats(k.buffer) || n in Inbox(k))
    ensures n <= k.mark
  {
    var all := Ats(k.buffer) + Inbox(k);
    assert n in all;
    var i :| 0 <= i < |all| && all[i] == n;
  }

  /** Nothing beyond the server's cursor is with the client or on the wire. */
  lemma NotYetSent(st: State, k: Collector, n: nat)
    requires BufferOk(st, k) && StreamOk(st, k) && n > k.link.cursor
    ensures k.link.start <= k.link.cursor && n !in Ats(k.buffer) && n !in Inbox(k) && !InWire(k.link.wire, n)
  {
    if n in Ats(k.buffer) || n in Inbox(k) { InboxBelow(st, k, n); }
    if InWire(k.link.wire, n) { InWireBelow(k.mark, k.link.wire, k.link.cursor, n); }
  }

  /** From any reachable state, when the server jumps over an event that is not in
      the archive for the holder of the lease, the holder and its server alone can go
      on until the checkpoint covers the event and the archive still lacks it. */
  lemma UnsoundRoundLoses(st: State, c: Id, taken: nat, later: nat, n: nat) returns (steps: seq<Step>)
    requires Inv(st) && Sane(st) && c in st.collectors && st.lease == Some(c)
    requires Ready(st, st.collectors[c], ServerRespond(taken, later))
    requires var link := st.collectors[c].link;
             n in Jumped(st.oldest, |st.log|, link.cursor, link.owed, Sum(link.asked[..taken]), st.cfg.perResponse)
    requires EventAt(st, n) !in st.archived
    ensures Enabled(st, By(c, ServerRespond(taken, later)))
    ensures Loses(Apply(st, By(c, ServerRespond(taken, later))), c, n, steps)
  {
    JumpedIsAstray(st, c, taken, later, n);
    RoundKeeps(st, c, n, taken, later);
    var next := Apply(st, By(c, ServerRespond(taken, later)));
    AstrayLoses(next, c, n);
    steps :| Loses(next, c, n, steps);
  }

  /** What is lost was jumped over. */
  lemma LostWasJumped(st: State, c: Id, n: nat, steps: seq<Step>)
    requires Inv(st) && Loses(st, c, n, steps)
    ensures n in Run(st, steps).skipped
  {
    RunInv(st, steps);
    var end := Run(st, steps);
    assert Safe(end, n);
  }

  /** The exact cost of a round for the holder of the lease: an event not archived and
      not jumped over before can be lost by going on, without being jumped over again
      later, exactly when this round jumps over it. */
  lemma RoundLosesExactly(st: State, c: Id, taken: nat, later: nat, n: nat)
    requires Inv(st) && Sane(st) && c in st.collectors && st.lease == Some(c)
    requires Ready(st, st.collectors[c], ServerRespond(taken, later))
    requires EventAt(st, n) !in st.archived && n !in st.skipped
    ensures var link := st.collectors[c].link;
            var next := Apply(st, By(c, ServerRespond(taken, later)));
            (exists steps :: Loses(next, c, n, steps) && (n in Run(next, steps).skipped ==> n in next.skipped))
            <==> n in Jumped(st.oldest, |st.log|, link.cursor, link.owed, Sum(link.asked[..taken]), st.cfg.perResponse)
  {
    var link := st.collectors[c].link;
    var next := Apply(st, By(c, ServerRespond(taken, later)));
    var jumped := Jumped(st.oldest, |st.log|, link.cursor, link.owed, Sum(link.asked[..taken]), st.cfg.perResponse);
    assert next.skipped == st.skipped + jumped;
    if n in jumped {
      var steps := UnsoundRoundLoses(st, c, taken, later, n);
      assert Loses(next, c, n, steps) && n in next.skipped;
    }
    if steps :| Loses(next, c, n, steps) && (n in Run(next, steps).skipped ==> n in next.skipped) {
      StepInv(st, By(c, ServerRespond(taken, later)));
      LostWasJumped(next, c, n, steps);
    }
  }
}
