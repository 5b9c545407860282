/**
 Preservation of the protocol invariant by flushes and commits, and by whole
 steps.
 */
module ProtocolCommits {
  import opened Common
  import opened Grouping
  import opened Protocol
  import opened ProtocolInvariant
  import opened ProtocolMoves

  // ------------------------------------------------------ the stages of a response

  /** A keepalive covers only what the server itself jumped over. */
  lemma KeepaliveCovers(st: State, k: Collector, n: nat)
    requires StreamOk(st, k) && k.phase.Pinning? && k.buffer == []
    requires Floor(k) < n <= k.mark
    ensures n in st.skipped
  {
    assert n <= k.link.cursor;
    if InWire(k.link.wire, n) {
      WireAbove(k.mark, k.link.wire, k.link.cursor, n);
    }
  }

  lemma PinnedClient(st: State, k: Collector)
    requires BufferOk(st, k) && StreamOk(st, k) && k.phase.Pinning? && k.act.NoAct?
    ensures BufferOk(st, AfterAdvance(st, k)) && ActOk(st, AfterAdvance(st, k))
  {
    var k' := AfterAdvance(st, k);
    assert Floor(k') == Floor(k) && k'.buffer == k.buffer;
    if MayKeep(k, k.phase.resp) {
      forall n: nat | Floor(k) < n <= k.mark ensures Safe(st, n) {
        KeepaliveCovers(st, k, n);
      }
    }
  }

  /** The stages between two responses leave the stream as it is. */
  lemma StageStream(st: State, k: Collector, k': Collector)
    requires StreamOk(st, k) && StageOk(k')
    requires k'.committed == k.committed && k'.buffer == k.buffer && Inbox(k') == Inbox(k)
    requires k'.mark == k.mark && k'.link == k.link
    ensures StreamOk(st, k')
  {
    assert Floor(k') == Floor(k);
  }

  lemma PinnedStream(st: State, k: Collector)
    requires StreamOk(st, k) && k.phase.Pinning? && k.act.NoAct?
    ensures StreamOk(st, AfterAdvance(st, k))
  {
    StageStream(st, k, AfterAdvance(st, k));
  }

  lemma PinnedFlow(st: State, k: Collector)
    requires FlowOk(st, k) && k.phase.Pinning? && k.act.NoAct?
    ensures FlowOk(st, AfterAdvance(st, k))
  {
  }

  lemma PinnedOk(st: State, c: Id, k: Collector)
    requires CollectorOk(st, c, k) && k.phase.Pinning? && k.act.NoAct?
    ensures CollectorOk(st, c, AfterAdvance(st, k))
  {
    PinnedClient(st, k);
    PinnedStream(st, k);
    PinnedFlow(st, k);
    StoreKept(st, c, k, AfterAdvance(st, k));
  }

  lemma HandledOk(st: State, c: Id, k: Collector)
    requires CollectorOk(st, c, k) && k.phase.Handling? && k.phase.inbox == [] && k.act.NoAct?
    ensures CollectorOk(st, c, AfterAdvance(st, k))
  {
    var k' := AfterAdvance(st, k);
    assert Floor(k') == Floor(k) && k'.buffer == k.buffer && Inbox(k') == Inbox(k);
    FlushActIf(st, k.(phase := Pinning(k.phase.resp)));
  }

  lemma FlushActIf(st: State, k: Collector)
    requires !k.phase.Keeping? && !k.phase.ToppingUp?
    ensures k.buffer != [] ==> ActOk(st, OfferFlush(k))
  {
    if k.buffer != [] { FlushAct(st, k); }
  }

  lemma ToppedUpFlow(st: State, k: Collector)
    requires FlowOk(st, k) && k.phase.ToppingUp? && ConfigOk(st.cfg)
    ensures FlowOk(st, AfterAdvance(st, k))
  {
    SumAppend(k.link.asked, st.cfg.appetite - k.pending);
  }

  lemma ToppedUpClient(st: State, k: Collector)
    requires BufferOk(st, k) && ActOk(st, k) && k.phase.ToppingUp? && k.act.NoAct?
    ensures BufferOk(st, AfterAdvance(st, k)) && ActOk(st, AfterAdvance(st, k))
  {
    var k' := AfterAdvance(st, k);
    assert Floor(k') == Floor(k) && k'.buffer == k.buffer;
  }

  lemma ToppedUpStream(st: State, k: Collector)
    requires StreamOk(st, k) && k.phase.ToppingUp?
    ensures StreamOk(st, AfterAdvance(st, k))
  {
    var k' := AfterAdvance(st, k);
    assert Floor(k') == Floor(k) && k'.buffer == k.buffer && Inbox(k') == Inbox(k);
  }

  lemma ToppedUpOk(st: State, c: Id, k: Collector)
    requires CollectorOk(st, c, k) && k.phase.ToppingUp? && k.act.NoAct? && ConfigOk(st.cfg)
    ensures CollectorOk(st, c, AfterAdvance(st, k))
  {
    ToppedUpFlow(st, k);
    ToppedUpClient(st, k);
    ToppedUpStream(st, k);
  }

  lemma FlushStartedOk(st: State, c: Id, k: Collector)
    requires CollectorOk(st, c, k) && (k.phase.Select? || k.phase.Closing?) && k.act.NoAct? && k.buffer != []
    ensures CollectorOk(st, c, OfferFlush(k))
  {
    FlushAct(st, k);
  }

  lemma HaltedOk(st: State, c: Id, k: Collector)
    requires CollectorOk(st, c, k)
    ensures CollectorOk(st, c, Halted(k))
  {
  }

  // --------------------------------------------------------------------- writing

  lemma ClosedOk(st: State, c: Id, k: Collector)
    requires CollectorOk(st, c, k) && k.phase.Closing? && k.act.NoAct?
    ensures CollectorOk(st, c, AfterAdvance(st, k))
  {
    if k.buffer != [] {
      FlushStartedOk(st, c, k);
    } else if k.phase.shutdown {
      HaltedOk(st, c, k);
    }
  }

  lemma AdvancedOk(st: State, c: Id, k: Collector)
    requires CollectorOk(st, c, k) && CanAdvance(k) && ConfigOk(st.cfg)
    ensures CollectorOk(st, c, AfterAdvance(st, k))
  {
    if k.phase.Handling? {
      HandledOk(st, c, k);
    } else if k.phase.Pinning? {
      PinnedOk(st, c, k);
    } else if k.phase.ToppingUp? {
      ToppedUpOk(st, c, k);
    } else {
      ClosedOk(st, c, k);
    }
  }

  lemma EndedOk(st: State, c: Id, k: Collector, shutdown: bool)
    requires CollectorOk(st, c, k) && CanEnd(k) && ConfigOk(st.cfg)
    ensures CollectorOk(st, c, k.(phase := Closing(shutdown)))
  {
    var k' := k.(phase := Closing(shutdown));
    assert Floor(k') == Floor(k) && k'.buffer == k.buffer;
  }

  /** Without jumps a buffer is the run of events right after the floor. */
  lemma BufferIsSpan(st: State, k: Collector)
    requires BufferOk(st, k) && st.skipped == {} && k.buffer != []
    ensures Ats(k.buffer) == Span(Floor(k), k.buffer[|k.buffer| - 1].at)
    ensures forall r :: r in k.buffer ==> r.at <= Floor(k) + |k.buffer|
  {
    var last := k.buffer[|k.buffer| - 1].at;
    var ats := Ats(k.buffer);
    assert ats[|ats| - 1] == last;
    assert Within(ats, Floor(k), last);
    AscendingCoverIsSpan(ats, Floor(k), last);
    forall r | r in k.buffer ensures r.at <= Floor(k) + |k.buffer| {
      var i :| 0 <= i < |k.buffer| && k.buffer[i] == r;
      assert ats[i] == Floor(k) + 1 + i;
    }
  }

  lemma BufferRecord(st: State, k: Collector, r: Record)
    requires BufferOk(st, k) && r in k.buffer
    ensures Floor(k) < r.at <= |st.log| && r == EventAt(st, r.at)
  {
    var i :| 0 <= i < |k.buffer| && k.buffer[i] == r;
    assert Ats(k.buffer)[i] == r.at;
  }

  /** The archive after one group of k's buffer is stored. */
  function Stored(st: State, k: Collector, group: seq<Record>): State {
    st.(archived := st.archived + (set r | r in group),
        booted := if k.committed.None? then st.booted + (set r | r in group :: r.at) else st.booted)
  }

  lemma StoredArchive(st: State, c: Id, k: Collector, group: seq<Record>)
    requires ArchiveOk(st) && CollectorOk(st, c, k) && InSession(k)
    requires forall r :: r in group ==> r in k.buffer
    ensures ArchiveOk(Stored(st, k, group))
  {
    var st' := Stored(st, k, group);
    forall r | r in st'.archived ensures 1 <= r.at <= |st'.log| && r == EventAt(st', r.at) {
      if r in group { BufferRecord(st, k, r); }
      assert EventAt(st', r.at) == EventAt(st, r.at);
    }
    forall n | n in st'.booted ensures n <= |st'.log| && EventAt(st', n) in st'.archived {
      assert EventAt(st', n) == EventAt(st, n);
      if n !in st.booted {
        var r :| r in group && r.at == n;
        BufferRecord(st, k, r);
      }
    }
    if st'.skipped == {} {
      forall r | r in st'.archived && r.at !in st'.booted
        ensures st'.base.Some? && r.at <= st'.peak + st'.cfg.maxEvents
      {
        if r in group { BufferIsSpan(st, k); }
      }
    }
  }

  lemma StoredInv(st: State, c: Id, k: Collector, group: seq<Record>)
    requires Inv(st) && c in st.collectors && k == st.collectors[c] && InSession(k)
    requires forall r :: r in group ==> r in k.buffer
    ensures Inv(Stored(st, k, group))
  {
    var st' := Stored(st, k, group);
    assert CollectorOk(st, c, k);
    forall d | d in st'.collectors ensures CollectorOk(st', d, st'.collectors[d]) {
      assert CollectorOk(st, d, st.collectors[d]);
      CollectorStays(st, st', d, st.collectors[d]);
    }
    StoredStays(st, st');
    StoredArchive(st, c, k, group);
  }

  /** Once every record of the buffer is archived the flush may commit. */
  lemma WrittenAct(st: State, k: Collector)
    requires BufferOk(st, k) && ActOk(st, k) && k.act.Writing?
    requires forall r :: r in OfKind(k.buffer, k.act.todo[0]) ==> r in st.archived
    ensures ActOk(st, k.(act := Next(k.act.todo[1..], k)))
  {
    var todo := k.act.todo;
    assert todo == [todo[0]] + todo[1..];
    forall r | r in k.buffer && r.kind == todo[0] ensures r in st.archived {
      OfKindMember(k.buffer, todo[0], r);
    }
    if todo[1..] == [] {
      var last := k.buffer[|k.buffer| - 1].at;
      assert Ats(k.buffer)[|k.buffer| - 1] == last;
      forall n: nat | Floor(k) < n <= last ensures Safe(st, n) {
        if n in Ats(k.buffer) {
          var i :| 0 <= i < |k.buffer| && Ats(k.buffer)[i] == n;
          assert k.buffer[i] in k.buffer;
        }
      }
    }
  }

  lemma WrittenOk(st: State, c: Id, k: Collector)
    requires CollectorOk(st, c, k) && CanWrite(k)
    requires forall r :: r in OfKind(k.buffer, k.act.todo[0]) ==> r in st.archived
    ensures CollectorOk(st, c, k.(act := Next(k.act.todo[1..], k)))
  {
    var k' := k.(act := Next(k.act.todo[1..], k));
    WrittenAct(st, k);
    assert Floor(k') == Floor(k) && k'.buffer == k.buffer && Inbox(k') == Inbox(k);
  }

  lemma WriteInv(st: State, c: Id, stored: bool, reported: bool)
    requires Inv(st) && c in st.collectors && CanWrite(st.collectors[c]) && (reported ==> stored)
    ensures Inv(AfterWrite(st, c, stored, reported))
  {
    var k := st.collectors[c];
    assert CollectorOk(st, c, k);
    var group := OfKind(k.buffer, k.act.todo[0]);
    forall r | r in group ensures r in k.buffer { OfKindMember(k.buffer, k.act.todo[0], r); }
    if stored {
      var st1 := Stored(st, k, group);
      StoredInv(st, c, k, group);
      if reported {
        assert CollectorOk(st1, c, k);
        WrittenOk(st1, c, k);
        LocalMove(st1, c, k.(act := Next(k.act.todo[1..], k)));
      }
    }
  }

  // ------------------------------------------------------------------- committing

  /** What the commit of the lease's holder covers, counted from the base. */
  lemma SentCovers(st: State, c: Id, k: Collector)
    requires CheckpointOk(st) && CollectorOk(st, c, k) && k.act.Committing? && st.lease == Some(c)
    ensures Covers(st, BaseOr(st, k.link.start), k.act.upTo)
  {
    assert Loaded(k);
    forall n: nat | BaseOr(st, k.link.start) < n <= k.act.upTo ensures Safe(st, n) {
      if n <= Floor(k) { assert n <= st.peak; }
    }
  }

  /** A commit that was sent joins those under way. */
  function WithLate(st: State, commit: Late): State {
    st.(late := st.late + {commit})
  }

  lemma SentLate(st: State, c: Id, k: Collector)
    requires StoredOk(st) && c in st.collectors && CollectorOk(st, c, k) && k.act.Committing?
    ensures LateOk(WithLate(st, Sent(c, k)))
  {
    var st' := WithLate(st, Sent(c, k));
    forall l | l in st'.late && st'.lease == Some(l.c) ensures Covers(st', BaseOr(st', l.start), l.upTo) {
      if l !in st.late { SentCovers(st, c, k); }
      CoversStays(st, st', BaseOr(st, l.start), l.upTo);
    }
  }

  lemma SentSelf(st: State, c: Id, k: Collector)
    requires CollectorOk(st, c, k) && k.act.Committing?
    ensures CollectorOk(WithLate(st, Sent(c, k)), c, k)
  {
    SessionStays(st, WithLate(st, Sent(c, k)), k);
  }

  lemma SentInv(st: State, c: Id)
    requires Inv(st) && c in st.collectors && st.collectors[c].act.Committing?
    ensures Inv(WithLate(st, Sent(c, st.collectors[c])))
  {
    var k := st.collectors[c];
    assert CollectorOk(st, c, k);
    var st' := WithLate(st, Sent(c, k));
    SentLate(st, c, k);
    SentSelf(st, c, k);
    if st.base.Some? { CoversStays(st, st', st.base.value, st.peak); }
    OthersStay(st, st', c);
    ArchiveStays(st, st');
  }

  /** Forgetting commits that will not arrive any more. */
  lemma ForgetInv(st: State, late: set<Late>)
    requires Inv(st) && late <= st.late
    ensures Inv(st.(late := late))
  {
    var st' := st.(late := late);
    forall c | c in st'.collectors ensures CollectorOk(st', c, st'.collectors[c]) {
      assert CollectorOk(st, c, st.collectors[c]);
      CollectorStays(st, st', c, st.collectors[c]);
    }
    StoredStays(st, st');
    ArchiveStays(st, st');
  }

  lemma AcceptedCheckpoint(st: State, commit: Late)
    requires StoredOk(st) && commit in st.late && st.lease == Some(commit.c)
    ensures Grows(st, Accepted(st, commit)) && CheckpointOk(Accepted(st, commit))
  {
    var st' := Accepted(st, commit);
    assert Covers(st, BaseOr(st, commit.start), commit.upTo);
    forall n: nat | st'.base.value < n <= st'.peak ensures Safe(st', n) {
      assert Safe(st, n);
    }
  }

  lemma AcceptedLate(st: State, commit: Late)
    requires StoredOk(st) && commit in st.late && st.lease == Some(commit.c)
    ensures LateOk(Accepted(st, commit))
  {
    var st' := Accepted(st, commit);
    AcceptedCheckpoint(st, commit);
    forall l | l in st'.late && st'.lease == Some(l.c) ensures Covers(st', BaseOr(st', l.start), l.upTo) {
      assert BaseOr(st', l.start) == BaseOr(st, l.start);
      CoversStays(st, st', BaseOr(st, l.start), l.upTo);
    }
  }

  /** The holder itself stays in order: whatever arrives in its name it has sent. */
  lemma AcceptedSelf(st: State, commit: Late, k: Collector)
    requires StoredOk(st) && commit in st.late && st.lease == Some(commit.c) && CollectorOk(st, commit.c, k)
    ensures CollectorOk(Accepted(st, commit), commit.c, k)
  {
    var st' := Accepted(st, commit);
    AcceptedCheckpoint(st, commit);
    if InSession(k) { SessionStays(st, st', k); }
  }

  lemma AcceptedInv(st: State, commit: Late)
    requires Inv(st) && commit in st.late && st.lease == Some(commit.c)
    ensures Inv(Accepted(st, commit))
  {
    var st' := Accepted(st, commit);
    AcceptedCheckpoint(st, commit);
    AcceptedLate(st, commit);
    AcceptedSelf(st, commit, st.collectors[commit.c]);
    OthersStay(st, st', commit.c);
    ArchiveStays(st, st');
  }

  lemma ArriveInv(st: State, commit: Late)
    requires Inv(st) && commit in st.late
    ensures Inv(AfterArrive(st, commit))
  {
    if st.lease == Some(commit.c) { AcceptedInv(st, commit); }
  }

  /** What is left of the response comes after the position just committed. */
  lemma CommittedInbox(st: State, k: Collector)
    requires BufferOk(st, k) && ActOk(st, k) && k.act.Committing? && Live(k.phase) && StreamOk(st, k)
    ensures Ascending(Inbox(k)) && Within(Inbox(k), k.act.upTo, k.mark)
  {
    var inbox := Inbox(k);
    var all := Ats(k.buffer) + inbox;
    assert forall i :: 0 <= i < |inbox| ==> all[|k.buffer| + i] == inbox[i];
    if !k.act.keepalive {
      assert Ats(k.buffer)[|k.buffer| - 1] == k.act.upTo;
      forall i | 0 <= i < |inbox| ensures k.act.upTo < inbox[i] {
        LaterInSequence(Ats(k.buffer), inbox, inbox[i]);
      }
    }
  }

  /** Nothing in the buffer lies beyond the position being committed. */
  lemma CommittedBuffer(st: State, k: Collector, n: nat)
    requires BufferOk(st, k) && ActOk(st, k) && k.act.Committing? && n in Ats(k.buffer)
    ensures n <= k.act.upTo
  {
    var i :| 0 <= i < |k.buffer| && Ats(k.buffer)[i] == n;
    assert Ats(k.buffer)[|k.buffer| - 1] == k.act.upTo;
  }

  lemma CommittedStream(st: State, k: Collector)
    requires BufferOk(st, k) && ActOk(st, k) && k.act.Committing? && Live(k.phase) && StreamOk(st, k)
    ensures StreamOk(st, AfterCommit(k))
  {
    var k' := AfterCommit(k);
    assert Inbox(k') == Inbox(k) && Ats(k'.buffer) + Inbox(k') == Inbox(k) && Floor(k') == k.act.upTo;
    CommittedInbox(st, k);
    forall n: nat | k.act.upTo < n <= k.link.cursor
      ensures n in Inbox(k) || InWire(k.link.wire, n) || n in st.skipped
    {
      if n in Ats(k.buffer) { CommittedBuffer(st, k, n); }
    }
  }

  lemma CommittedStore(st: State, c: Id, k: Collector)
    requires StoreOk(st, c, k) && InSession(k) && k.act.Committing?
    requires st.lease == Some(c) && st.checkpoint == Some(k.act.upTo) && CheckpointOk(st)
    ensures StoreOk(st, c, AfterCommit(k))
  {
    assert Ahead(AfterCommit(k), st.checkpoint.value);
    forall l | l in st.late && l.c == c ensures Ahead(AfterCommit(k), l.upTo) {
      assert Ahead(k, l.upTo);
    }
  }

  lemma CommittedOk(st: State, c: Id, k: Collector)
    requires CollectorOk(st, c, k) && k.act.Committing? && ConfigOk(st.cfg)
    requires st.lease == Some(c) && st.checkpoint == Some(k.act.upTo) && CheckpointOk(st)
    ensures CollectorOk(st, c, AfterCommit(k))
  {
    var k' := AfterCommit(k);
    CommittedStore(st, c, k);
    assert BufferOk(st, k') && k'.act.NoAct?;
    if Live(k.phase) {
      CommittedStream(st, k);
      assert Inbox(k') == Inbox(k);
    }
  }

  /** A commit that reaches the store is a commit under way that arrives. */
  lemma ReachedInv(st: State, c: Id, reached: bool)
    requires Inv(st) && c in st.collectors && st.collectors[c].act.Committing?
    ensures var sent := Sent(c, st.collectors[c]);
            Inv(if reached then WithLate(AfterArrive(st, sent), sent) else WithLate(st, sent))
  {
    var sent := Sent(c, st.collectors[c]);
    SentInv(st, c);
    ArriveInv(WithLate(st, sent), sent);
    assert AfterArrive(WithLate(st, sent), sent) == WithLate(AfterArrive(st, sent), sent);
  }

  lemma ReportedInv(st: State, c: Id)
    requires Inv(st) && c in st.collectors && st.collectors[c].act.Committing? && st.lease == Some(c)
    ensures var k := st.collectors[c];
            Inv(With(Accepted(st, Sent(c, k)), c, AfterCommit(k)))
  {
    var k := st.collectors[c];
    var st1 := Accepted(st, Sent(c, k));
    ReachedInv(st, c, true);
    ForgetInv(WithLate(st1, Sent(c, k)), st.late);
    assert WithLate(st1, Sent(c, k)).(late := st.late) == st1;
    assert CollectorOk(st1, c, k);
    CommittedOk(st1, c, k);
    LocalMove(st1, c, AfterCommit(k));
  }

  lemma CommitInv(st: State, c: Id, reached: bool, reported: bool)
    requires Inv(st) && c in st.collectors && st.collectors[c].act.Committing? && (reported ==> reached)
    ensures Inv(AfterTryCommit(st, c, reached, reported))
  {
    var k := st.collectors[c];
    if !reported {
      ReachedInv(st, c, reached);
    } else if st.lease == Some(c) {
      ReportedInv(st, c);
    } else {
      assert CollectorOk(st, c, k);
      HaltedOk(st, c, k);
      LocalMove(st, c, Halted(k));
    }
  }

  // ------------------------------------------------------------------- every step

  lemma OwnMoveOk(st: State, c: Id, k: Collector, move: Move)
    requires CollectorOk(st, c, k) && ConfigOk(st.cfg) && CheckpointOk(st) && 1 <= st.oldest <= |st.log| + 1
    requires Own(move) && Ready(st, k, move)
    ensures CollectorOk(st, c, AfterOwn(st, k, move))
  {
    match move {
      case Load => LoadedOk(st, c, k);
      case Subscribe => SubscribedOk(st, c, k);
      case ServerTake => TakenOk(st, c, k);
      case Receive => ReceivedOk(st, c, k);
      case Decode => DecodedOk(st, c, k);
      case Advance => AdvancedOk(st, c, k);
      case StartFlush => FlushStartedOk(st, c, k);
      case EndSession(shutdown) => EndedOk(st, c, k, shutdown);
      case Stop => HaltedOk(st, c, k);
    }
  }

  lemma ReleaseInv(st: State, c: Id)
    requires Inv(st)
    ensures Inv(if st.lease == Some(c) then st.(lease := None) else st)
  {
    InvIsSane(st);
    EnvInv(st, Expire);
  }

  lemma OwnMoveInv(st: State, c: Id, move: Move)
    requires Inv(st) && c in st.collectors && Own(move) && Ready(st, st.collectors[c], move)
    ensures Inv(With(st, c, AfterOwn(st, st.collectors[c], move)))
  {
    var k := st.collectors[c];
    OwnMoveOk(st, c, k, move);
    LocalMove(st, c, AfterOwn(st, k, move));
  }

  lemma MoveInv(st: State, c: Id, move: Move)
    requires Inv(st) && Sane(st) && c in st.collectors && Ready(st, st.collectors[c], move)
    ensures Inv(AfterMove(st, c, move))
  {
    if Own(move) {
      OwnMoveInv(st, c, move);
    } else {
      match move {
        case Acquire => AcquireInv(st, c);
        case ServerRespond(taken, later) => ServerRespondInv(st, c, taken, later);
        case WriteGroup(stored, reported) => WriteInv(st, c, stored, reported);
        case TryCommit(reached, reported) => CommitInv(st, c, reached, reported);
        case Release => ReleaseInv(st, c);
      }
    }
  }

  /** Every step of the protocol keeps the invariant. */
  lemma StepInv(st: State, step: Step)
    requires Inv(st) && Sane(st) && Enabled(st, step)
    ensures Inv(Apply(st, step)) && Sane(Apply(st, step))
  {
    match step {
      case Env(event) =>
        if event.Arrive? {
          ArriveInv(st, event.commit);
        } else {
          EnvInv(st, event);
        }
      case By(c, move) =>
        if move.Start? {
          StartInv(st, c, move.bootstrap);
        } else {
          MoveInv(st, c, move);
        }
    }
    InvIsSane(Apply(st, step));
  }
}
