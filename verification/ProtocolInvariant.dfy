/**
 The inductive invariant of the archiving protocol and its preservation by every
 step.
 */
module ProtocolInvariant {
  import opened Common
  import opened Grouping
  import opened Topic
  import opened Protocol

  function Ats(buffer: seq<Record>): (ats: seq<nat>)
    ensures |ats| == |buffer| && forall i :: 0 <= i < |ats| ==> ats[i] == buffer[i].at
  {
    seq(|buffer|, i requires 0 <= i < |buffer| => buffer[i].at)
  }

  function Inbox(k: Collector): seq<nat> {
    match k.phase
    case Handling(inbox, _) => inbox
    case _ => []
  }

  function Count(wire: seq<Response>): nat {
    if wire == [] then 0 else |wire[0].events| + Count(wire[1..])
  }

  ghost predicate InWire(wire: seq<Response>, n: nat) {
    exists i :: 0 <= i < |wire| && n in wire[i].events
  }

  /** Nothing is lost if event n is in the archive, as published, or the server
      itself jumped over it. */
  ghost predicate Safe(st: State, n: nat) {
    EventAt(st, n) in st.archived || n in st.skipped
  }

  // ------------------------------------------------------------ one collector

  ghost predicate InSession(k: Collector) { Live(k.phase) || k.phase.Closing? }

  /** The buffer is exactly the delivered events after the committed position. */
  ghost predicate BufferOk(st: State, k: Collector) {
    && Floor(k) <= k.mark <= |st.log|
    && k.link.start <= Floor(k)
    && (forall r :: r in k.buffer ==> r == EventAt(st, r.at))
    && Ascending(Ats(k.buffer)) && Within(Ats(k.buffer), Floor(k), k.mark)
    && (k.buffer != [] ==> forall n :: Floor(k) < n <= k.buffer[|k.buffer| - 1].at ==>
          n in Ats(k.buffer) || n in st.skipped)
    && |k.buffer| <= st.cfg.maxEvents
    && (k.act.NoAct? ==> |k.buffer| < st.cfg.maxEvents)
  }

  ghost predicate ActOk(st: State, k: Collector) {
    match k.act
    case NoAct => true
    case Writing(todo) =>
      && todo != [] && k.buffer != []
      && !k.phase.Keeping? && !k.phase.ToppingUp?
      && forall r :: r in k.buffer ==> r in st.archived || r.kind in todo
    case Committing(upTo, keepalive) =>
      && Floor(k) <= upTo <= k.mark
      && (forall n :: Floor(k) < n <= upTo ==> Safe(st, n))
      && (keepalive ==> k.phase.Keeping? && upTo == k.mark && k.buffer == [])
      && (!keepalive ==> k.buffer != [] && upTo == k.buffer[|k.buffer| - 1].at
                         && !k.phase.Keeping? && !k.phase.ToppingUp?)
  }

  ghost predicate WireOk(mark: nat, wire: seq<Response>, cursor: nat) {
    && (forall i :: 0 <= i < |wire| ==> mark <= wire[i].latest <= cursor && Ascending(wire[i].events))
    && (wire != [] ==> Within(wire[0].events, mark, wire[0].latest))
    && (forall i :: 0 < i < |wire| ==> Within(wire[i].events, wire[i - 1].latest, wire[i].latest))
    && (forall i, j :: 0 <= i < j < |wire| ==> wire[i].latest <= wire[j].latest)
    && mark <= cursor
  }

  ghost predicate StageOk(k: Collector) {
    match k.phase
    case Handling(inbox, resp) => resp.latest == k.mark && (resp.events == [] ==> inbox == [])
    case Pinning(resp) => resp.latest == k.mark && (k.act.NoAct? ==> k.committed.None? ==> k.buffer == [])
    case Keeping(resp) => resp.latest == k.mark && k.act.Committing?
    case _ => true
  }

  /** Everything after the floor and up to the server's cursor is in the buffer,
      in the response being handled, on the wire, or was jumped over. */
  ghost predicate StreamOk(st: State, k: Collector) {
    && Ascending(Ats(k.buffer) + Inbox(k)) && Within(Ats(k.buffer) + Inbox(k), Floor(k), k.mark)
    && WireOk(k.mark, k.link.wire, k.link.cursor)
    && StageOk(k)
    && (forall n :: Floor(k) < n <= k.link.cursor ==>
          n in Ats(k.buffer) || n in Inbox(k) || InWire(k.link.wire, n) || n in st.skipped)
  }

  /** Conservation of demand. */
  ghost predicate FlowOk(st: State, k: Collector) {
    && k.pending == k.link.owed + |Inbox(k)| + Count(k.link.wire) + Sum(k.link.asked)
    && k.pending <= st.cfg.appetite
    && (forall i :: 0 <= i < |k.link.asked| ==> 1 <= k.link.asked[i] <= st.cfg.appetite)
    && (k.phase.Select? ==> k.pending > st.cfg.appetite / 2)
  }

  ghost predicate Loaded(k: Collector) { InSession(k) || k.phase.Between? }

  /** The collector's committed position, or the one it is committing, is at or
      beyond n. */
  predicate Ahead(k: Collector, n: nat) {
    if k.act.Committing? then n <= k.act.upTo else k.committed.Some? && n <= k.committed.value
  }

  /** What the holder of the lease knows about the store: it is never behind it, and
      only its own first commit can have fixed the base unknown to it. */
  ghost predicate HolderOk(st: State, c: Id, k: Collector) {
    && (k.committed.Some? ==> st.base.Some? && st.base.value <= k.committed.value)
    && (k.committed.None? && st.base.Some? ==> k.act.Committing? && st.base.value == k.link.start)
    && (st.checkpoint.Some? ==> Ahead(k, st.checkpoint.value))
    && (forall l :: l in st.late && l.c == c ==> Ahead(k, l.upTo))
    && (k.committed.None? ==> forall l :: l in st.late && l.c == c ==> k.act.Committing? && l == Sent(c, k))
  }

  ghost predicate StoreOk(st: State, c: Id, k: Collector) {
    && (k.phase.Waiting? ==> st.lease != Some(c))
    && (k.phase.Waiting? || k.phase.Leased? ==> forall l :: l in st.late ==> l.c != c)
    && (Loaded(k) && k.committed.Some? ==> st.base.Some? && k.committed.value <= st.peak)
    && (Loaded(k) && st.lease == Some(c) ==> HolderOk(st, c, k))
  }

  ghost predicate CollectorOk(st: State, c: Id, k: Collector) {
    && k.link.cursor <= |st.log|
    && StoreOk(st, c, k)
    && (if InSession(k) then BufferOk(st, k) && ActOk(st, k) else k.buffer == [] && k.act.NoAct?)
    && (Live(k.phase) ==> StreamOk(st, k) && FlowOk(st, k))
  }

  // --------------------------------------------------------------- the whole system

  ghost predicate ConfigOk(cfg: Config) {
    1 <= cfg.appetite <= MAX_APPETITE && 1 <= cfg.maxEvents
  }

  ghost predicate Covers(st: State, start: nat, upTo: nat) {
    start <= upTo <= |st.log| && forall n :: start < n <= upTo ==> Safe(st, n)
  }

  function BaseOr(st: State, start: nat): nat {
    if st.base.Some? then st.base.value else start
  }

  /** Commits that may still arrive: those of the lease's holder cover what they
      claim, and are all the same until there is a base. */
  ghost predicate LateOk(st: State) {
    && (forall l :: l in st.late ==> l.c in st.collectors)
    && (forall l :: l in st.late && st.lease == Some(l.c) ==> Covers(st, BaseOr(st, l.start), l.upTo))
    && (st.base.None? ==> forall l, m :: l in st.late && m in st.late && st.lease == Some(l.c) == Some(m.c) ==> l == m)
  }

  ghost predicate CheckpointOk(st: State) {
    && st.checkpoint.Some? == st.base.Some?
    && (st.base.None? ==> st.peak == 0)
    && (st.base.Some? ==>
          && st.base.value <= st.checkpoint.value <= st.peak
          && Covers(st, st.base.value, st.peak))
  }

  ghost predicate StoredOk(st: State) {
    && CheckpointOk(st)
    && (st.lease.Some? ==> st.lease.value in st.collectors)
    && LateOk(st)
  }

  /** The archive holds only published events, and nothing more than one batch
      past the highest checkpoint unless it was archived while bootstrapping. */
  ghost predicate ArchiveOk(st: State) {
    && (forall r :: r in st.archived ==> 1 <= r.at <= |st.log| && r == EventAt(st, r.at))
    && (forall n :: n in st.booted ==> n <= |st.log| && EventAt(st, n) in st.archived)
    && (st.skipped == {} ==> forall r :: r in st.archived && r.at !in st.booted ==>
          st.base.Some? && r.at <= st.peak + st.cfg.maxEvents)
  }

  ghost predicate Inv(st: State) {
    && ConfigOk(st.cfg) && 1 <= st.oldest <= |st.log| + 1
    && StoredOk(st) && ArchiveOk(st)
    && forall c :: c in st.collectors ==> CollectorOk(st, c, st.collectors[c])
  }

  lemma InvIsSane(st: State)
    requires Inv(st)
    ensures Sane(st)
  {
    forall c | c in st.collectors ensures st.collectors[c].link.cursor <= |st.log| {
      assert CollectorOk(st, c, st.collectors[c]);
    }
  }

  lemma InitialInv(cfg: Config)
    requires ConfigOk(cfg)
    ensures Inv(Initial(cfg))
  {
  }

  // --------------------------------------------------- what other parties may change

  /** How the shared state may move between two looks of collector c. */
  ghost predicate Grows(st: State, st': State) {
    && st'.cfg == st.cfg
    && st.log <= st'.log
    && st.archived <= st'.archived && st.skipped <= st'.skipped
    && (st.base.Some? ==> st'.base == st.base) && st.peak <= st'.peak
    && (st.checkpoint.Some? ==> st'.checkpoint.Some?)
  }

  /** A lease that c holds afterwards it held all along, and nothing was stored or
      sent in its name. */
  ghost predicate LeaseKept(st: State, st': State, c: Id) {
    && (st'.lease == Some(c) ==> st.lease == Some(c) && st'.checkpoint == st.checkpoint && st'.base == st.base)
    && (forall l :: l in st'.late && l.c == c ==> l in st.late)
  }

  lemma EventsStay(st: State, st': State, n: nat)
    requires st.log <= st'.log && n <= |st.log|
    ensures EventAt(st', n) == EventAt(st, n)
  {
  }

  lemma SafeStays(st: State, st': State, n: nat)
    requires Grows(st, st') && n <= |st.log| && Safe(st, n)
    ensures Safe(st', n)
  {
    EventsStay(st, st', n);
  }

  lemma SessionStays(st: State, st': State, k: Collector)
    requires Grows(st, st') && InSession(k) && BufferOk(st, k) && ActOk(st, k)
    ensures BufferOk(st', k) && ActOk(st', k)
  {
    forall r | r in k.buffer ensures r == EventAt(st', r.at) {
      var i :| 0 <= i < |k.buffer| && k.buffer[i] == r;
      assert Ats(k.buffer)[i] <= k.mark;
      EventsStay(st, st', r.at);
    }
    if k.act.Committing? {
      forall n: nat | Floor(k) < n <= k.act.upTo ensures Safe(st', n) {
        SafeStays(st, st', n);
      }
    }
  }

  lemma StoreStays(st: State, st': State, c: Id, k: Collector)
    requires Grows(st, st') && LeaseKept(st, st', c) && StoreOk(st, c, k)
    ensures StoreOk(st', c, k)
  {
  }

  /** A collector that does nothing stays in order whatever the others do. */
  lemma CollectorStays(st: State, st': State, c: Id, k: Collector)
    requires Grows(st, st') && LeaseKept(st, st', c) && CollectorOk(st, c, k)
    ensures CollectorOk(st', c, k)
  {
    StoreStays(st, st', c, k);
    if InSession(k) { SessionStays(st, st', k); }
  }

  lemma OthersStay(st: State, st': State, c: Id)
    requires Inv(st) && Grows(st, st')
    requires forall d :: d in st'.collectors && d != c ==> d in st.collectors && st'.collectors[d] == st.collectors[d]
    requires forall d :: d in st'.collectors && d != c ==> LeaseKept(st, st', d)
    ensures forall d :: d in st'.collectors && d != c ==> CollectorOk(st', d, st'.collectors[d])
  {
    forall d | d in st'.collectors && d != c ensures CollectorOk(st', d, st'.collectors[d]) {
      assert CollectorOk(st, d, st.collectors[d]);
      CollectorStays(st, st', d, st.collectors[d]);
    }
  }

  lemma CoversStays(st: State, st': State, start: nat, upTo: nat)
    requires Grows(st, st') && Covers(st, start, upTo)
    ensures Covers(st', start, upTo)
  {
    forall n: nat | start < n <= upTo ensures Safe(st', n) {
      SafeStays(st, st', n);
    }
  }

  /** The commits under way stay in order if none is added and no sender gets the
      lease back. */
  lemma LateStays(st: State, st': State)
    requires LateOk(st) && Grows(st, st') && st'.base == st.base
    requires forall l :: l in st'.late ==> l in st.late && l.c in st'.collectors
    requires forall l :: l in st'.late && st'.lease == Some(l.c) ==> st.lease == st'.lease
    ensures LateOk(st')
  {
    forall l | l in st'.late && st'.lease == Some(l.c) ensures Covers(st', BaseOr(st', l.start), l.upTo) {
      CoversStays(st, st', BaseOr(st, l.start), l.upTo);
    }
  }

  lemma StoredStays(st: State, st': State)
    requires StoredOk(st) && Grows(st, st')
    requires st'.checkpoint == st.checkpoint && st'.base == st.base && st'.peak == st.peak
    requires st'.lease.Some? ==> st'.lease.value in st'.collectors
    requires forall l :: l in st'.late ==> l in st.late && l.c in st'.collectors
    requires forall l :: l in st'.late && st'.lease == Some(l.c) ==> st.lease == st'.lease
    ensures StoredOk(st')
  {
    if st.base.Some? {
      CoversStays(st, st', st.base.value, st.peak);
    }
    LateStays(st, st');
  }

  lemma ArchiveStays(st: State, st': State)
    requires ArchiveOk(st) && Grows(st, st')
    requires st'.archived == st.archived && st'.booted == st.booted
    ensures ArchiveOk(st')
  {
    forall r | r in st.archived ensures r == EventAt(st', r.at) {
      EventsStay(st, st', r.at);
    }
    forall n | n in st.booted ensures EventAt(st', n) in st'.archived {
      EventsStay(st, st', n);
    }
    if st'.skipped == {} {
      assert st.skipped == {};
    }
  }

  /** A move that changes only the mover's own record. */
  lemma LocalMove(st: State, c: Id, k: Collector)
    requires Inv(st) && CollectorOk(st, c, k)
    ensures Inv(With(st, c, k))
  {
    var st' := With(st, c, k);
    CollectorStays(st, st', c, k);
    OthersStay(st, st', c);
    StoredStays(st, st');
    ArchiveStays(st, st');
  }

  // ------------------------------------------------------------------ environment

  lemma EnvInv(st: State, event: Event)
    requires Inv(st) && Enabled(st, Env(event)) && Sane(st) && !event.Arrive?
    ensures Inv(Apply(st, Env(event)))
  {
    var st' := Apply(st, Env(event));
    forall c | c in st'.collectors ensures CollectorOk(st', c, st'.collectors[c]) {
      assert CollectorOk(st, c, st.collectors[c]);
      CollectorStays(st, st', c, st.collectors[c]);
    }
    StoredStays(st, st');
    ArchiveStays(st, st');
  }

  // ------------------------------------------------------------- starting a session

  lemma StartInv(st: State, c: Id, bootstrap: Bootstrap)
    requires Inv(st) && c !in st.collectors
    ensures Inv(With(st, c, Fresh(bootstrap)))
  {
    assert forall l :: l in st.late ==> l.c != c;
    assert CollectorOk(st, c, Fresh(bootstrap));
    LocalMove(st, c, Fresh(bootstrap));
  }

  lemma AcquireInv(st: State, c: Id)
    requires Inv(st) && c in st.collectors && st.lease.None?
    requires st.collectors[c].phase.Waiting?
    ensures Inv(With(st, c, st.collectors[c].(phase := Leased)).(lease := Some(c)))
  {
    var k := st.collectors[c];
    assert CollectorOk(st, c, k);
    var st' := With(st, c, k.(phase := Leased)).(lease := Some(c));
    assert CollectorOk(st', c, k.(phase := Leased));
    assert forall l :: l in st'.late ==> st'.lease != Some(l.c);
    OthersStay(st, st', c);
    StoredStays(st, st');
    ArchiveStays(st, st');
  }

  lemma LoadedOk(st: State, c: Id, k: Collector)
    requires CollectorOk(st, c, k) && k.phase.Leased? && CheckpointOk(st)
    ensures CollectorOk(st, c, AfterLoad(st, k))
  {
  }

  /** What the holder knows stays true through a move that commits nothing. */
  lemma HolderKept(st: State, c: Id, k: Collector, k': Collector)
    requires HolderOk(st, c, k) && k'.committed == k.committed
    requires k.act.Committing? ==> k'.act == k.act && k'.link.start == k.link.start
    requires k'.act.Committing? && !k.act.Committing? && k.committed.Some? ==> k.committed.value <= k'.act.upTo
    ensures HolderOk(st, c, k')
  {
  }

  lemma StoreKept(st: State, c: Id, k: Collector, k': Collector)
    requires StoreOk(st, c, k) && k'.committed == k.committed && Loaded(k)
    requires Loaded(k') || k'.phase.Stopped?
    requires Loaded(k') && k.act.Committing? ==> k'.act == k.act && k'.link.start == k.link.start
    requires k'.act.Committing? && !k.act.Committing? && k.committed.Some? ==> k.committed.value <= k'.act.upTo
    ensures StoreOk(st, c, k')
  {
    if Loaded(k') && st.lease == Some(c) {
      HolderKept(st, c, k, k');
    }
  }

  lemma SubscribedSession(st: State, k: Collector)
    requires 1 <= st.oldest <= |st.log| + 1 && ConfigOk(st.cfg) && Granted(st, k).Some?
    ensures var k' := AfterSubscribe(st, k);
            k'.link.cursor <= |st.log| && BufferOk(st, k') && StreamOk(st, k') && FlowOk(st, k')
  {
    var k' := AfterSubscribe(st, k);
    assert Ats(k'.buffer) + Inbox(k') == [];
  }

  lemma SubscribedOk(st: State, c: Id, k: Collector)
    requires CollectorOk(st, c, k) && k.phase.Between? && 1 <= st.oldest <= |st.log| + 1 && ConfigOk(st.cfg)
    ensures CollectorOk(st, c, AfterSubscribe(st, k))
  {
    StoreKept(st, c, k, AfterSubscribe(st, k));
    if Granted(st, k).Some? {
      SubscribedSession(st, k);
    }
  }
}
