/**
 The stream archiving protocol as a step system: one topic, one fenced
 checkpoint store, one append-only archive, and any number of collectors, each a
 process with its own owner token. Every step is something one party does
 atomically; everything between two steps can interleave with everybody else.
 */
module Protocol {
  import opened Common
  import opened Grouping
  import opened Topic

  /** The owner token of one collector process. A restart gets a new token. */
  type Id = nat

  /** initialReplay: empty, EARLIEST or LATEST. */
  datatype Bootstrap = Refuse | Earliest | Latest

  datatype Config = Config(appetite: nat, maxEvents: nat, perResponse: nat)

  const MAX_APPETITE: nat := 100

  /** Defaults of the options; the bounds every collector runs with. */
  function Normalised(appetite: int, maxEvents: int, perResponse: nat): (cfg: Config)
    ensures 1 <= cfg.appetite <= MAX_APPETITE && 1 <= cfg.maxEvents
    ensures cfg.appetite == appetite <==> 1 <= appetite <= MAX_APPETITE
    ensures !(1 <= appetite <= MAX_APPETITE) ==> cfg.appetite == MAX_APPETITE
    ensures 1 <= maxEvents ==> cfg.maxEvents == maxEvents
    ensures maxEvents <= 0 ==> cfg.maxEvents == 1000
    ensures cfg.perResponse == perResponse
  {
    var a := if appetite <= 0 then MAX_APPETITE else appetite;
    Config(if a > MAX_APPETITE then MAX_APPETITE else a,
           if maxEvents <= 0 then 1000 else maxEvents,
           perResponse)
  }

  /** One subscription stream: where it started, the server's cursor and unmet
      demand, responses and fetch requests on the wire. */
  datatype Link = Link(start: nat, cursor: nat, owed: nat, wire: seq<Response>, asked: seq<nat>)

  /** Where the collector's control is. Handling, Pinning, Keeping and ToppingUp are
      the stages of working off one response. */
  datatype Phase =
    | Waiting
    | Leased
    | Between
    | Select
    | Handling(inbox: seq<nat>, resp: Response)
    | Pinning(resp: Response)
    | Keeping(resp: Response)
    | ToppingUp
    | Closing(shutdown: bool)
    | Stopped

  /** A flush or a keepalive commit in progress. */
  datatype Act =
    | NoAct
    | Writing(todo: seq<string>)
    | Committing(upTo: nat, keepalive: bool)

  datatype Collector = Collector(
    bootstrap: Bootstrap,
    phase: Phase,
    act: Act,
    committed: Option<nat>,
    buffer: seq<Record>,
    pending: nat,
    mark: nat,          // newest replay ID received in this session
    link: Link)

  /** A commit that was not reported to its sender: how far it moves the checkpoint,
      and where the sender's session started. It may reach the store at any time
      later, or again if it was sent more than once. */
  datatype Late = Late(c: Id, upTo: nat, start: nat)

  /** `skipped`, `booted`, `base` and `peak` are bookkeeping nobody reads: what the
      server jumped over, what was archived by collectors that had no checkpoint
      yet, the start of the session that made the first commit, and the highest
      checkpoint ever stored. */
  datatype State = State(
    cfg: Config,
    log: seq<string>,
    oldest: nat,
    lease: Option<Id>,
    checkpoint: Option<nat>,
    archived: set<Record>,
    collectors: map<Id, Collector>,
    skipped: set<nat>,
    booted: set<nat>,
    base: Option<nat>,
    peak: nat,
    late: set<Late>)

  /** What the environment does. */
  datatype Event =
    | Publish(kinds: seq<string>)
    | Trim(oldest: nat)
    | Expire
    | Arrive(commit: Late)

  /** What happens to one collector: its own actions and, for its open stream, the
      server's. A write may store without reporting it and a commit may reach the
      store without reporting it. */
  datatype Move =
    | Start(bootstrap: Bootstrap)
    | Acquire
    | Load
    | Subscribe
    | ServerTake
    | ServerRespond(taken: nat, later: nat)
    | Receive
    | Decode
    | Advance
    | StartFlush
    | WriteGroup(stored: bool, writeReported: bool)
    | TryCommit(reached: bool, commitReported: bool)
    | EndSession(shutdown: bool)
    | Stop
    | Release

  datatype Step = Env(event: Event) | By(c: Id, move: Move)

  const NO_LINK := Link(0, 0, 0, [], [])

  function Initial(cfg: Config): State {
    State(cfg, [], 1, None, None, {}, map[], {}, {}, None, 0, {})
  }

  function Sum(s: seq<nat>): nat {
    if s == [] then 0 else s[0] + Sum(s[1..])
  }

  /** The position a session resumes from until its next commit. */
  function Floor(k: Collector): nat {
    if k.committed.Some? then k.committed.value else k.link.start
  }

  function EventAt(st: State, n: nat): Record {
    Record(n, if 1 <= n <= |st.log| then st.log[n - 1] else "")
  }

  predicate Live(phase: Phase) {
    phase.Select? || phase.Handling? || phase.Pinning? || phase.Keeping? || phase.ToppingUp?
  }

  function With(st: State, c: Id, k: Collector): State {
    st.(collectors := st.collectors[c := k])
  }

  function Halted(k: Collector): Collector {
    k.(phase := Stopped, act := NoAct, buffer := [])
  }

  /** Whether a keepalive response may move the checkpoint. */
  predicate MayKeep(k: Collector, resp: Response) {
    resp.events == [] && k.buffer == [] && resp.left > 0
  }

  function OfferFlush(k: Collector): Collector {
    k.(act := Writing(Kinds(k.buffer)))
  }

  function Next(todo: seq<string>, k: Collector): Act {
    if todo == [] && k.buffer != [] then Committing(k.buffer[|k.buffer| - 1].at, false) else Writing(todo)
  }

  // ------------------------------------------------------- each collector's moves

  /** The cursor the server grants: the checkpoint if there is one, else the
      configured end of the retained window; None when the checkpoint is rejected. */
  function Granted(st: State, k: Collector): Option<nat>
    requires 1 <= st.oldest
  {
    match k.committed
    case Some(x) => if x + 1 < st.oldest || x >= |st.log| + 1 then None else Some(x)
    case None => Some(if k.bootstrap.Earliest? then st.oldest - 1 else |st.log|)
  }

  function AfterLoad(st: State, k: Collector): Collector {
    if st.checkpoint.None? && k.bootstrap.Refuse? then Halted(k)
    else k.(phase := Between, committed := st.checkpoint)
  }

  function AfterSubscribe(st: State, k: Collector): Collector
    requires 1 <= st.oldest
  {
    match Granted(st, k)
    case None => Halted(k)
    case Some(x) =>
      k.(phase := Select, act := NoAct, buffer := [], pending := st.cfg.appetite, mark := x,
         link := Link(x, x, st.cfg.appetite, [], []))
  }

  function AfterTake(k: Collector): Collector
    requires k.link.asked != []
  {
    k.(link := k.link.(owed := k.link.owed + k.link.asked[0], asked := k.link.asked[1..]))
  }

  function AfterReceive(k: Collector): Collector
    requires k.link.wire != []
  {
    var resp := k.link.wire[0];
    k.(phase := Handling(resp.events, resp), mark := resp.latest, link := k.link.(wire := k.link.wire[1..]))
  }

  /** Decoding moves one event from the response to the buffer. */
  function Decoded(st: State, k: Collector): Collector
    requires k.phase.Handling? && k.phase.inbox != [] && k.pending > 0
  {
    k.(phase := Handling(k.phase.inbox[1..], k.phase.resp),
       buffer := k.buffer + [EventAt(st, k.phase.inbox[0])], pending := k.pending - 1)
  }

  /** A full buffer is flushed before the next event is decoded. */
  function AfterDecode(st: State, k: Collector): Collector
    requires k.phase.Handling? && k.phase.inbox != [] && k.pending > 0
  {
    var k' := Decoded(st, k);
    if |k'.buffer| >= st.cfg.maxEvents then OfferFlush(k') else k'
  }

  function AfterAdvance(st: State, k: Collector): Collector {
    match k.phase
    case Handling(inbox, resp) =>
      if inbox != [] then k
      else if k.committed.None? && k.buffer != [] then OfferFlush(k.(phase := Pinning(resp)))
      else k.(phase := Pinning(resp))
    case Pinning(resp) =>
      if MayKeep(k, resp) then k.(phase := Keeping(resp), act := Committing(resp.latest, true))
      else k.(phase := ToppingUp)
    case ToppingUp =>
      if k.pending <= st.cfg.appetite / 2 then
        var more := st.cfg.appetite - k.pending;
        k.(phase := Select, pending := k.pending + more, link := k.link.(asked := k.link.asked + [more]))
      else k.(phase := Select)
    case Closing(shutdown) =>
      if k.buffer != [] then OfferFlush(k)
      else if shutdown then Halted(k)
      else k.(phase := Between)
    case _ => k
  }

  function AfterCommit(k: Collector): Collector
    requires k.act.Committing?
  {
    if k.act.keepalive then k.(committed := Some(k.act.upTo), act := NoAct, phase := ToppingUp)
    else k.(committed := Some(k.act.upTo), act := NoAct, buffer := [])
  }

  // -------------------------------------------------------------------- stepping

  predicate CanAdvance(k: Collector) {
    && k.act.NoAct?
    && match k.phase
       case Handling(inbox, _) => inbox == []
       case Pinning(_) => true
       case ToppingUp => true
       case Closing(_) => true
       case _ => false
  }

  /** A session can end while waiting, on an event whose schema cannot be fetched,
      or on a failed fetch request. */
  predicate CanEnd(k: Collector) {
    k.act.NoAct? && (k.phase.Select? || k.phase.Handling? || k.phase.ToppingUp?)
  }

  predicate CanDecode(k: Collector) {
    match k.phase
    case Handling(inbox, _) => k.act.NoAct? && inbox != [] && k.pending > 0
    case _ => false
  }

  predicate CanWrite(k: Collector) {
    match k.act
    case Writing(todo) => todo != []
    case _ => false
  }

  /** When a move of an existing collector is possible. */
  predicate Ready(st: State, k: Collector, move: Move) {
    match move
    case Start(_) => false
    case Acquire => k.phase.Waiting? && st.lease.None?
    case Load => k.phase.Leased?
    case Subscribe => k.phase.Between?
    case ServerTake => Live(k.phase) && k.link.asked != []
    case ServerRespond(taken, later) => Live(k.phase) && taken + later <= |k.link.asked|
    case Receive => k.phase.Select? && k.act.NoAct? && k.link.wire != []
    case Decode => CanDecode(k)
    case Advance => CanAdvance(k)
    case StartFlush => k.phase.Select? && k.act.NoAct? && k.buffer != []
    case WriteGroup(stored, reported) => CanWrite(k) && (reported ==> stored)
    case TryCommit(reached, reported) => k.act.Committing? && (reported ==> reached)
    case EndSession(_) => CanEnd(k)
    case Stop => true
    case Release => k.phase.Stopped?
  }

  predicate Enabled(st: State, step: Step) {
    match step
    case Env(Publish(_)) => true
    case Env(Trim(oldest)) => st.oldest <= oldest <= |st.log| + 1
    case Env(Expire) => true
    case Env(Arrive(commit)) => commit in st.late
    case By(c, move) =>
      if move.Start? then c !in st.collectors
      else c in st.collectors && Ready(st, st.collectors[c], move)
  }

  /** One delivery round for a collector. The first `taken` fetch requests on the wire
      arrive before a keepalive reads the demand again, the next `later` of them
      before the response does. */
  function AfterRespond(st: State, c: Id, taken: nat, later: nat): State
    requires 1 <= st.oldest && c in st.collectors
    requires st.collectors[c].link.cursor <= |st.log| && taken + later <= |st.collectors[c].link.asked|
  {
    var k := st.collectors[c];
    var late := Sum(k.link.asked[..taken]);
    var more := Sum(k.link.asked[taken..taken + later]);
    var r := Respond(st.oldest, |st.log|, k.link.cursor, k.link.owed, late, more, st.cfg.perResponse);
    var link := k.link.(cursor := r.cursor, owed := r.owed, wire := k.link.wire + [r.resp],
                        asked := k.link.asked[taken + later..]);
    With(st, c, k.(link := link))
    .(skipped := st.skipped + Jumped(st.oldest, |st.log|, k.link.cursor, k.link.owed, late, st.cfg.perResponse))
  }

  function AfterWrite(st: State, c: Id, stored: bool, reported: bool): State
    requires c in st.collectors && st.collectors[c].act.Writing? && st.collectors[c].act.todo != []
  {
    var k := st.collectors[c];
    var group := OfKind(k.buffer, k.act.todo[0]);
    var st' := if !stored then st
               else st.(archived := st.archived + (set r | r in group),
                        booted := if k.committed.None? then st.booted + (set r | r in group :: r.at) else st.booted);
    if !reported then st'
    else With(st', c, k.(act := Next(k.act.todo[1..], k)))
  }

  /** The store after the commit script has matched the sender's owner token. */
  function Accepted(st: State, commit: Late): State {
    st.(checkpoint := Some(commit.upTo),
        base := if st.base.None? then Some(commit.start) else st.base,
        peak := Max(st.peak, commit.upTo))
  }

  /** The commit script: compare the owner, then write, in one step. */
  function AfterArrive(st: State, commit: Late): State {
    if st.lease == Some(commit.c) then Accepted(st, commit) else st
  }

  /** What a collector sends to the store when it commits. */
  function Sent(c: Id, k: Collector): Late
    requires k.act.Committing?
  {
    Late(c, k.act.upTo, k.link.start)
  }

  /** One attempt to commit. If nothing is reported it may still be on its way. */
  function AfterTryCommit(st: State, c: Id, reached: bool, reported: bool): State
    requires c in st.collectors && st.collectors[c].act.Committing?
  {
    var k := st.collectors[c];
    var st' := if reached then AfterArrive(st, Sent(c, k)) else st;
    if !reported then st'.(late := st.late + {Sent(c, k)})
    else if st.lease == Some(c) then With(st', c, AfterCommit(k))
    else With(st', c, Halted(k))
  }

  /** A collector process that has just started. */
  function Fresh(bootstrap: Bootstrap): Collector {
    Collector(bootstrap, Waiting, NoAct, None, [], 0, 0, NO_LINK)
  }

  /** The states in which the server's arithmetic makes sense. */
  predicate Sane(st: State) {
    1 <= st.oldest && forall c :: c in st.collectors ==> st.collectors[c].link.cursor <= |st.log|
  }

  /** Moves that touch nothing but the mover's own record. */
  predicate Own(move: Move) {
    match move
    case Load => true
    case Subscribe => true
    case ServerTake => true
    case Receive => true
    case Decode => true
    case Advance => true
    case StartFlush => true
    case EndSession(_) => true
    case Stop => true
    case _ => false
  }

  function AfterOwn(st: State, k: Collector, move: Move): Collector
    requires 1 <= st.oldest && Own(move) && Ready(st, k, move)
  {
    match move
    case Load => AfterLoad(st, k)
    case Subscribe => AfterSubscribe(st, k)
    case ServerTake => AfterTake(k)
    case Receive => AfterReceive(k)
    case Decode => AfterDecode(st, k)
    case Advance => AfterAdvance(st, k)
    case StartFlush => OfferFlush(k)
    case EndSession(shutdown) => k.(phase := Closing(shutdown))
    case Stop => Halted(k)
  }

  function AfterMove(st: State, c: Id, move: Move): State
    requires Sane(st) && c in st.collectors && Ready(st, st.collectors[c], move)
  {
    var k := st.collectors[c];
    if Own(move) then With(st, c, AfterOwn(st, k, move))
    else
      match move
      case Acquire => With(st, c, k.(phase := Leased)).(lease := Some(c))
      case ServerRespond(taken, later) => AfterRespond(st, c, taken, later)
      case WriteGroup(stored, reported) => AfterWrite(st, c, stored, reported)
      case TryCommit(reached, reported) => AfterTryCommit(st, c, reached, reported)
      case Release => if st.lease == Some(c) then st.(lease := None) else st
  }

  function Apply(st: State, step: Step): State
    requires Sane(st) && Enabled(st, step)
  {
    match step
    case Env(Publish(kinds)) => st.(log := st.log + kinds)
    case Env(Trim(oldest)) => st.(oldest := oldest)
    case Env(Expire) => st.(lease := None)
    case Env(Arrive(commit)) => AfterArrive(st, commit)
    case By(c, move) =>
      if move.Start? then
        With(st, c, Fresh(move.bootstrap))
      else AfterMove(st, c, move)
  }
}
