/**
 What the protocol guarantees over whole runs: no loss, fencing, bounded
 re-archiving, conservation of demand, and exactness of the buffer.
 */
module ProtocolTheorems {
  import opened Common
  import opened Topic
  import opened Protocol
  import opened ProtocolInvariant
  import opened ProtocolMoves
  import opened ProtocolCommits

  /** A list of steps, each possible when its turn comes. */
  ghost predicate Possible(st: State, steps: seq<Step>)
    decreases |steps|
  {
    steps == [] ||
    (Sane(st) && Enabled(st, steps[0]) && Possible(Apply(st, steps[0]), steps[1..]))
  }

  ghost function Run(st: State, steps: seq<Step>): State
    requires Possible(st, steps)
    decreases |steps|
  {
    if steps == [] then st else Run(Apply(st, steps[0]), steps[1..])
  }

  lemma {:induction false} RunInv(st: State, steps: seq<Step>)
    requires Inv(st) && Possible(st, steps)
    ensures Inv(Run(st, steps))
    decreases |steps|
  {
    if steps != [] {
      StepInv(st, steps[0]);
      RunInv(Apply(st, steps[0]), steps[1..]);
    }
  }

  lemma {:induction false} RunAppend(st: State, steps: seq<Step>, step: Step)
    requires Possible(st, steps) && Sane(Run(st, steps)) && Enabled(Run(st, steps), step)
    ensures Possible(st, steps + [step]) && Run(st, steps + [step]) == Apply(Run(st, steps), step)
    decreases |steps|
  {
    if steps == [] {
      assert [] + [step] == [step] && [step][1..] == [];
      assert Possible(Apply(st, step), []);
    } else {
      RunAppend(Apply(st, steps[0]), steps[1..], step);
      assert (steps + [step])[1..] == steps[1..] + [step];
    }
  }

  // ------------------------------------------------------------------------ no loss

  /** Over every run, from the start of the session that made the first commit up
      to the stored checkpoint, and even up to the highest one ever stored, each
      event is in the archive as published, unless the server itself jumped over it. */
  lemma NoLoss(cfg: Config, steps: seq<Step>)
    requires ConfigOk(cfg) && Possible(Initial(cfg), steps)
    ensures var st := Run(Initial(cfg), steps);
            st.checkpoint.Some? ==>
              && st.base.Some? && st.base.value <= st.checkpoint.value <= st.peak <= |st.log|
              && forall n :: st.base.value < n <= st.peak ==>
                   EventAt(st, n) in st.archived || n in st.skipped
  {
    InitialInv(cfg);
    RunInv(Initial(cfg), steps);
    var st := Run(Initial(cfg), steps);
    if st.checkpoint.Some? {
      forall n: nat | st.base.value < n <= st.peak
        ensures EventAt(st, n) in st.archived || n in st.skipped
      {
        assert Safe(st, n);
      }
    }
  }

  /** Whether one step is free of the server's two races. */
  ghost predicate SoundStep(st: State, step: Step)
    requires Sane(st) && Enabled(st, step)
  {
    match step
    case Env(_) => true
    case By(c, move) =>
      match move
      case ServerRespond(taken, later) =>
        var link := st.collectors[c].link;
        Sound(st.oldest, |st.log|, link.cursor, link.owed, Sum(link.asked[..taken]), st.cfg.perResponse)
      case _ => true
  }

  ghost predicate SoundRun(st: State, steps: seq<Step>)
    requires Possible(st, steps)
    decreases |steps|
  {
    steps == [] || (SoundStep(st, steps[0]) && SoundRun(Apply(st, steps[0]), steps[1..]))
  }

  lemma SoundStepSkips(st: State, step: Step)
    requires Sane(st) && Enabled(st, step)
    ensures Apply(st, step).skipped == {} <==> st.skipped == {} && SoundStep(st, step)
  {
    if step.By? && step.move.ServerRespond? {
      var link := st.collectors[step.c].link;
      var late := Sum(link.asked[..step.move.taken]);
      RespondGapFree(st.oldest, |st.log|, link.cursor, link.owed, late, st.cfg.perResponse);
    }
  }

  lemma {:induction false} SoundRunSkips(st: State, steps: seq<Step>)
    requires Possible(st, steps)
    ensures Run(st, steps).skipped == {} <==> st.skipped == {} && SoundRun(st, steps)
    decreases |steps|
  {
    if steps != [] {
      SoundStepSkips(st, steps[0]);
      SoundRunSkips(Apply(st, steps[0]), steps[1..]);
    }
  }

  /** A run jumps over nothing exactly when every server round in it is sound, and
      then the archive holds every event up to the checkpoint. */
  lemma NoLossWhenSound(cfg: Config, steps: seq<Step>)
    requires ConfigOk(cfg) && Possible(Initial(cfg), steps)
    ensures var st := Run(Initial(cfg), steps);
            && (st.skipped == {} <==> SoundRun(Initial(cfg), steps))
            && (SoundRun(Initial(cfg), steps) && st.checkpoint.Some? ==>
                  st.base.Some? &&
                  forall n :: st.base.value < n <= st.peak ==> EventAt(st, n) in st.archived)
  {
    NoLoss(cfg, steps);
    SoundRunSkips(Initial(cfg), steps);
  }

  /** The archive never holds anything that was not published. */
  lemma NothingInvented(cfg: Config, steps: seq<Step>)
    requires ConfigOk(cfg) && Possible(Initial(cfg), steps)
    ensures var st := Run(Initial(cfg), steps);
            forall r :: r in st.archived ==> 1 <= r.at <= |st.log| && r.kind == st.log[r.at - 1]
  {
    InitialInv(cfg);
    RunInv(Initial(cfg), steps);
  }

  // ------------------------------------------------------- nothing is taken back

  /** Moves other than commits leave the stored part alone or add to it. */
  lemma SharedGrows(st: State, c: Id, move: Move)
    requires Sane(st) && c in st.collectors && Ready(st, st.collectors[c], move)
    requires !Own(move) && !move.TryCommit?
    ensures Grows(st, AfterMove(st, c, move)) && AfterMove(st, c, move).checkpoint == st.checkpoint
  {
  }

  /** No step takes anything back: the log, the archive and the highest checkpoint
      only grow, and the base is fixed by the first commit. */
  lemma StepGrows(st: State, step: Step)
    requires Inv(st) && Sane(st) && Enabled(st, step)
    ensures Grows(st, Apply(st, step))
  {
    if step.By? && !step.move.Start? && !Own(step.move) && !step.move.TryCommit? {
      SharedGrows(st, step.c, step.move);
    }
  }

  lemma GrowsTransitive(a: State, b: State, c: State)
    requires Grows(a, b) && Grows(b, c)
    ensures Grows(a, c)
  {
  }

  lemma {:induction false} RunGrows(st: State, steps: seq<Step>)
    requires Inv(st) && Possible(st, steps)
    ensures Grows(st, Run(st, steps))
    decreases |steps|
  {
    if steps != [] {
      var next := Apply(st, steps[0]);
      StepGrows(st, steps[0]);
      StepInv(st, steps[0]);
      RunGrows(next, steps[1..]);
      GrowsTransitive(st, next, Run(next, steps[1..]));
    }
  }

  // ------------------------------------------------- when the checkpoint goes back

  predicate Behind(st': State, st: State) {
    st.checkpoint.Some? && (st'.checkpoint.None? || st'.checkpoint.value < st.checkpoint.value)
  }

  /** A commit its sender has retried and gone beyond arrives late, while the sender
      still holds the lease. */
  predicate Overtaken(st: State, step: Step) {
    match step
    case Env(Arrive(commit)) =>
      st.lease == Some(commit.c) && st.checkpoint.Some? && commit.upTo < st.checkpoint.value
    case _ => false
  }

  /** A collector's own attempt to commit never moves the checkpoint back. */
  lemma CommitNotBehind(st: State, c: Id, reached: bool, reported: bool)
    requires Inv(st) && c in st.collectors && st.collectors[c].act.Committing?
    ensures !Behind(AfterTryCommit(st, c, reached, reported), st)
  {
    assert CollectorOk(st, c, st.collectors[c]);
    if st.lease == Some(c) && st.checkpoint.Some? {
      assert HolderOk(st, c, st.collectors[c]);
    }
  }

  /** A step moves the checkpoint back exactly when an overtaken commit arrives. */
  lemma StepGoesBack(st: State, step: Step)
    requires Inv(st) && Sane(st) && Enabled(st, step)
    ensures Behind(Apply(st, step), st) <==> Overtaken(st, step)
  {
    if step.By? && !step.move.Start? && !Own(step.move) {
      if step.move.TryCommit? {
        CommitNotBehind(st, step.c, step.move.reached, step.move.commitReported);
      } else {
        SharedGrows(st, step.c, step.move);
      }
    }
  }

  ghost predicate NoneOvertaken(st: State, steps: seq<Step>)
    requires Possible(st, steps)
    decreases |steps|
  {
    steps == [] || (!Overtaken(st, steps[0]) && NoneOvertaken(Apply(st, steps[0]), steps[1..]))
  }

  ghost predicate NeverBehind(st: State, steps: seq<Step>)
    requires Possible(st, steps)
    decreases |steps|
  {
    steps == [] || (!Behind(Apply(st, steps[0]), st) && NeverBehind(Apply(st, steps[0]), steps[1..]))
  }

  /** From any reachable state on, no step of a run moves the stored checkpoint
      backwards exactly when no overtaken commit arrives in it; and then it stands
      at least where it stood. */
  lemma {:induction false} CheckpointNeverMovesBack(st: State, steps: seq<Step>)
    requires Inv(st) && Possible(st, steps)
    ensures NeverBehind(st, steps) <==> NoneOvertaken(st, steps)
    ensures NoneOvertaken(st, steps) ==> !Behind(Run(st, steps), st)
    decreases |steps|
  {
    if steps != [] {
      StepGoesBack(st, steps[0]);
      StepInv(st, steps[0]);
      CheckpointNeverMovesBack(Apply(st, steps[0]), steps[1..]);
    }
  }

  /** The checkpoint is the highest ever stored. */
  predicate AtPeak(st: State) {
    st.checkpoint.Some? ==> st.checkpoint.value == st.peak
  }

  lemma CommitAtPeak(st: State, c: Id, reached: bool, reported: bool)
    requires Inv(st) && c in st.collectors && st.collectors[c].act.Committing? && AtPeak(st)
    ensures AtPeak(AfterTryCommit(st, c, reached, reported))
  {
    CommitNotBehind(st, c, reached, reported);
  }

  lemma StepAtPeak(st: State, step: Step)
    requires Inv(st) && Sane(st) && Enabled(st, step) && AtPeak(st)
    ensures AtPeak(Apply(st, step)) <==> !Overtaken(st, step)
  {
    if step.By? && !step.move.Start? && !Own(step.move) && step.move.TryCommit? {
      CommitAtPeak(st, step.c, step.move.reached, step.move.commitReported);
    }
  }

  lemma {:induction false} RunAtPeak(st: State, steps: seq<Step>)
    requires Inv(st) && Possible(st, steps) && AtPeak(st) && NoneOvertaken(st, steps)
    ensures AtPeak(Run(st, steps))
    decreases |steps|
  {
    if steps != [] {
      StepAtPeak(st, steps[0]);
      StepInv(st, steps[0]);
      RunAtPeak(Apply(st, steps[0]), steps[1..]);
    }
  }

  // ------------------------------------------------------------------------ fencing

  /** c has had the lease and no longer has it. */
  ghost predicate FencedOut(st: State, c: Id) {
    c in st.collectors && !st.collectors[c].phase.Waiting? && st.lease != Some(c)
  }

  lemma OwnNeverWaits(st: State, k: Collector, move: Move)
    requires 1 <= st.oldest && Own(move) && Ready(st, k, move) && !k.phase.Waiting?
    ensures !AfterOwn(st, k, move).phase.Waiting?
  {
  }

  lemma FencedMove(st: State, d: Id, move: Move, c: Id)
    requires Inv(st) && Sane(st) && d in st.collectors && Ready(st, st.collectors[d], move) && FencedOut(st, c)
    ensures FencedOut(AfterMove(st, d, move), c)
    ensures d == c ==> AfterMove(st, d, move).checkpoint == st.checkpoint
  {
    if Own(move) {
      if d == c { OwnNeverWaits(st, st.collectors[d], move); }
    } else {
      match move {
        case Acquire =>
        case ServerRespond(taken, later) =>
        case WriteGroup(stored, reported) =>
        case TryCommit(reached, reported) =>
        case Release =>
      }
    }
  }

  /** A collector's own step, or the late arrival of a commit it once sent. */
  predicate InNameOf(step: Step, c: Id) {
    match step
    case Env(Arrive(commit)) => commit.c == c
    case Env(_) => false
    case By(d, _) => d == c
  }

  lemma FencedStep(st: State, step: Step, c: Id)
    requires Inv(st) && Sane(st) && Enabled(st, step) && FencedOut(st, c)
    ensures FencedOut(Apply(st, step), c)
    ensures InNameOf(step, c) ==> Apply(st, step).checkpoint == st.checkpoint
  {
    if step.By? && !step.move.Start? {
      FencedMove(st, step.c, step.move, c);
    }
  }

  /** An owner that lost the lease never gets it back and never again moves the
      checkpoint, neither by a flush or commit retry nor by a commit of its own that
      arrives late. */
  lemma {:induction false} FencedForGood(st: State, steps: seq<Step>, c: Id, i: nat)
    requires Inv(st) && Possible(st, steps) && FencedOut(st, c) && i < |steps|
    ensures FencedOut(Run(st, steps), c)
    ensures Possible(st, steps[..i]) && Sane(Run(st, steps[..i])) && Enabled(Run(st, steps[..i]), steps[i])
    ensures InNameOf(steps[i], c) ==>
              Apply(Run(st, steps[..i]), steps[i]).checkpoint == Run(st, steps[..i]).checkpoint
    decreases |steps|
  {
    var next := Apply(st, steps[0]);
    FencedStep(st, steps[0], c);
    StepInv(st, steps[0]);
    if i == 0 {
      assert steps[..0] == [];
      if |steps| > 1 { FencedForGood(next, steps[1..], c, 0); }
    } else {
      FencedForGood(next, steps[1..], c, i - 1);
      assert steps[1..][..i - 1] == steps[..i][1..];
    }
  }

  // ----------------------------------------------------------- bounded re-archiving

  /** Everybody who archives has a stored checkpoint to resume from. */
  ghost predicate Resumed(st: State) {
    && st.checkpoint.Some?
    && forall c :: c in st.collectors && Loaded(st.collectors[c]) ==> st.collectors[c].committed.Some?
  }

  /** No move lets a collector archive without a checkpoint once one is stored. */
  lemma ResumedMover(st: State, c: Id, k: Collector, move: Move)
    requires CollectorOk(st, c, k) && 1 <= st.oldest && st.checkpoint.Some?
    requires Own(move) && Ready(st, k, move) && (Loaded(k) ==> k.committed.Some?)
    ensures Loaded(AfterOwn(st, k, move)) ==> AfterOwn(st, k, move).committed.Some?
  {
  }

  lemma ResumedOther(st: State, c: Id, move: Move)
    requires Sane(st) && c in st.collectors && Ready(st, st.collectors[c], move) && !Own(move)
    requires CollectorOk(st, c, st.collectors[c]) && Resumed(st)
    ensures Resumed(AfterMove(st, c, move)) && AfterMove(st, c, move).booted == st.booted
  {
  }

  lemma ResumedStep(st: State, step: Step)
    requires Inv(st) && Sane(st) && Enabled(st, step) && Resumed(st)
    ensures Resumed(Apply(st, step)) && Apply(st, step).booted == st.booted
  {
    if step.By? && !step.move.Start? {
      assert CollectorOk(st, step.c, st.collectors[step.c]);
      if Own(step.move) {
        ResumedMover(st, step.c, st.collectors[step.c], step.move);
      } else {
        ResumedOther(st, step.c, step.move);
      }
    }
  }

  lemma {:induction false} ResumedRun(st: State, steps: seq<Step>)
    requires Inv(st) && Possible(st, steps) && Resumed(st)
    ensures Resumed(Run(st, steps)) && Run(st, steps).booted == st.booted
    decreases |steps|
  {
    if steps != [] {
      ResumedStep(st, steps[0]);
      StepInv(st, steps[0]);
      ResumedRun(Apply(st, steps[0]), steps[1..]);
    }
  }

  /** Once all collectors resume from a stored checkpoint, whatever is archived from
      then on lies at most one batch beyond the highest checkpoint stored, through
      any number of crashes, stale holders and late commits; and while no overtaken
      commit arrives that is the checkpoint itself. */
  lemma BoundedRearchiving(st: State, steps: seq<Step>)
    requires Inv(st) && Possible(st, steps) && Resumed(st)
    ensures var st' := Run(st, steps);
            && (st'.skipped == {} ==>
                  forall r :: r in st'.archived && r !in st.archived ==> r.at <= st'.peak + st'.cfg.maxEvents)
            && (AtPeak(st) && NoneOvertaken(st, steps) ==> st'.checkpoint == Some(st'.peak))
  {
    var st' := Run(st, steps);
    RunInv(st, steps);
    ResumedRun(st, steps);
    RunGrows(st, steps);
    if AtPeak(st) && NoneOvertaken(st, steps) {
      RunAtPeak(st, steps);
    }
    if st'.skipped == {} {
      forall r | r in st'.archived && r !in st.archived ensures r.at <= st'.peak + st'.cfg.maxEvents {
        if r.at in st.booted {
          EventsStay(st, st', r.at);
          assert EventAt(st, r.at) in st.archived;
        }
      }
    }
  }

  // ------------------------------------------------------- inside a session

  /** Conservation of demand in every session of every run: what the client counts
      as pending is what the server owes, plus the events and the requests under
      way. Every request asks for 1 to Appetite events, and a client that waits has
      more than half its appetite outstanding. */
  lemma DemandConserved(cfg: Config, steps: seq<Step>, c: Id)
    requires ConfigOk(cfg) && Possible(Initial(cfg), steps)
    requires var st := Run(Initial(cfg), steps);
             c in st.collectors && Live(st.collectors[c].phase)
    ensures var st := Run(Initial(cfg), steps);
            var k := st.collectors[c];
            && k.pending == k.link.owed + |Inbox(k)| + Count(k.link.wire) + Sum(k.link.asked)
            && k.pending <= st.cfg.appetite <= MAX_APPETITE
            && (forall i :: 0 <= i < |k.link.asked| ==> 1 <= k.link.asked[i] <= st.cfg.appetite)
            && (k.phase.Select? ==> 2 * k.pending > st.cfg.appetite)
  {
    InitialInv(cfg);
    RunInv(Initial(cfg), steps);
    var st := Run(Initial(cfg), steps);
    assert CollectorOk(st, c, st.collectors[c]);
  }

  /** The events on the wire, in order. */
  function Flat(wire: seq<Response>): seq<nat> {
    if wire == [] then [] else wire[0].events + Flat(wire[1..])
  }

  lemma {:induction false} FlatMembers(wire: seq<Response>, n: nat)
    ensures n in Flat(wire) <==> InWire(wire, n)
  {
    if wire != [] {
      FlatMembers(wire[1..], n);
      InWireHead(wire, n);
    }
  }

  lemma {:induction false} FlatAscending(mark: nat, wire: seq<Response>, cursor: nat)
    requires WireOk(mark, wire, cursor)
    ensures Ascending(Flat(wire)) && Within(Flat(wire), mark, cursor)
    decreases |wire|
  {
    if wire != [] {
      var rest := wire[1..];
      assert forall i :: 0 <= i < |rest| ==> rest[i] == wire[i + 1];
      assert WireOk(wire[0].latest, rest, cursor);
      FlatAscending(wire[0].latest, rest, cursor);
    }
  }

  /** In every reachable session without jumps, the buffer followed by what is
      still being handled and what is on the wire is exactly the run of events
      between the committed position and the server's cursor. */
  lemma BufferExact(st: State, c: Id)
    requires Inv(st) && c in st.collectors && Live(st.collectors[c].phase) && st.skipped == {}
    ensures var k := st.collectors[c];
            Ats(k.buffer) + Inbox(k) + Flat(k.link.wire) == Span(Floor(k), k.link.cursor)
  {
    var k := st.collectors[c];
    assert CollectorOk(st, c, k);
    var front, back := Ats(k.buffer) + Inbox(k), Flat(k.link.wire);
    FlatAscending(k.mark, k.link.wire, k.link.cursor);
    forall n: nat | Floor(k) < n <= k.link.cursor ensures n in front + back {
      FlatMembers(k.link.wire, n);
    }
    AscendingCoverIsSpan(front + back, Floor(k), k.link.cursor);
  }

  /** Whatever ends a session, what is left to flush is the run of events right
      after the committed position. */
  lemma ClosingBufferExact(st: State, c: Id)
    requires Inv(st) && c in st.collectors && InSession(st.collectors[c]) && st.skipped == {}
    ensures var k := st.collectors[c];
            Ats(k.buffer) == Span(Floor(k), Floor(k) + |k.buffer|)
            && |k.buffer| <= st.cfg.maxEvents
            && forall r :: r in k.buffer ==> r == EventAt(st, r.at)
  {
    var k := st.collectors[c];
    assert CollectorOk(st, c, k);
    if k.buffer != [] {
      BufferIsSpan(st, k);
    }
  }

  /** The cursor a session is granted is what the topic server answers to the
      preset the session sends. */
  lemma GrantedByTopic(st: State, k: Collector)
    requires 1 <= st.oldest && |st.log| < SEQ_LIMIT
    requires k.committed.Some? ==> k.committed.value < SEQ_LIMIT
    ensures Granted(st, k) == StartCursor(st.oldest, |st.log|,
              if k.committed.Some? then Custom(ReplayBytes(k.committed.value))
              else if k.bootstrap.Earliest? then EarliestPreset else LatestPreset)
  {
    if k.committed.Some? { ReplayRoundTrip(k.committed.value); }
  }
}
