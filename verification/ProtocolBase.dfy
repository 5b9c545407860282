/**
 Where a run's archive begins: the base that the first commit fixes, in terms of the
 events that were there when the session that made it was opened.
 */
module ProtocolBase {
  import opened Common
  import opened Protocol
  import opened ProtocolInvariant
  import opened ProtocolTheorems

  /** At the i-th step the collector opened a session without a stored position: at
      EARLIEST it is owed every event retained then, at LATEST those published later. */
  ghost predicate OpenedAt(cfg: Config, steps: seq<Step>, i: nat, c: Id, start: nat)
    requires i < |steps|
  {
    && steps[i] == By(c, Subscribe) && Possible(Initial(cfg), steps[..i])
    && var st := Run(Initial(cfg), steps[..i]);
       c in st.collectors && st.collectors[c].committed.None?
       && if st.collectors[c].bootstrap == Earliest then start + 1 == st.oldest else start == |st.log|
  }

  ghost predicate Opened(cfg: Config, steps: seq<Step>, c: Id, start: nat) {
    exists i :: 0 <= i < |steps| && OpenedAt(cfg, steps, i, c, start)
  }

  lemma OpenedStays(cfg: Config, steps: seq<Step>, step: Step, c: Id, start: nat)
    requires Opened(cfg, steps, c, start)
    ensures Opened(cfg, steps + [step], c, start)
  {
    var i :| 0 <= i < |steps| && OpenedAt(cfg, steps, i, c, start);
    assert (steps + [step])[..i] == steps[..i];
    assert (steps + [step])[i] == steps[i];
    assert OpenedAt(cfg, steps + [step], i, c, start);
  }

  /** Every session without a stored position, every commit under way while nothing is
      stored, and the base itself begin where some session was opened. */
  ghost predicate Rooted(cfg: Config, steps: seq<Step>, st: State) {
    && (forall c :: c in st.collectors && InSession(st.collectors[c]) && st.collectors[c].committed.None? ==>
          Opened(cfg, steps, c, st.collectors[c].link.start))
    && (st.base.None? ==> forall l :: l in st.late ==> Opened(cfg, steps, l.c, l.start))
    && (st.base.Some? ==> exists c :: Opened(cfg, steps, c, st.base.value))
  }

  lemma RootedStays(cfg: Config, steps: seq<Step>, step: Step, st: State)
    requires Rooted(cfg, steps, st)
    ensures Rooted(cfg, steps + [step], st)
  {
    forall c, start | Opened(cfg, steps, c, start) ensures Opened(cfg, steps + [step], c, start) {
      OpenedStays(cfg, steps, step, c, start);
    }
  }

  /** A new session is opened where its collector's choice says. */
  lemma SubscribeOpens(cfg: Config, steps: seq<Step>, st: State, c: Id)
    requires Possible(Initial(cfg), steps) && Run(Initial(cfg), steps) == st
    requires 1 <= st.oldest && c in st.collectors && st.collectors[c].committed.None?
    requires Granted(st, st.collectors[c]).Some?
    ensures Opened(cfg, steps + [By(c, Subscribe)], c, Granted(st, st.collectors[c]).value)
  {
    var more := steps + [By(c, Subscribe)];
    assert more[..|steps|] == steps;
    assert OpenedAt(cfg, more, |steps|, c, Granted(st, st.collectors[c]).value);
  }

  /** Only subscribing begins anew. */
  lemma OwnKeepsStart(st: State, k: Collector, move: Move)
    requires 1 <= st.oldest && Own(move) && Ready(st, k, move) && move != Subscribe
    ensures var k' := AfterOwn(st, k, move);
            InSession(k') && k'.committed.None? ==> InSession(k) && k.committed.None? && k'.link.start == k.link.start
  {
  }

  lemma OneChanged(cfg: Config, steps: seq<Step>, st: State, c: Id, k': Collector)
    requires Rooted(cfg, steps, st)
    requires InSession(k') && k'.committed.None? ==> Opened(cfg, steps, c, k'.link.start)
    ensures Rooted(cfg, steps, With(st, c, k'))
  {
  }

  lemma OwnRooted(cfg: Config, steps: seq<Step>, st: State, c: Id, move: Move)
    requires Possible(Initial(cfg), steps) && Run(Initial(cfg), steps) == st && 1 <= st.oldest
    requires c in st.collectors && Own(move) && Ready(st, st.collectors[c], move)
    requires Rooted(cfg, steps + [By(c, move)], st)
    ensures Rooted(cfg, steps + [By(c, move)], With(st, c, AfterOwn(st, st.collectors[c], move)))
  {
    var k := st.collectors[c];
    if move == Subscribe {
      if k.committed.None? && Granted(st, k).Some? { SubscribeOpens(cfg, steps, st, c); }
    } else {
      OwnKeepsStart(st, k, move);
    }
    OneChanged(cfg, steps + [By(c, move)], st, c, AfterOwn(st, k, move));
  }

  lemma AcceptedRooted(cfg: Config, steps: seq<Step>, st: State, commit: Late)
    requires Rooted(cfg, steps, st) && (st.base.None? ==> Opened(cfg, steps, commit.c, commit.start))
    ensures Rooted(cfg, steps, Accepted(st, commit))
  {
  }

  lemma CommitRooted(cfg: Config, steps: seq<Step>, st: State, c: Id, reached: bool, reported: bool)
    requires Rooted(cfg, steps, st) && c in st.collectors && CollectorOk(st, c, st.collectors[c])
    requires st.collectors[c].act.Committing? && (reported ==> reached)
    ensures Rooted(cfg, steps, AfterTryCommit(st, c, reached, reported))
  {
    var k := st.collectors[c];
    AcceptedRooted(cfg, steps, st, Sent(c, k));
    var st' := if reached then AfterArrive(st, Sent(c, k)) else st;
    if !reported {
      LateRooted(cfg, steps, st', st, Sent(c, k));
    } else {
      OneChanged(cfg, steps, st', c, if st.lease == Some(c) then AfterCommit(k) else Halted(k));
    }
  }

  lemma LateRooted(cfg: Config, steps: seq<Step>, st': State, st: State, commit: Late)
    requires Rooted(cfg, steps, st') && st'.late == st.late
    requires st'.base.None? ==> Opened(cfg, steps, commit.c, commit.start)
    ensures Rooted(cfg, steps, st'.(late := st.late + {commit}))
  {
  }

  /** Moves that leave the sessions' starts, the base and the commits under way alone. */
  lemma OtherRooted(cfg: Config, steps: seq<Step>, st: State, st': State)
    requires Rooted(cfg, steps, st) && st'.base == st.base && st'.late == st.late
    requires forall c :: c in st'.collectors && InSession(st'.collectors[c]) && st'.collectors[c].committed.None? ==>
               c in st.collectors && InSession(st.collectors[c]) && st.collectors[c].committed.None?
               && st'.collectors[c].link.start == st.collectors[c].link.start
    ensures Rooted(cfg, steps, st')
  {
  }

  lemma OtherMove(st: State, c: Id, move: Move)
    requires Sane(st) && c in st.collectors && Ready(st, st.collectors[c], move) && !Own(move) && !move.TryCommit?
    ensures var st' := AfterMove(st, c, move);
            && st'.base == st.base && st'.late == st.late && st'.collectors.Keys == st.collectors.Keys
            && (forall d :: d in st.collectors && d != c ==> st'.collectors[d] == st.collectors[d])
            && var k, k' := st.collectors[c], st'.collectors[c];
               (InSession(k') ==> InSession(k)) && k'.committed == k.committed && k'.link.start == k.link.start
  {
  }

  lemma OtherMoveRooted(cfg: Config, steps: seq<Step>, st: State, c: Id, move: Move)
    requires Sane(st) && c in st.collectors && Ready(st, st.collectors[c], move) && !Own(move) && !move.TryCommit?
    requires Rooted(cfg, steps, st)
    ensures Rooted(cfg, steps, AfterMove(st, c, move))
  {
    OtherMove(st, c, move);
    OtherRooted(cfg, steps, st, AfterMove(st, c, move));
  }

  lemma MoveRooted(cfg: Config, steps: seq<Step>, st: State, c: Id, move: Move)
    requires Possible(Initial(cfg), steps) && Run(Initial(cfg), steps) == st && Inv(st) && Sane(st)
    requires c in st.collectors && Ready(st, st.collectors[c], move) && Rooted(cfg, steps + [By(c, move)], st)
    ensures Rooted(cfg, steps + [By(c, move)], AfterMove(st, c, move))
  {
    if Own(move) {
      OwnRooted(cfg, steps, st, c, move);
    } else if move.TryCommit? {
      CommitRooted(cfg, steps + [By(c, move)], st, c, move.reached, move.commitReported);
    } else {
      OtherMoveRooted(cfg, steps + [By(c, move)], st, c, move);
    }
  }

  lemma StepRooted(cfg: Config, steps: seq<Step>, st: State, step: Step)
    requires Possible(Initial(cfg), steps) && Run(Initial(cfg), steps) == st && Inv(st) && Sane(st)
    requires Enabled(st, step) && Rooted(cfg, steps, st)
    ensures Rooted(cfg, steps + [step], Apply(st, step))
  {
    RootedStays(cfg, steps, step, st);
    match step {
      case Env(event) =>
        if event.Arrive? {
          AcceptedRooted(cfg, steps + [step], st, event.commit);
        } else {
          OtherRooted(cfg, steps + [step], st, Apply(st, step));
        }
      case By(c, move) =>
        if move.Start? {
          OtherRooted(cfg, steps + [step], st, Apply(st, step));
        } else {
          MoveRooted(cfg, steps, st, c, move);
        }
    }
  }

  lemma {:induction false} RunRooted(cfg: Config, steps: seq<Step>)
    requires ConfigOk(cfg) && Possible(Initial(cfg), steps)
    ensures Rooted(cfg, steps, Run(Initial(cfg), steps))
    decreases |steps|
  {
    if steps != [] {
      var front, last := steps[..|steps| - 1], steps[|steps| - 1];
      FrontPossible(Initial(cfg), steps);
      RunRooted(cfg, front);
      LastRooted(cfg, front, last);
      assert front + [last] == steps;
    }
  }

  lemma LastRooted(cfg: Config, front: seq<Step>, last: Step)
    requires ConfigOk(cfg) && Possible(Initial(cfg), front)
    requires var st := Run(Initial(cfg), front); Sane(st) && Enabled(st, last) && Rooted(cfg, front, st)
    ensures Rooted(cfg, front + [last], Apply(Run(Initial(cfg), front), last))
  {
    InitialInv(cfg);
    RunInv(Initial(cfg), front);
    StepRooted(cfg, front, Run(Initial(cfg), front), last);
  }

  lemma {:induction false} FrontPossible(st: State, steps: seq<Step>)
    requires Possible(st, steps) && steps != []
    ensures var front, last := steps[..|steps| - 1], steps[|steps| - 1];
            Possible(st, front) && Sane(Run(st, front)) && Enabled(Run(st, front), last)
            && Run(st, steps) == Apply(Run(st, front), last)
    decreases |steps|
  {
    var front := steps[..|steps| - 1];
    if |steps| == 1 {
      assert front == [] && steps[1..] == [];
    } else {
      FrontPossible(Apply(st, steps[0]), steps[1..]);
      assert front[1..] == steps[1..][..|steps| - 2];
    }
  }

  /** The base that everything from it on is archived: some session was opened there
      without a stored position, so at EARLIEST nothing retained at that moment lies
      before it, and at LATEST exactly what was published before does. */
  lemma BaseIsAnOpening(cfg: Config, steps: seq<Step>)
    requires ConfigOk(cfg) && Possible(Initial(cfg), steps)
    requires Run(Initial(cfg), steps).base.Some?
    ensures exists c, i :: 0 <= i < |steps| && OpenedAt(cfg, steps, i, c, Run(Initial(cfg), steps).base.value)
  {
    RunRooted(cfg, steps);
    var c :| Opened(cfg, steps, c, Run(Initial(cfg), steps).base.value);
  }
}
