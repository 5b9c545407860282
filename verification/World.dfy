/**
 The world a subscriber runs in: the protocol's shared state, changed under its
 feet by everybody else between any two of its own actions. Every external call
 is a method here; each performs protocol steps and nothing else.
 */
module Surroundings {
  import opened Common
  import opened Grouping
  import opened Topic
  import opened Protocol
  import opened ProtocolInvariant
  import opened ProtocolCommits
  import opened ProtocolTheorems

  datatype CommitReply = Stored | LeaseLost | Failed

  /** How one external call goes. A call that fails may have taken effect all the
      same, and a shutdown may interrupt the pause after it. */
  datatype Fate = Works | Fails(effect: bool, interrupted: bool)

  datatype Decoding = Decoded(record: Record) | SchemaUnavailable | Undecodable

  /** The part of a collector that only its own actions change. */
  datatype View = View(bootstrap: Bootstrap, phase: Phase, act: Act, committed: Option<nat>, buffer: seq<Record>,
                       pending: nat)

  function ViewOf(k: Collector): View { View(k.bootstrap, k.phase, k.act, k.committed, k.buffer, k.pending) }

  /** The collector's own affairs are untouched; the rest of the world only grows. */
  ghost predicate Undisturbed(st: State, st': State, me: Id) {
    && me in st.collectors && me in st'.collectors
    && ViewOf(st'.collectors[me]) == ViewOf(st.collectors[me])
    && Grows(st, st')
  }

  /** Steps other than the collector's own actions. */
  predicate Foreign(step: Step, me: Id) {
    match step
    case Env(_) => true
    case By(c, move) => c != me || move.ServerTake? || move.ServerRespond?
  }

  /** The server's part in a session changes only the link. */
  lemma ServerUndisturbed(st: State, me: Id, move: Move)
    requires Sane(st) && me in st.collectors && Ready(st, st.collectors[me], move)
    requires move.ServerTake? || move.ServerRespond?
    ensures var st' := AfterMove(st, me, move);
            me in st'.collectors && ViewOf(st'.collectors[me]) == ViewOf(st.collectors[me])
  {
  }

  /** What another collector does leaves this one's record alone. */
  lemma OthersUndisturbed(st: State, me: Id, c: Id, move: Move)
    requires Sane(st) && me in st.collectors && c in st.collectors && c != me && Ready(st, st.collectors[c], move)
    ensures var st' := AfterMove(st, c, move);
            me in st'.collectors && st'.collectors[me] == st.collectors[me]
  {
  }

  lemma ForeignUndisturbed(st: State, step: Step, me: Id)
    requires Inv(st) && Sane(st) && Enabled(st, step) && me in st.collectors && Foreign(step, me)
    ensures Undisturbed(st, Apply(st, step), me)
  {
    StepGrows(st, step);
    match step {
      case Env(_) =>
      case By(c, move) =>
        if !move.Start? {
          if c == me { ServerUndisturbed(st, me, move); } else { OthersUndisturbed(st, me, c, move); }
        }
    }
  }

  class World {
    const cfg: Config
    // How the collector's external calls go, one after another, and how many it has made;
    // those beyond the end of the script work.
    const script: seq<Fate>
    var calls: nat
    var st: State
    ghost var steps: seq<Step>

    /** The present state is where some run of the protocol has got to. */
    ghost predicate Valid()
      reads this
    {
      && ConfigOk(cfg) && Sane(st) && st.cfg == cfg
      && Possible(Initial(cfg), steps) && Run(Initial(cfg), steps) == st
    }

    ghost predicate Has(me: Id)
      reads this
    {
      Valid() && me in st.collectors
    }

    ghost function Mine(me: Id): View
      requires Has(me)
      reads this
    {
      ViewOf(st.collectors[me])
    }

    constructor (cfg: Config, script: seq<Fate>)
      requires ConfigOk(cfg)
      ensures Valid() && this.cfg == cfg && st == Initial(cfg) && steps == []
      ensures this.script == script && calls == 0
    {
      this.cfg, this.script, calls := cfg, script, 0;
      st := Initial(cfg);
      steps := [];
    }

    function FateAt(call: nat): Fate { if call < |script| then script[call] else Works }

    predicate WorksAt(call: nat) { FateAt(call).Works? }

    /** All calls from one to another work. */
    predicate Faultless(from: nat, to: nat) { forall i :: from <= i < to ==> WorksAt(i) }

    lemma Reachable()
      requires Valid()
      ensures Inv(st)
    {
      InitialInv(cfg);
      RunInv(Initial(cfg), steps);
    }

    /** One step of the protocol. */
    method Take(step: Step)
      requires Valid() && Enabled(st, step)
      modifies this`st, this`steps
      ensures Valid() && steps == old(steps) + [step]
      ensures st == Apply(old(st), step) && Grows(old(st), st)
    {
      Reachable();
      StepInv(st, step);
      StepGrows(st, step);
      RunAppend(Initial(cfg), steps, step);
      st := Apply(st, step);
      steps := steps + [step];
    }

    /** Anything the others, the environment and the server may do meanwhile. */
    method Interfere(me: Id)
      requires Has(me)
      modifies this`st, this`steps
      ensures Has(me) && old(steps) <= steps && Undisturbed(old(st), st, me)
    {
      var rounds: nat := *;
      while rounds > 0
        invariant Has(me) && old(steps) <= steps && Undisturbed(old(st), st, me)
      {
        var step: Step := *;
        if Enabled(st, step) && Foreign(step, me) {
          Reachable();
          ForeignUndisturbed(st, step, me);
          Take(step);
        }
        rounds := rounds - 1;
      }
    }

    /** A bookkeeping action of the collector: no call leaves the process. */
    method Act(me: Id, move: Move)
      requires Has(me) && (move.Advance? || move.StartFlush? || move.EndSession? || move.Stop?)
      requires Ready(st, st.collectors[me], move)
      modifies this`st, this`steps
      ensures Has(me) && old(steps) <= steps && Grows(old(st), st)
      ensures Mine(me) == ViewOf(AfterOwn(old(st), old(st).collectors[me], move))
    {
      Take(By(me, move));
    }

    // ------------------------------------------------------------ the archive sink

    /** Writes one object. An error may still have stored it. */
    method Write(me: Id, kind: string, records: seq<Record>) returns (ok: bool)
      requires Has(me) && CanWrite(st.collectors[me])
      requires kind == st.collectors[me].act.todo[0] && records == OfKind(st.collectors[me].buffer, kind)
      modifies this
      ensures Has(me) && old(steps) <= steps && Grows(old(st), st) && calls == old(calls) + 1
      ensures ok <==> WorksAt(old(calls))
      ensures !ok ==> Mine(me) == old(Mine(me))
      ensures ok ==> var k := old(st).collectors[me];
                     Mine(me) == old(Mine(me)).(act := Next(k.act.todo[1..], k))
      ensures ok ==> forall r :: r in records ==> r in st.archived
    {
      Interfere(me);
      var fate := FateAt(calls);
      calls := calls + 1;
      ok := fate.Works?;
      Take(By(me, WriteGroup(fate.Works? || fate.effect, ok)));
    }

    // ------------------------------------------------------- the checkpoint store

    /** Runs the commit script. A failure may have reached the store all the same. */
    method Commit(me: Id, upTo: nat) returns (reply: CommitReply)
      requires Has(me) && st.collectors[me].act.Committing? && upTo == st.collectors[me].act.upTo
      modifies this
      ensures Has(me) && old(steps) <= steps && Grows(old(st), st) && calls == old(calls) + 1
      ensures reply.Failed? <==> !WorksAt(old(calls))
      ensures reply.Failed? ==> Mine(me) == old(Mine(me))
      ensures reply.Stored? ==> Mine(me) == ViewOf(AfterCommit(old(st).collectors[me]))
                                && st.checkpoint == Some(upTo) && st.lease == Some(me)
      ensures reply.LeaseLost? ==> Mine(me).phase.Stopped? && st.lease != Some(me)
    {
      Interfere(me);
      var fate := FateAt(calls);
      calls := calls + 1;
      reply := if fate.Fails? then Failed else if st.lease == Some(me) then Stored else LeaseLost;
      Take(By(me, TryCommit(fate.Works? || fate.effect, fate.Works?)));
    }

    /** Waits for the lease until it is free; gives up when interrupted. */
    method Acquire(me: Id) returns (ok: bool)
      requires Has(me) && st.collectors[me].phase.Waiting?
      modifies this`st, this`steps
      ensures Has(me) && old(steps) <= steps && Grows(old(st), st)
      ensures Mine(me) == if ok then old(Mine(me)).(phase := Leased) else old(Mine(me))
      ensures if ok then st.lease == Some(me) else st.lease.Some?
    {
      Interfere(me);
      ok := st.lease.None?;
      if ok {
        Take(By(me, Move.Acquire));
      }
    }

    /** Reads the checkpoint, if the call works; a collector that finds none and may not
        start without one stops. */
    method Load(me: Id) returns (ok: bool, checkpoint: Option<nat>)
      requires Has(me) && st.collectors[me].phase.Leased?
      modifies this
      ensures Has(me) && old(steps) <= steps && Grows(old(st), st) && calls == old(calls) + 1
      ensures ok <==> WorksAt(old(calls))
      ensures !ok ==> Mine(me) == old(Mine(me))
      ensures ok ==> checkpoint == st.checkpoint
      ensures ok && (checkpoint.Some? || !old(Mine(me)).bootstrap.Refuse?) ==>
                Mine(me) == old(Mine(me)).(phase := Between, committed := checkpoint)
      ensures ok && checkpoint.None? && old(Mine(me)).bootstrap.Refuse? ==> Mine(me).phase.Stopped?
    {
      Interfere(me);
      ok, checkpoint := FateAt(calls).Works?, st.checkpoint;
      calls := calls + 1;
      if ok {
        Take(By(me, Move.Load));
      }
    }

    method Release(me: Id)
      requires Has(me) && st.collectors[me].phase.Stopped?
      modifies this`st, this`steps
      ensures Has(me) && old(steps) <= steps && Grows(old(st), st)
      ensures st.lease != Some(me) && Mine(me) == old(Mine(me))
    {
      Interfere(me);
      Take(By(me, Move.Release));
    }

    // ------------------------------------------------------------------ the stream

    /** A call that says nothing about the stream's position: a login, or opening a
        stream. */
    method Call(me: Id) returns (ok: bool)
      requires Has(me)
      modifies this
      ensures Has(me) && old(steps) <= steps && Grows(old(st), st) && calls == old(calls) + 1
      ensures Mine(me) == old(Mine(me)) && (ok <==> WorksAt(old(calls)))
    {
      Interfere(me);
      ok := FateAt(calls).Works?;
      calls := calls + 1;
    }

    /** Sends the first request of a stream; the server grants a position or rejects the
        replay ID. Without one, the position is where the collector's choice says. */
    method Subscribe(me: Id) returns (ok: bool)
      requires Has(me) && st.collectors[me].phase.Between?
      modifies this`st, this`steps
      ensures Has(me) && old(steps) <= steps && Grows(old(st), st)
      ensures ok <==> match old(Mine(me)).committed
                      case Some(x) => st.oldest <= x + 1 && x <= |st.log|
                      case None => true
      ensures ok ==> Mine(me) == View(old(Mine(me)).bootstrap, Select, NoAct, old(Mine(me)).committed, [], cfg.appetite)
      ensures !ok ==> Mine(me).phase.Stopped?
    {
      Interfere(me);
      ok := Granted(st, st.collectors[me]).Some?;
      Take(By(me, Move.Subscribe));
    }

    /** The next response, if there is one. */
    method Receive(me: Id) returns (resp: Option<Response>)
      requires Has(me) && st.collectors[me].phase.Select? && st.collectors[me].act.NoAct?
      modifies this`st, this`steps
      ensures Has(me) && old(steps) <= steps && Grows(old(st), st)
      ensures resp.None? ==> Mine(me) == old(Mine(me)) && st.collectors[me].link.wire == []
      ensures resp.Some? ==> Mine(me) == old(Mine(me)).(phase := Handling(resp.value.events, resp.value))
    {
      Interfere(me);
      if |st.collectors[me].link.wire| == 0 {
        resp := None;
      } else {
        resp := Some(st.collectors[me].link.wire[0]);
        Take(By(me, Move.Receive));
      }
    }

    /** Decodes the next event of the response being handled. The schema may not be
        available, or the event may not decode by it. */
    method Decode(me: Id) returns (d: Decoding)
      requires Has(me) && CanDecode(st.collectors[me])
      modifies this
      ensures Has(me) && old(steps) <= steps && Grows(old(st), st) && calls == old(calls) + 1
      ensures match FateAt(old(calls))
              case Works => d.Decoded?
              case Fails(effect, _) => d == if effect then Undecodable else SchemaUnavailable
      ensures !d.Decoded? ==> Mine(me) == old(Mine(me))
      ensures d.Decoded? ==>
                && d.record.at == old(st).collectors[me].phase.inbox[0]
                && d.record == EventAt(st, d.record.at)
                && Mine(me) == ViewOf(AfterDecode(st, old(st).collectors[me]))
    {
      Interfere(me);
      match FateAt(calls) {
        case Works =>
          d := Decoding.Decoded(EventAt(st, st.collectors[me].phase.inbox[0]));
          Take(By(me, Move.Decode));
        case Fails(effect, _) => d := if effect then Undecodable else SchemaUnavailable;
      }
      calls := calls + 1;
    }

    /** Asks for more events. The stream may already be broken. */
    method Ask(me: Id, more: nat) returns (ok: bool)
      requires Has(me) && st.collectors[me].phase.ToppingUp? && st.collectors[me].act.NoAct?
      requires st.collectors[me].pending <= cfg.appetite / 2 && more == cfg.appetite - st.collectors[me].pending
      modifies this
      ensures Has(me) && old(steps) <= steps && Grows(old(st), st) && calls == old(calls) + 1
      ensures ok <==> WorksAt(old(calls))
      ensures !ok ==> Mine(me) == old(Mine(me))
      ensures ok ==> Mine(me) == old(Mine(me)).(phase := Select, pending := cfg.appetite)
    {
      Interfere(me);
      ok := FateAt(calls).Works?;
      calls := calls + 1;
      if ok {
        Take(By(me, Advance));
      }
    }
  }
}
