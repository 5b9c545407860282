/**
 The subscriber: the loops and fields of one collector, run in a world that changes
 around it. Its every external call is a step of the protocol, so the protocol's
 guarantees hold of any number of subscribers running together.
 */
module Subscribing {
  import opened Common
  import opened Grouping
  import opened Topic
  import opened Protocol
  import opened ProtocolInvariant
  import opened Surroundings

  /** How a session ends: a fatal error, any other error, or a clean shutdown; a
      shutdown may also interrupt a keepalive's commit, when nothing is left to do. */
  datatype Ending = Fatal | Reconnect | ShutDown | Interrupted

  const MAX_AUTH_FAILURES: nat := 5

  /** Why a stream broke, as far as its trailer and status tell. */
  datatype StreamError = AuthRejected | ReplayRejected | OtherError

  /** What a session's loop wakes up to. */
  datatype Wake =
    | LeaseGone
    | ShutDownAsked
    | SilentTooLong
    | FlushDue
    | Answered
    | StreamBroke(error: StreamError, loginWorks: bool)

  /** One session: whether it must log in first, what it wakes up to, and whether a
      shutdown is under way by the time a commit has failed. */
  datatype Course = Course(login: bool, wakes: seq<Wake>, shuttingDown: bool)

  /** One more failed login or rejected session; too many in a row are fatal. */
  function Counted(failures: nat): (Ending, nat) {
    (if failures + 1 >= MAX_AUTH_FAILURES then Fatal else Reconnect, failures + 1)
  }

  /** What a broken stream means for the session, and the new count of failures. */
  function Classified(error: StreamError, loginWorks: bool, healthy: bool, failures: nat): (Ending, nat) {
    match error
    case ReplayRejected => (Fatal, failures)
    case OtherError => (Reconnect, failures)
    case AuthRejected =>
      var before := if healthy then 0 else failures;
      if !loginWorks || !healthy then Counted(before) else (Reconnect, before)
  }

  // ------------------------------------------------------------------- giving up

  /** How one attempt to follow the topic ends: the login fails, or the stream breaks or
      is left, after data has arrived or before. */
  datatype Mishap = LoginFails | Leaves(data: bool) | Breaks(error: StreamError, loginWorks: bool, data: bool)

  /** The first data of a session forgets the failures before it. */
  function Meet(m: Mishap, failures: nat): (Ending, nat) {
    match m
    case LoginFails => Counted(failures)
    case Leaves(data) => (Reconnect, if data then 0 else failures)
    case Breaks(error, loginWorks, data) => Classified(error, loginWorks, data, if data then 0 else failures)
  }

  /** The count after so many mishaps, none of them fatal before the last. */
  function MetAll(ms: seq<Mishap>): (Ending, nat) {
    if ms == [] then (Reconnect, 0) else Meet(ms[|ms| - 1], MetAll(ms[..|ms| - 1]).1)
  }

  /** The mishaps that count: a login that fails, and a session that is rejected,
      unless data had arrived and logging in again works. */
  predicate Counts(m: Mishap) {
    m.LoginFails? || (m.Breaks? && m.error == AuthRejected && !(m.data && m.loginWorks))
  }

  /** How many count since the last session with data, that one included. */
  function InARow(ms: seq<Mishap>): nat {
    if ms == [] then 0
    else
      var last := ms[|ms| - 1];
      (if !last.LoginFails? && last.data then 0 else InARow(ms[..|ms| - 1])) + if Counts(last) then 1 else 0
  }

  /** The mishap at which a collector gives up: a rejected replay ID, or the fifth
      failed login or rejection in a row. */
  predicate Hopeless(ms: seq<Mishap>)
    requires ms != []
  {
    var last := ms[|ms| - 1];
    (last.Breaks? && last.error == ReplayRejected) || (Counts(last) && InARow(ms) >= 5)
  }

  lemma {:induction false} CountIsInARow(ms: seq<Mishap>)
    ensures MetAll(ms).1 == InARow(ms) && (MetAll(ms).0.Fatal? || MetAll(ms).0.Reconnect?)
    ensures ms != [] ==> (MetAll(ms).0.Fatal? <==> Hopeless(ms))
    decreases |ms|
  {
    if ms != [] {
      CountIsInARow(ms[..|ms| - 1]);
    }
  }

  /** A collector gives up. */
  predicate GivesUp(ms: seq<Mishap>, n: nat)
    requires n < |ms|
  {
    MetAll(ms[..n + 1]).0.Fatal?
  }

  predicate HopelessAt(ms: seq<Mishap>, n: nat)
    requires n < |ms|
  {
    Hopeless(ms[..n + 1])
  }

  /** The life of a collector ends at the first mishap that is hopeless, and nowhere
      else: other errors end nothing and change no count. */
  lemma GivesUpExactly(ms: seq<Mishap>, n: nat)
    requires n < |ms|
    ensures (GivesUp(ms, n) && forall i :: 0 <= i < n ==> !GivesUp(ms, i))
       <==> (HopelessAt(ms, n) && forall i :: 0 <= i < n ==> !HopelessAt(ms, i))
    ensures ms[n].Breaks? && ms[n].error == OtherError ==>
              MetAll(ms[..n + 1]) == (Reconnect, if ms[n].data then 0 else MetAll(ms[..n]).1)
  {
    forall i | 0 <= i <= n ensures GivesUp(ms, i) <==> HopelessAt(ms, i) {
      CountIsInARow(ms[..i + 1]);
    }
    assert ms[..n + 1][..n] == ms[..n];
  }

  /** Sessions rejected one after another before any data are retried a fixed number of
      times, whether or not logging in works, and then given up. */
  lemma {:induction false} RejectionsGiveUp(ms: seq<Mishap>)
    requires forall m :: m in ms ==> m.Breaks? && m.error == AuthRejected && !m.data
    ensures InARow(ms) == |ms|
    ensures ms != [] ==> (Hopeless(ms) <==> |ms| >= 5)
    decreases |ms|
  {
    if ms != [] {
      assert ms[|ms| - 1] in ms;
      RejectionsGiveUp(ms[..|ms| - 1]);
    }
  }

  lemma MetNext(ms: seq<Mishap>, m: Mishap)
    ensures MetAll(ms + [m]) == Meet(m, MetAll(ms).1)
  {
    assert (ms + [m])[..|ms|] == ms;
  }

  /** No mishap before the last is hopeless. */
  predicate HopedOn(ms: seq<Mishap>) {
    forall i :: 0 < i < |ms| ==> !Hopeless(ms[..i])
  }

  lemma HopesOn(ms: seq<Mishap>, m: Mishap)
    requires HopedOn(ms) && (ms != [] ==> !Hopeless(ms))
    ensures HopedOn(ms + [m])
  {
    forall i | 0 < i < |ms + [m]| ensures !Hopeless((ms + [m])[..i]) {
      assert (ms + [m])[..i] == if i == |ms| then ms else ms[..i];
    }
  }

  // ---------------------------------------------------------------- working off events

  /** The committed position and the positions waiting in the buffer. */
  datatype Progress = Progress(committed: Option<nat>, waiting: seq<nat>)

  /** Events are buffered one by one; a buffer that is full is flushed. */
  function Worked(p: Progress, events: seq<nat>, full: nat): Progress
    decreases |events|
  {
    if events == [] then p
    else
      Worked(if |p.waiting| + 1 >= full then Progress(Some(events[0]), [])
             else Progress(p.committed, p.waiting + [events[0]]), events[1..], full)
  }

  /** Until there is a stored position the first batch is flushed at once. */
  function Pinned(p: Progress): Progress {
    if p.committed.None? && p.waiting != [] then Progress(Some(p.waiting[|p.waiting| - 1]), []) else p
  }

  /** A keepalive with demand outstanding and nothing waiting commits what it reports. */
  function KeptUp(p: Progress, resp: Response): Progress {
    if resp.events == [] && p.waiting == [] && resp.left > 0 then p.(committed := Some(resp.latest)) else p
  }

  lemma FirstWorked(p: Progress, events: seq<nat>, full: nat)
    requires events != []
    ensures Worked(p, events, full) == Worked(Worked(p, events[..1], full), events[1..], full)
  {
    assert events[..1][1..] == [] && events[..1][0] == events[0];
  }

  /** What is left when whole batches are taken off. */
  function Remainder(n: nat, batch: nat): (r: nat)
    requires batch > 0
    ensures r <= n && r < batch
  {
    if n < batch then n else Remainder(n - batch, batch)
  }

  /** The progress when all these positions have been taken on in batches. */
  function InBatches(committed: Option<nat>, all: seq<nat>, full: nat): Progress
    requires full > 0
  {
    var done := |all| - Remainder(|all|, full);
    Progress(if done == 0 then committed else Some(all[done - 1]), all[done..])
  }

  lemma OneBatchLess(committed: Option<nat>, all: seq<nat>, full: nat)
    requires 0 < full <= |all|
    ensures InBatches(committed, all, full) == InBatches(Some(all[full - 1]), all[full..], full)
  {
    var rest := all[full..];
    var done := |rest| - Remainder(|rest|, full);
    assert all[full + done..] == rest[done..];
  }

  /** Events are committed in whole batches: what is left waiting is the remainder of the
      last batch, and the committed position is the one before it. */
  lemma {:induction false} WholeBatches(p: Progress, events: seq<nat>, full: nat)
    requires |p.waiting| < full
    ensures Worked(p, events, full) == InBatches(p.committed, p.waiting + events, full)
    decreases |events|
  {
    var all := p.waiting + events;
    if events == [] {
      assert all == p.waiting;
    } else if |p.waiting| + 1 == full {
      WholeBatches(Progress(Some(events[0]), []), events[1..], full);
      assert all[full..] == [] + events[1..];
      OneBatchLess(p.committed, all, full);
    } else {
      WholeBatches(Progress(p.committed, p.waiting + [events[0]]), events[1..], full);
      assert p.waiting + [events[0]] + events[1..] == all;
    }
  }

  /** Whatever has been worked off is committed once it is pinned. */
  lemma {:induction false} PinnedIsCommitted(p: Progress, events: seq<nat>, full: nat)
    ensures events != [] ==> Pinned(Worked(p, events, full)).committed.Some?
    decreases |events|
  {
    if |events| > 1 {
      PinnedIsCommitted(if |p.waiting| + 1 >= full then Progress(Some(events[0]), [])
                        else Progress(p.committed, p.waiting + [events[0]]), events[1..], full);
    }
  }

  lemma OneWorked(p: Progress, inbox: seq<nat>, full: nat)
    requires inbox != []
    ensures Worked(p, inbox[..1], full) == if |p.waiting| + 1 >= full then Progress(Some(inbox[0]), [])
                                           else Progress(p.committed, p.waiting + [inbox[0]])
  {
    assert inbox[..1][1..] == [] && inbox[..1][0] == inbox[0];
  }

  /** Everything but the groups in `todo` is archived. */
  ghost predicate Written(buffer: seq<Record>, todo: seq<string>, archived: set<Record>) {
    forall r :: r in buffer && r.kind !in todo ==> r in archived
  }

  lemma WrittenNext(buffer: seq<Record>, todo: seq<string>, before: set<Record>, archived: set<Record>)
    requires todo != [] && Written(buffer, todo, before) && before <= archived
    requires forall r :: r in OfKind(buffer, todo[0]) ==> r in archived
    ensures Written(buffer, todo[1..], archived)
  {
    forall r | r in buffer && r.kind !in todo[1..] ensures r in archived {
      OfKindMember(buffer, todo[0], r);
      assert todo == [todo[0]] + todo[1..];
    }
  }

  lemma WrittenFirst(buffer: seq<Record>, archived: set<Record>)
    requires buffer != []
    ensures Kinds(buffer) != [] && Written(buffer, Kinds(buffer), archived)
  {
    KindsOfMember(buffer, buffer[0]);
    forall r | r in buffer ensures r.kind in Kinds(buffer) { KindsOfMember(buffer, r); }
  }

  class Subscriber {
    const world: World
    const me: Id
    const initialReplay: Bootstrap
    const writeAttempts: nat
    var committed: Option<nat>
    var buffer: seq<Record>
    var sessionHealthy: bool
    var authFailures: nat

    /** The subscriber's fields and local variables agree with the protocol's view
        of it. */
    ghost predicate Agrees(phase: Phase, act: Act, pending: nat)
      reads this`committed, this`buffer, world
    {
      && writeAttempts > 0 && world.Has(me)
      && world.Mine(me) == View(initialReplay, phase, act, committed, buffer, pending)
    }

    /** What a flush does next when the groups in `todo` are still to be written. */
    ghost function Remaining(todo: seq<string>): Act
      requires buffer != []
      reads this`buffer
    {
      if todo == [] then Committing(buffer[|buffer| - 1].at, false) else Writing(todo)
    }

    ghost function Where(): Progress
      reads this`committed, this`buffer
    {
      Progress(committed, Ats(buffer))
    }

    ghost predicate Dead()
      reads world
    {
      world.Has(me) && world.Mine(me).phase.Stopped?
    }

    /** The store no longer has this collector as the holder of the lease. */
    ghost predicate Ousted()
      reads world
    {
      world.st.lease != Some(me)
    }

    predicate Interrupts(call: nat) { world.FateAt(call).Fails? && world.FateAt(call).interrupted }

    /** Calls that failed one after another until there were enough of them or a
        shutdown interrupted the wait for the next. */
    predicate GaveUp(from: nat, to: nat, limit: nat) {
      && from < to && (forall i :: from <= i < to ==> !world.WorksAt(i))
      && (forall i :: from <= i < to - 1 ==> !Interrupts(i))
      && to - from <= limit && (to - from == limit || Interrupts(to - 1))
    }

    constructor (world: World, me: Id, initialReplay: Bootstrap, writeAttempts: nat)
      requires world.Has(me) && world.Mine(me) == View(initialReplay, Waiting, NoAct, None, [], 0)
      ensures this.world == world && this.me == me && this.initialReplay == initialReplay
      ensures this.writeAttempts == if writeAttempts == 0 then 5 else writeAttempts
      ensures Agrees(Waiting, NoAct, 0) && buffer == [] && authFailures == 0
    {
      this.world, this.me, this.initialReplay := world, me, initialReplay;
      this.writeAttempts := if writeAttempts == 0 then 5 else writeAttempts;
      committed, buffer, sessionHealthy, authFailures := None, [], false, 0;
    }

    /** Tries one object write until it works, up to writeAttempts times; failing is
        fatal. */
    method WriteWithRetry(kind: string, records: seq<Record>, ghost phase: Phase, ghost todo: seq<string>,
                          ghost pending: nat)
      returns (ok: bool)
      requires Agrees(phase, Writing(todo), pending) && todo != [] && buffer != []
      requires kind == todo[0] && records == OfKind(buffer, kind)
      modifies world
      ensures Grows(old(world.st), world.st) && old(world.steps) <= world.steps && old(world.calls) < world.calls
      ensures ok <==> world.WorksAt(world.calls - 1)
      ensures !ok ==> Dead() && GaveUp(old(world.calls), world.calls, writeAttempts)
      ensures ok ==> (forall r :: r in records ==> r in world.st.archived)
      ensures ok ==> Agrees(phase, Remaining(todo[1..]), pending)
    {
      var attempt := 1;
      while true
        invariant Agrees(phase, Writing(todo), pending)
        invariant Grows(old(world.st), world.st) && old(world.steps) <= world.steps
        invariant 1 <= attempt <= writeAttempts && world.calls == old(world.calls) + attempt - 1
        invariant forall i :: old(world.calls) <= i < world.calls ==> !world.WorksAt(i) && !Interrupts(i)
        decreases writeAttempts - attempt
      {
        var stored := world.Write(me, kind, records);
        if stored {
          return true;
        }
        if attempt == writeAttempts || Interrupts(world.calls - 1) {
          break;
        }
        attempt := attempt + 1;
      }
      world.Act(me, Stop);
      return false;
    }

    /** Stores the replay ID, retrying while the budget allows; a lost lease or an
        exhausted budget is fatal. */
    method Commit(upTo: nat, budget: nat, keepalive: bool, ghost phase: Phase, ghost pending: nat) returns (ok: bool)
      requires Agrees(phase, Committing(upTo, keepalive), pending)
      modifies this`committed, world
      ensures Grows(old(world.st), world.st) && old(world.steps) <= world.steps && old(world.calls) < world.calls
      ensures !ok ==> Dead() && committed == old(committed)
      ensures !ok ==> GaveUp(old(world.calls), world.calls, budget + 1) || (world.WorksAt(world.calls - 1) && Ousted())
      ensures ok ==> world.WorksAt(world.calls - 1) && world.st.checkpoint == Some(upTo)
      ensures ok ==> committed == Some(upTo) && world.Has(me)
                     && world.Mine(me) == View(initialReplay, if keepalive then ToppingUp else phase, NoAct, committed,
                                               if keepalive then buffer else [], pending)
    {
      var attempt := 0;
      while true
        invariant Agrees(phase, Committing(upTo, keepalive), pending) && committed == old(committed)
        invariant Grows(old(world.st), world.st) && old(world.steps) <= world.steps
        invariant attempt <= budget && world.calls == old(world.calls) + attempt
        invariant forall i :: old(world.calls) <= i < world.calls ==> !world.WorksAt(i) && !Interrupts(i)
        decreases budget - attempt
      {
        var reply := world.Commit(me, upTo);
        if reply.Stored? {
          committed := Some(upTo);
          return true;
        }
        if reply.LeaseLost? {
          return false;
        }
        if attempt == budget || Interrupts(world.calls - 1) {
          break;
        }
        attempt := attempt + 1;
      }
      world.Act(me, Stop);
      return false;
    }

    /** Durably archives the buffer, one object per event type, then commits the
        position of its last event. Only failing calls or a lost lease can stop it. */
    method Flush(budget: nat, ghost phase: Phase, ghost pending: nat) returns (ok: bool)
      requires buffer != [] ==> Agrees(phase, Writing(Kinds(buffer)), pending)
      requires buffer == [] ==> Agrees(phase, NoAct, pending)
      modifies this`committed, this`buffer, world
      ensures Grows(old(world.st), world.st) && old(world.steps) <= world.steps && old(world.calls) <= world.calls
      ensures !ok ==> Dead()
      ensures !ok && world.Faultless(old(world.calls), world.calls) ==> Ousted()
      ensures ok ==> buffer == [] && Agrees(phase, NoAct, pending)
      ensures ok ==> forall r :: r in old(buffer) ==> r in world.st.archived
      ensures ok ==> committed == if old(buffer) == [] then old(committed) else Some(old(buffer)[|old(buffer)| - 1].at)
    {
      if |buffer| == 0 {
        return true;
      }
      ok := WriteGroups(phase, pending);
      if !ok {
        return false;
      }
      var last := buffer[|buffer| - 1];
      ghost var before := world.calls;
      ok := Commit(last.at, budget, false, phase, pending);
      assert !ok && !Ousted() ==> !world.WorksAt(before);
      if ok {
        buffer := [];
      }
    }

    /** One object per event type. */
    method WriteGroups(ghost phase: Phase, ghost pending: nat) returns (ok: bool)
      requires buffer != [] && Agrees(phase, Writing(Kinds(buffer)), pending)
      modifies world
      ensures Grows(old(world.st), world.st) && old(world.steps) <= world.steps && old(world.calls) <= world.calls
      ensures !ok ==> Dead() && !world.Faultless(old(world.calls), world.calls)
      ensures ok ==> Agrees(phase, Remaining([]), pending)
      ensures ok ==> forall r :: r in buffer ==> r in world.st.archived
    {
      var groups, order := GroupByKind(buffer);
      WrittenFirst(buffer, world.st.archived);
      ghost var todo := order;
      var i := 0;
      while i < |order|
        invariant 0 <= i <= |order| && todo == order[i..]
        invariant Agrees(phase, Remaining(todo), pending)
        invariant Grows(old(world.st), world.st) && old(world.steps) <= world.steps && old(world.calls) <= world.calls
        invariant Written(buffer, todo, world.st.archived)
      {
        ghost var before := world.st.archived;
        var kind := order[i];
        var stored := WriteWithRetry(kind, groups[kind], phase, todo, pending);
        if !stored {
          return false;
        }
        WrittenNext(buffer, todo, before, world.st.archived);
        i, todo := i + 1, todo[1..];
      }
      assert todo == [];
      ok := true;
    }

    /** Decodes one event into the buffer. A schema that cannot be fetched ends the
        session, an event that cannot be decoded is fatal. */
    method DecodeNext(resp: Response, ghost inbox: seq<nat>, ghost pending: nat) returns (end: Option<Ending>)
      requires Agrees(Handling(inbox, resp), NoAct, pending) && inbox != [] && pending > 0
      modifies this`buffer, world
      ensures old(world.steps) <= world.steps && world.calls == old(world.calls) + 1
      ensures end == match world.FateAt(old(world.calls))
                     case Works => None
                     case Fails(effect, _) => Some(if effect then Fatal else Reconnect)
      ensures end.None? ==>
                && |buffer| == |old(buffer)| + 1 && buffer[..|old(buffer)|] == old(buffer)
                && buffer[|old(buffer)|].at == inbox[0]
                && Agrees(Handling(inbox[1..], resp),
                          if |buffer| >= world.cfg.maxEvents then Writing(Kinds(buffer)) else NoAct, pending - 1)
      ensures end == Some(Reconnect) ==> Agrees(Closing(false), NoAct, pending) && buffer == old(buffer)
      ensures end == Some(Fatal) ==> Dead()
    {
      var d := world.Decode(me);
      match d {
        case SchemaUnavailable =>
          world.Act(me, EndSession(false));
          end := Some(Reconnect);
        case Undecodable =>
          world.Act(me, Stop);
          buffer := [];
          end := Some(Fatal);
        case Decoded(record) =>
          buffer := buffer + [record];
          end := None;
      }
    }

    /** Handles one event; a buffer it makes full is flushed. */
    method HandleEvent(resp: Response, ghost inbox: seq<nat>, pending: nat, budget: nat) returns (end: Option<Ending>)
      requires Agrees(Handling(inbox, resp), NoAct, pending) && inbox != [] && pending > 0
      modifies this`committed, this`buffer, world
      ensures old(world.steps) <= world.steps && old(world.calls) < world.calls
      ensures end.None? ==> Agrees(Handling(inbox[1..], resp), NoAct, pending - 1)
      ensures end.None? ==> Where() == Worked(old(Where()), inbox[..1], world.cfg.maxEvents)
      ensures var fate := world.FateAt(old(world.calls));
              if fate.Fails? then end == Some(if fate.effect then Fatal else Reconnect)
              else end.Some? ==> end.value.Fatal? && |old(buffer)| + 1 >= world.cfg.maxEvents
      ensures end.Some? && world.Faultless(old(world.calls), world.calls) ==> Ousted()
      ensures end == Some(Reconnect) ==> Agrees(Closing(false), NoAct, pending) && buffer == old(buffer)
      ensures end == Some(Fatal) ==> Dead()
    {
      end := DecodeNext(resp, inbox, pending);
      assert world.WorksAt(world.calls - 1) <==> end.None?;
      OneWorked(old(Where()), inbox, world.cfg.maxEvents);
      if end.None? && |buffer| >= world.cfg.maxEvents {
        var ok := Flush(budget, Handling(inbox[1..], resp), pending - 1);
        end := if ok then None else Some(Fatal);
      }
    }

    /** Every event handled has been counted as pending. */
    lemma PendingCovers(inbox: seq<nat>, resp: Response, pending: nat)
      requires Agrees(Handling(inbox, resp), NoAct, pending)
      ensures |inbox| <= pending
    {
      world.Reachable();
      assert CollectorOk(world.st, me, world.st.collectors[me]);
    }

    /** Decodes the events of a response one by one. */
    method HandleEvents(resp: Response, pending: nat, budget: nat) returns (end: Option<Ending>, pending': nat)
      requires Agrees(Handling(resp.events, resp), NoAct, pending)
      modifies this`committed, this`buffer, world
      ensures old(world.steps) <= world.steps && old(world.calls) <= world.calls
      ensures end.None? ==> Agrees(Handling([], resp), NoAct, pending') && pending == pending' + |resp.events|
      ensures end.None? ==> Where() == Worked(old(Where()), resp.events, world.cfg.maxEvents)
      ensures end.Some? ==> end.value.Reconnect? || end.value.Fatal?
      ensures end.Some? && world.Faultless(old(world.calls), world.calls) ==> Ousted()
      ensures end == Some(Reconnect) ==> Agrees(Closing(false), NoAct, pending')
      ensures end == Some(Fatal) ==> Dead()
    {
      pending' := pending;
      ghost var left := resp.events;
      var i := 0;
      while i < |resp.events|
        invariant 0 <= i <= |resp.events| && pending == pending' + i && left == resp.events[i..]
        invariant Agrees(Handling(left, resp), NoAct, pending')
        invariant Worked(Where(), left, world.cfg.maxEvents) == Worked(old(Where()), resp.events, world.cfg.maxEvents)
        invariant old(world.steps) <= world.steps && old(world.calls) <= world.calls
      {
        PendingCovers(left, resp, pending');
        FirstWorked(Where(), left, world.cfg.maxEvents);
        end := HandleEvent(resp, left, pending', budget);
        if end.Some? {
          return;
        }
        pending' := pending' - 1;
        i, left := i + 1, left[1..];
      }
      end := None;
    }

    /** Until the first commit there is no stored position, so the first batch is
        flushed at once to pin it. */
    method Pin(resp: Response, ghost pending: nat, budget: nat) returns (ok: bool)
      requires Agrees(Handling([], resp), NoAct, pending)
      modifies this`committed, this`buffer, world
      ensures old(world.steps) <= world.steps && old(world.calls) <= world.calls
      ensures !ok ==> Dead()
      ensures !ok && world.Faultless(old(world.calls), world.calls) ==> Ousted()
      ensures ok ==> Agrees(Pinning(resp), NoAct, pending) && Where() == Pinned(old(Where()))
    {
      world.Act(me, Advance);
      ok := true;
      if committed.None? && |buffer| > 0 {
        ok := Flush(budget, Pinning(resp), pending);
      }
    }

    /** A keepalive with outstanding demand and nothing buffered moves the
        checkpoint to the newest replay ID. A shutdown that interrupts it is a clean
        stop: it was only an optimisation. */
    method Keep(resp: Response, ghost pending: nat, budget: nat, shuttingDown: bool) returns (end: Option<Ending>)
      requires Agrees(Pinning(resp), NoAct, pending)
      modifies this`committed, world
      ensures old(world.steps) <= world.steps && old(world.calls) <= world.calls
      ensures end.Some? ==> end == Some(if shuttingDown then Interrupted else Fatal) && Dead()
      ensures end.Some? ==> resp.events == [] && buffer == [] && resp.left > 0 && committed == old(committed)
      ensures end.Some? && world.Faultless(old(world.calls), world.calls) ==> Ousted()
      ensures end.None? ==> Agrees(ToppingUp, NoAct, pending) && Where() == KeptUp(old(Where()), resp)
      ensures end.None? && resp.events == [] && buffer == [] && resp.left > 0 ==>
                world.st.checkpoint == Some(resp.latest)
    {
      world.Act(me, Advance);
      end := None;
      if |resp.events| == 0 && |buffer| == 0 && resp.left > 0 {
        ghost var before := world.calls;
        var ok := Commit(resp.latest, budget, true, Keeping(resp), pending);
        assert !ok && !Ousted() ==> !world.WorksAt(before);
        if !ok {
          end := Some(if shuttingDown then Interrupted else Fatal);
        }
      }
    }

    /** Requests more events when half the appetite has been used up. */
    method TopUp(pending: nat) returns (ok: bool, pending': nat)
      requires Agrees(ToppingUp, NoAct, pending)
      modifies world
      ensures old(world.steps) <= world.steps && old(world.calls) <= world.calls
      ensures ok <==> pending > world.cfg.appetite / 2 || world.WorksAt(old(world.calls))
      ensures ok ==> pending' == if pending > world.cfg.appetite / 2 then pending else world.cfg.appetite
      ensures ok ==> Agrees(Select, NoAct, pending') && 2 * pending' > world.cfg.appetite
      ensures !ok ==> pending' == pending && Agrees(Closing(false), NoAct, pending)
      ensures !ok ==> world.calls == old(world.calls) + 1
    {
      ok, pending' := true, pending;
      world.Reachable();
      assert CollectorOk(world.st, me, world.st.collectors[me]);
      if pending <= world.cfg.appetite / 2 {
        var more := world.cfg.appetite - pending;
        ok := world.Ask(me, more);
        if ok {
          pending' := pending + more;
        } else {
          world.Act(me, EndSession(false));
        }
      } else {
        world.Act(me, Advance);
      }
    }

    /** Works off one response: its events, then the position, then the demand. Only
        failing calls or a lost lease end the session. */
    method HandleResponse(resp: Response, pending: nat, budget: nat, shuttingDown: bool)
      returns (end: Option<Ending>, pending': nat)
      requires Agrees(Handling(resp.events, resp), NoAct, pending)
      modifies this`committed, this`buffer, world
      ensures old(world.steps) <= world.steps && old(world.calls) <= world.calls
      ensures end.None? ==> Agrees(Select, NoAct, pending') && 2 * pending' > world.cfg.appetite
      ensures end.None? ==> Where() == KeptUp(Pinned(Worked(old(Where()), resp.events, world.cfg.maxEvents)), resp)
      ensures end.None? && resp.events != [] ==> committed.Some?
      ensures end.None? ==>
                && pending >= |resp.events|
                && pending' == if 2 * (pending - |resp.events|) > world.cfg.appetite then pending - |resp.events|
                               else world.cfg.appetite
      ensures end.Some? ==> !end.value.ShutDown? && (end.value.Interrupted? ==> shuttingDown)
      ensures end.Some? && world.Faultless(old(world.calls), world.calls) ==> Ousted()
      ensures end == Some(Reconnect) ==> Agrees(Closing(false), NoAct, pending')
      ensures end == Some(Fatal) ==> Dead()
      ensures end == Some(Interrupted) ==> Dead() && buffer == []
    {
      PinnedIsCommitted(Where(), resp.events, world.cfg.maxEvents);
      end, pending' := HandleEvents(resp, pending, budget);
      if end.Some? {
        return;
      }
      var ok := Pin(resp, pending', budget);
      if !ok {
        return Some(Fatal), pending';
      }
      end := Keep(resp, pending', budget, shuttingDown);
      if end.Some? {
        return;
      }
      ghost var before := world.calls;
      ok, pending' := TopUp(pending');
      end := if ok then None else Some(Reconnect);
    }

    /** What is still buffered when a session ends is flushed, unless the end is
        fatal: then it is abandoned and a restart replays it. */
    method CloseSession(shutdown: bool, ghost pending: nat, budget: nat) returns (end: Ending)
      requires Agrees(Closing(shutdown), NoAct, pending)
      modifies this`committed, this`buffer, world
      ensures old(world.steps) <= world.steps && old(world.calls) <= world.calls
      ensures end.Fatal? || end == (if shutdown then ShutDown else Reconnect)
      ensures end.Fatal? && world.Faultless(old(world.calls), world.calls) ==> Ousted()
      ensures end.Reconnect? ==> Agrees(Between, NoAct, pending)
      ensures !end.Fatal? ==> buffer == []
                              && committed == if old(buffer) == [] then old(committed)
                                              else Some(old(buffer)[|old(buffer)| - 1].at)
      ensures !end.Reconnect? ==> Dead()
      ensures !end.Fatal? ==> forall r :: r in old(buffer) ==> r in world.st.archived
    {
      if |buffer| > 0 {
        world.Act(me, Advance);
        var ok := Flush(budget, Closing(shutdown), pending);
        if !ok {
          return Fatal;
        }
      }
      world.Act(me, Advance);
      return if shutdown then ShutDown else Reconnect;
    }

    method AuthFailed() returns (end: Ending)
      modifies this`authFailures
      ensures (end, authFailures) == Counted(old(authFailures))
    {
      authFailures := authFailures + 1;
      end := if authFailures >= MAX_AUTH_FAILURES then Fatal else Reconnect;
    }

    /** A rejected replay ID is fatal, a rejected login is counted, and anything else
        only means to connect again. */
    method ClassifyStreamError(error: StreamError, loginWorks: bool) returns (end: Ending)
      modifies this`authFailures
      ensures (end, authFailures) == Classified(error, loginWorks, sessionHealthy, old(authFailures))
      ensures error.OtherError? ==> end == Reconnect && authFailures == old(authFailures)
      ensures error.ReplayRejected? ==> end == Fatal
      ensures error.AuthRejected? && sessionHealthy && loginWorks ==> end == Reconnect && authFailures == 0
    {
      match error {
        case AuthRejected =>
          if sessionHealthy {
            authFailures := 0;
          }
          if !loginWorks {
            end := AuthFailed();
            return;
          }
          if !sessionHealthy {
            var counted := AuthFailed();
            if counted.Fatal? {
              return Fatal;
            }
          }
          return Reconnect;
        case ReplayRejected => return Fatal;
        case OtherError => return Reconnect;
      }
    }

    /** The stream broke: the buffer is kept to be flushed before a reconnect, as it is
        for every error that is not about logins or the replay ID, and abandoned after a
        fatal error. */
    method HandleBrokenStream(error: StreamError, loginWorks: bool, ghost pending: nat) returns (end: Ending)
      requires Agrees(Select, NoAct, pending)
      modifies this`buffer, this`authFailures, world
      ensures old(world.steps) <= world.steps && old(world.calls) == world.calls
      ensures (end, authFailures) == Classified(error, loginWorks, sessionHealthy, old(authFailures))
      ensures end.Reconnect? || end.Fatal?
      ensures error.OtherError? ==> end.Reconnect?
      ensures end.Reconnect? ==> Agrees(Closing(false), NoAct, pending) && buffer == old(buffer)
      ensures end.Fatal? ==> Dead() && buffer == []
    {
      end := ClassifyStreamError(error, loginWorks);
      if end.Fatal? {
        world.Act(me, Stop);
        buffer := [];
      } else {
        world.Act(me, EndSession(false));
      }
    }

    /** One turn of the session's loop: the lease is gone, a shutdown, silence, the flush
        timer, an answer of the server, or a broken stream. */
    method Turn(wake: Wake, pending: nat, budget: nat, shuttingDown: bool) returns (end: Option<Ending>, pending': nat)
      requires Agrees(Select, NoAct, pending)
      modifies this`committed, this`buffer, this`sessionHealthy, this`authFailures, world
      ensures old(world.steps) <= world.steps && old(world.calls) <= world.calls
      ensures end.None? ==> Agrees(Select, NoAct, pending')
      ensures end == Some(Reconnect) ==> Agrees(Closing(false), NoAct, pending')
      ensures end == Some(ShutDown) ==> Agrees(Closing(true), NoAct, pending')
      ensures end == Some(Fatal) ==> Dead()
      ensures end == Some(Interrupted) ==> Dead() && buffer == []
      ensures match wake
              case LeaseGone => end == Some(Fatal)
              case ShutDownAsked => end == Some(ShutDown) && buffer == old(buffer)
              case SilentTooLong => end == Some(Reconnect) && buffer == old(buffer)
              case FlushDue =>
                && (end.Some? ==> end.value.Fatal? && old(buffer) != [])
                && (end.Some? && world.Faultless(old(world.calls), world.calls) ==> Ousted())
                && (end.None? ==> buffer == [] && forall r :: r in old(buffer) ==> r in world.st.archived)
              case Answered =>
                && (end.Some? && world.Faultless(old(world.calls), world.calls) ==> Ousted())
                && (end.Some? ==> !end.value.ShutDown?)
                && authFailures == (if sessionHealthy && !old(sessionHealthy) then 0 else old(authFailures))
                && (old(sessionHealthy) ==> sessionHealthy)
              case StreamBroke(error, loginWorks) =>
                && end.Some?
                && (end.value, authFailures) == Classified(error, loginWorks, old(sessionHealthy), old(authFailures))
                && (end.value.Reconnect? ==> buffer == old(buffer))
      ensures !wake.Answered? ==> sessionHealthy == old(sessionHealthy)
      ensures !wake.Answered? && !wake.StreamBroke? ==> authFailures == old(authFailures)
    {
      end, pending' := None, pending;
      match wake {
        case LeaseGone =>
          world.Act(me, Stop);
          buffer := [];
          end := Some(Fatal);
        case ShutDownAsked =>
          world.Act(me, EndSession(true));
          end := Some(ShutDown);
        case SilentTooLong =>
          world.Act(me, EndSession(false));
          end := Some(Reconnect);
        case FlushDue =>
          if |buffer| > 0 {
            world.Act(me, StartFlush);
            var ok := Flush(budget, Select, pending);
            end := if ok then None else Some(Fatal);
          }
        case Answered => end, pending' := Answer(pending, budget, shuttingDown);
        case StreamBroke(error, loginWorks) =>
          var broken := HandleBrokenStream(error, loginWorks, pending);
          end := Some(broken);
      }
    }

    /** Takes the next response, if there is one; the first of a session proves that the
        credentials work. */
    method Answer(pending: nat, budget: nat, shuttingDown: bool) returns (end: Option<Ending>, pending': nat)
      requires Agrees(Select, NoAct, pending)
      modifies this`committed, this`buffer, this`sessionHealthy, this`authFailures, world
      ensures old(world.steps) <= world.steps && old(world.calls) <= world.calls
      ensures end.None? ==> Agrees(Select, NoAct, pending')
      ensures end.Some? ==> !end.value.ShutDown?
      ensures end == Some(Reconnect) ==> Agrees(Closing(false), NoAct, pending')
      ensures end == Some(Fatal) ==> Dead()
      ensures end == Some(Interrupted) ==> Dead() && buffer == []
      ensures end.Some? && world.Faultless(old(world.calls), world.calls) ==> Ousted()
      ensures !sessionHealthy ==> end.None? && !old(sessionHealthy) && authFailures == old(authFailures)
                                  && buffer == old(buffer) && world.st.collectors[me].link.wire == []
      ensures sessionHealthy ==> authFailures == if old(sessionHealthy) then old(authFailures) else 0
    {
      var resp := world.Receive(me);
      if resp.None? {
        return None, pending;
      }
      if !sessionHealthy {
        sessionHealthy := true;
        authFailures := 0;
      }
      end, pending' := HandleResponse(resp.value, pending, budget, shuttingDown);
    }

    ghost predicate Idle()
      reads this`committed, this`buffer, world
    {
      buffer == [] && world.Has(me) && Agrees(Between, NoAct, world.Mine(me).pending)
    }

    method LoginFailed() returns (end: Ending)
      requires Idle()
      modifies this`authFailures, world
      ensures old(world.steps) <= world.steps && world.calls == old(world.calls)
      ensures (end, authFailures) == Counted(old(authFailures))
      ensures if end.Fatal? then Dead() else Idle()
    {
      end := AuthFailed();
      if end.Fatal? {
        world.Act(me, Stop);
      }
    }

    /** One session: log in if need be, open a subscription stream and follow it. A login
        that fails is counted; a stream that cannot be opened is only tried again. */
    method Session(course: Course, budget: nat) returns (end: Ending, ghost m: Mishap)
      requires Idle()
      modifies this`committed, this`buffer, this`sessionHealthy, this`authFailures, world
      ensures old(world.steps) <= world.steps && old(world.calls) <= world.calls
      ensures if end.Reconnect? then Idle() else Dead()
      ensures authFailures == Meet(m, old(authFailures)).1 && (Meet(m, old(authFailures)).0.Fatal? ==> end.Fatal?)
      ensures course.login && !world.WorksAt(old(world.calls)) ==> m.LoginFails? && committed == old(committed)
      ensures m.LoginFails? ==> course.login && end == Meet(m, old(authFailures)).0
      ensures !course.login && !world.WorksAt(old(world.calls)) ==>
                end == Reconnect && m == Leaves(false) && committed == old(committed)
      ensures end.Fatal? && Meet(m, old(authFailures)).0.Reconnect? && LeaseGone !in course.wakes ==>
                !world.Faultless(old(world.calls), world.calls) || Ousted()
    {
      if course.login {
        var loggedIn := world.Call(me);
        if !loggedIn {
          m := LoginFails;
          end := LoginFailed();
          return;
        }
      }
      sessionHealthy := false;
      var works := world.Call(me);
      if works {
        end, m := FollowStream(course.wakes, budget, course.shuttingDown);
      } else {
        end, m := Reconnect, Leaves(false);
      }
    }

    /** One subscription stream, followed through its wakes until one ends it. A position
        that is rejected is fatal. */
    method FollowStream(wakes: seq<Wake>, budget: nat, shuttingDown: bool) returns (end: Ending, ghost m: Mishap)
      requires Idle() && !sessionHealthy
      modifies this`committed, this`buffer, this`sessionHealthy, this`authFailures, world
      ensures old(world.steps) <= world.steps && old(world.calls) <= world.calls
      ensures if end.Reconnect? then Idle() else Dead()
      ensures !m.LoginFails? && m.data == sessionHealthy
      ensures m.Breaks? ==> StreamBroke(m.error, m.loginWorks) in wakes || m == Breaks(ReplayRejected, true, false)
      ensures authFailures == Meet(m, old(authFailures)).1 && (Meet(m, old(authFailures)).0.Fatal? ==> end.Fatal?)
      ensures end.Fatal? && Meet(m, old(authFailures)).0.Reconnect? && LeaseGone !in wakes ==>
                !world.Faultless(old(world.calls), world.calls) || Ousted()
    {
      var accepted := world.Subscribe(me);
      if !accepted {
        return Fatal, Breaks(ReplayRejected, true, false);
      }
      var outcome, pending;
      ghost var turns;
      outcome, pending, turns := FollowWakes(wakes, world.cfg.appetite, budget, shuttingDown);
      assert turns > 0 ==> wakes[turns - 1] in wakes;
      m := if outcome.Some? && wakes[turns - 1].StreamBroke?
           then Breaks(wakes[turns - 1].error, wakes[turns - 1].loginWorks, sessionHealthy)
           else Leaves(sessionHealthy);
      end := LeaveStream(outcome, pending, budget);
    }

    /** Turns that did not end the session: a flush or an answer, up to the last if that
        one ended it. */
    ghost predicate WentOn(wakes: seq<Wake>, turns: nat, ended: bool) {
      && turns <= |wakes| && (ended ==> turns > 0)
      && forall w :: w in wakes[..if ended then turns - 1 else turns] ==> w.FlushDue? || w.Answered?
    }

    /** Data forgets the failures before it; a broken stream is then judged, and nothing
        else is counted. */
    ghost predicate Accounts(wakes: seq<Wake>, turns: nat, outcome: Option<Ending>, before: nat)
      requires WentOn(wakes, turns, outcome.Some?)
      reads this
    {
      var failures := if sessionHealthy then 0 else before;
      if outcome.Some? && wakes[turns - 1].StreamBroke? then
        (outcome.value, authFailures)
        == Classified(wakes[turns - 1].error, wakes[turns - 1].loginWorks, sessionHealthy, failures)
      else authFailures == failures
    }

    /** The loop of a session: turn after turn until one ends it. */
    method FollowWakes(wakes: seq<Wake>, pending: nat, budget: nat, shuttingDown: bool)
      returns (outcome: Option<Ending>, pending': nat, ghost turns: nat)
      requires Agrees(Select, NoAct, pending) && !sessionHealthy
      modifies this`committed, this`buffer, this`sessionHealthy, this`authFailures, world
      ensures old(world.steps) <= world.steps && old(world.calls) <= world.calls
      ensures Left(outcome, pending')
      ensures outcome.None? ==> turns == |wakes|
      ensures WentOn(wakes, turns, outcome.Some?)
      ensures Accounts(wakes, turns, outcome, old(authFailures))
      ensures outcome == Some(Fatal) && !wakes[turns - 1].StreamBroke? && !wakes[turns - 1].LeaseGone? ==>
                !world.Faultless(old(world.calls), world.calls) || Ousted()
    {
      outcome, pending', turns := None, pending, 0;
      var left := |wakes|;
      while left > 0 && outcome.None?
        invariant left <= |wakes| && turns == |wakes| - left
        invariant old(world.steps) <= world.steps && old(world.calls) <= world.calls
        invariant Left(outcome, pending')
        invariant WentOn(wakes, turns, outcome.Some?)
        invariant Accounts(wakes, turns, outcome, old(authFailures))
        invariant outcome == Some(Fatal) && !wakes[turns - 1].StreamBroke? && !wakes[turns - 1].LeaseGone? ==>
                    !world.Faultless(old(world.calls), world.calls) || Ousted()
      {
        outcome, pending' := Turn(wakes[|wakes| - left], pending', budget, shuttingDown);
        left, turns := left - 1, turns + 1;
      }
    }

    /** Where a session's loop has left the collector. */
    ghost predicate Left(outcome: Option<Ending>, pending: nat)
      reads this`committed, this`buffer, world
    {
      match outcome
      case None => Agrees(Select, NoAct, pending)
      case Some(Reconnect) => Agrees(Closing(false), NoAct, pending)
      case Some(ShutDown) => Agrees(Closing(true), NoAct, pending)
      case Some(_) => Dead()
    }

    /** The deferred part of a session. One that is cut short reconnects. */
    method LeaveStream(outcome: Option<Ending>, pending: nat, budget: nat) returns (end: Ending)
      requires Left(outcome, pending)
      modifies this`committed, this`buffer, world
      ensures old(world.steps) <= world.steps && old(world.calls) <= world.calls
      ensures if end.Reconnect? then Idle() else Dead()
      ensures outcome == Some(Fatal) ==> end.Fatal? && world.st == old(world.st)
      ensures outcome == Some(Interrupted) ==> end.ShutDown?
      ensures outcome != Some(Fatal) && end.Fatal? && world.Faultless(old(world.calls), world.calls) ==> Ousted()
      ensures !end.Fatal? && outcome != Some(Interrupted) ==> forall r :: r in old(buffer) ==> r in world.st.archived
    {
      match outcome {
        case None =>
          world.Act(me, EndSession(false));
          end := CloseSession(false, pending, budget);
        case Some(Reconnect) => end := CloseSession(false, pending, budget);
        case Some(ShutDown) => end := CloseSession(true, pending, budget);
        case Some(Fatal) =>
          buffer := [];
          end := Fatal;
        case Some(Interrupted) => end := ShutDown;
      }
    }

    /** Session after session until a fatal error or a shutdown, and none after a mishap
        that leaves no hope. */
    method FollowSessions(courses: seq<Course>, budget: nat) returns (ghost ms: seq<Mishap>)
      requires Idle() && authFailures == 0
      modifies this`committed, this`buffer, this`sessionHealthy, this`authFailures, world
      ensures old(world.steps) <= world.steps && Dead()
      ensures |ms| <= |courses| && authFailures == InARow(ms) && HopedOn(ms)
    {
      ms := [];
      var i := 0;
      var end := Reconnect;
      while i < |courses| && end.Reconnect?
        invariant i <= |courses| && |ms| == i
        invariant if end.Reconnect? then Idle() else Dead()
        invariant old(world.steps) <= world.steps
        invariant authFailures == MetAll(ms).1 && HopedOn(ms)
        invariant end.Reconnect? && ms != [] ==> !Hopeless(ms)
      {
        ghost var m;
        end, m := Session(courses[i], budget);
        MetNext(ms, m);
        HopesOn(ms, m);
        i, ms := i + 1, ms + [m];
        CountIsInARow(ms);
      }
      CountIsInARow(ms);
      if end.Reconnect? {
        world.Act(me, Stop);
      }
    }

    /** The subscriber's whole life, for as many sessions as there are courses: take the
        lease, load the checkpoint, and archive until a fatal error or a shutdown. The
        lease is given up on every way out, and the archive then holds every event
        between the base and the checkpoint that the server did not jump over. */
    method Run(courses: seq<Course>, budget: nat) returns (ghost ms: seq<Mishap>)
      requires Agrees(Waiting, NoAct, 0) && buffer == [] && authFailures == 0
      modifies this`committed, this`buffer, this`sessionHealthy, this`authFailures, world
      ensures world.Has(me) && old(world.steps) <= world.steps
      ensures world.Mine(me).phase.Waiting? || (Dead() && world.st.lease != Some(me))
      ensures StoredOk(world.st)
      ensures |ms| <= |courses| && authFailures == InARow(ms) && HopedOn(ms)
    {
      ms := [];
      var ok := world.Acquire(me);
      world.Reachable();
      if !ok {
        return;
      }
      var loaded, replay := world.Load(me);
      if !loaded {
        world.Act(me, Stop);
      } else {
        committed := replay;
        if replay.Some? || !initialReplay.Refuse? {
          assert Agrees(Between, NoAct, 0);
          ms := FollowSessions(courses, budget);
        }
      }
      world.Release(me);
      world.Reachable();
    }
  }
}
