/**
 What can go wrong does: runs of the protocol, as the mock server and the commit
 script behave, in which a keepalive or a trimmed window leaves an event at or
 below the stored checkpoint unarchived, and in which an overtaken commit moves
 the checkpoint back.
 */
module ProtocolRace {
  import opened Common
  import opened Grouping
  import opened Topic
  import opened Protocol
  import opened ProtocolTheorems

  const ONE := Config(1, 1, 100)

  lemma Extend(steps: seq<Step>, cur: State, step: Step, next: State) returns (more: seq<Step>)
    requires Possible(Initial(ONE), steps) && Run(Initial(ONE), steps) == cur
    requires Sane(cur) && Enabled(cur, step) && Apply(cur, step) == next
    ensures more == steps + [step]
    ensures Possible(Initial(ONE), more) && Run(Initial(ONE), more) == next
  {
    more := steps + [step];
    RunAppend(Initial(ONE), steps, step);
  }

  function Only(st: State, k: Collector): State { st.(collectors := map[0 := k]) }

  /** A single collector, numbered 0. */
  ghost predicate Alone(st: State, k: Collector) {
    1 <= st.oldest && st.collectors == map[0 := k] && k.link.cursor <= |st.log|
  }

  lemma OwnStep(steps: seq<Step>, st: State, k: Collector, move: Move, k': Collector) returns (more: seq<Step>)
    requires Possible(Initial(ONE), steps) && Run(Initial(ONE), steps) == st && Alone(st, k)
    requires Own(move) && Ready(st, k, move) && AfterOwn(st, k, move) == k'
    ensures Possible(Initial(ONE), more) && Run(Initial(ONE), more) == Only(st, k')
  {
    assert map[0 := k][0 := k'] == map[0 := k'];
    more := Extend(steps, st, By(0, move), Only(st, k'));
  }

  // The collector at each point of the run: subscribed, event 1 sent, received,
  // decoded, archived, committed, waiting again, keepalive sent, received, committed.

  const FIRST := Response([1], 1, 0)
  const KEEPALIVE := Response([], 2, 1)
  const BATCH := [Record(1, "a")]

  const K1 := Collector(Earliest, Select, NoAct, None, [], 1, 0, Link(0, 0, 1, [], []))
  const K2 := K1.(link := Link(0, 1, 0, [FIRST], []))
  const K3 := K1.(phase := Handling([1], FIRST), mark := 1, link := Link(0, 1, 0, [], []))
  const K4 := K3.(phase := Handling([], FIRST), buffer := BATCH, pending := 0, act := Writing(["a"]))
  const K5 := K4.(act := Committing(1, false))
  const K6 := K5.(act := NoAct, committed := Some(1), buffer := [])
  const K7 := Collector(Earliest, Select, NoAct, Some(1), [], 1, 1, Link(0, 1, 0, [], [1]))
  const K8 := K7.(link := Link(0, 2, 1, [KEEPALIVE], []))
  const K9 := K7.(phase := Handling([], KEEPALIVE), mark := 2, link := Link(0, 2, 1, [], []))

  function OneEvent(k: Collector): State {
    State(ONE, ["a"], 1, Some(0), None, {}, map[0 := k], {}, {}, None, 0, {})
  }

  function Archived(k: Collector): State {
    OneEvent(k).(archived := {Record(1, "a")}, booted := {1})
  }

  function Committed(k: Collector): State {
    Archived(k).(checkpoint := Some(1), base := Some(0), peak := 1)
  }

  /** The commits still under way: one, if the first attempt was not reported. */
  function Retried(retried: bool): set<Late> {
    if retried then {Late(0, 1, 0)} else {}
  }

  lemma RaceSubscribes() returns (steps: seq<Step>)
    ensures Possible(Initial(ONE), steps) && Run(Initial(ONE), steps) == OneEvent(K1)
  {
    var s0 := Initial(ONE);
    var s1 := s0.(log := ["a"]);
    var s2 := Only(s1, Fresh(Earliest));
    var s3 := OneEvent(Fresh(Earliest).(phase := Leased));
    var k4 := Fresh(Earliest).(phase := Between);
    assert [] + ["a"] == ["a"];
    steps := Extend([], s0, Env(Publish(["a"])), s1);
    steps := Extend(steps, s1, By(0, Start(Earliest)), s2);
    steps := Extend(steps, s2, By(0, Acquire), s3);
    steps := OwnStep(steps, s3, s3.collectors[0], Load, k4);
    steps := OwnStep(steps, OneEvent(k4), k4, Subscribe, K1);
  }

  lemma RaceSends() returns (steps: seq<Step>)
    ensures Possible(Initial(ONE), steps) && Run(Initial(ONE), steps) == OneEvent(K2)
  {
    steps := RaceSubscribes();
    assert Batch(1, 1, 0, 1) == [1];
    assert Jumped(1, 1, 0, 1, 0, 100) == {} by { FreshDemandIsSound(1, 1, 0, 1, 100); }
    assert [] + [FIRST] == [FIRST];
    steps := Extend(steps, OneEvent(K1), By(0, ServerRespond(0, 0)), OneEvent(K2));
  }

  lemma RaceDecodes() returns (steps: seq<Step>)
    ensures Possible(Initial(ONE), steps) && Run(Initial(ONE), steps) == OneEvent(K4)
  {
    steps := RaceSends();
    assert [FIRST][1..] == [];
    steps := OwnStep(steps, OneEvent(K2), K2, Receive, K3);
    assert [] + BATCH == BATCH && [1][1..] == [] && BATCH[..0] == [] && Kinds(BATCH) == ["a"];
    steps := OwnStep(steps, OneEvent(K3), K3, Decode, K4);
  }

  lemma OneKind(r: Record)
    ensures Kinds([r]) == [r.kind] && OfKind([r], r.kind) == [r]
    ensures (set x | x in [r]) == {r} && (set x | x in [r] :: x.at) == {r.at}
  {
    assert [r][..0] == [] && [r][0] == r;
  }

  lemma RaceArchives() returns (steps: seq<Step>)
    ensures Possible(Initial(ONE), steps) && Run(Initial(ONE), steps) == Archived(K5)
  {
    steps := RaceDecodes();
    OneKind(Record(1, "a"));
    assert ["a"][1..] == [];
    steps := Extend(steps, OneEvent(K4), By(0, WriteGroup(true, true)), Archived(K5));
  }

  lemma RaceCommits(retried: bool) returns (steps: seq<Step>)
    ensures Possible(Initial(ONE), steps)
    ensures Run(Initial(ONE), steps) == Committed(K6).(late := Retried(retried))
  {
    steps := RaceArchives();
    var st := Archived(K5).(late := Retried(retried));
    if retried {
      assert {} + Retried(true) == Retried(true);
      steps := Extend(steps, Archived(K5), By(0, TryCommit(false, false)), st);
    }
    steps := Extend(steps, st, By(0, TryCommit(true, true)), Committed(K6).(late := Retried(retried)));
  }

  /** More events are published while the collector asks for one more. */
  lemma RaceAsksAgain(retried: bool, more: seq<string>) returns (steps: seq<Step>)
    ensures Possible(Initial(ONE), steps)
    ensures Run(Initial(ONE), steps) == Committed(K7).(log := ["a"] + more, late := Retried(retried))
  {
    steps := RaceCommits(retried);
    var pinning, toppingUp := K6.(phase := Pinning(FIRST)), K6.(phase := ToppingUp);
    var late := Retried(retried);
    steps := OwnStep(steps, Committed(K6).(late := late), K6, Advance, pinning);
    steps := OwnStep(steps, Committed(pinning).(late := late), pinning, Advance, toppingUp);
    var st := Committed(toppingUp).(log := ["a"] + more, late := late);
    steps := Extend(steps, Committed(toppingUp).(late := late), Env(Publish(more)), st);
    assert [] + [1] == [1];
    steps := OwnStep(steps, st, toppingUp, Advance, K7);
  }

  // ------------------------------------------------------------- the keepalive race

  lemma RaceKeepsAlive() returns (steps: seq<Step>)
    ensures Possible(Initial(ONE), steps)
    ensures Run(Initial(ONE), steps) == Committed(K8).(log := ["a", "b"], skipped := {2})
  {
    steps := RaceAsksAgain(false, ["b"]);
    assert ["a"] + ["b"] == ["a", "b"];
    var st := Committed(K7).(log := ["a", "b"]);
    assert Sum([1][..1]) == 1 by { assert [1][..1] == [1] && [1][1..] == []; }
    assert [1][1..] == [] && [] + [KEEPALIVE] == [KEEPALIVE];
    assert Batch(1, 2, 1, 0) == [];
    assert Jumped(1, 2, 1, 0, 1, 100) == {2};
    steps := Extend(steps, st, By(0, ServerRespond(1, 0)), Only(st, K8).(skipped := {2}));
  }

  lemma RaceOffersCommit() returns (steps: seq<Step>)
    ensures Possible(Initial(ONE), steps)
    ensures Run(Initial(ONE), steps)
         == Committed(K9.(phase := Keeping(KEEPALIVE), act := Committing(2, true))).(log := ["a", "b"], skipped := {2})
  {
    steps := RaceKeepsAlive();
    var st := Committed(K8).(log := ["a", "b"], skipped := {2});
    assert [KEEPALIVE][1..] == [];
    steps := OwnStep(steps, st, K8, Receive, K9);
    var pinning := K9.(phase := Pinning(KEEPALIVE));
    steps := OwnStep(steps, Only(st, K9), K9, Advance, pinning);
    var keeping := K9.(phase := Keeping(KEEPALIVE), act := Committing(2, true));
    steps := OwnStep(steps, Only(st, pinning), pinning, Advance, keeping);
  }

  /** The request arrives between the server's two readings of demand: the
      keepalive reports event 2, and the collector commits it unseen. */
  lemma RacedKeepaliveLoses() returns (steps: seq<Step>)
    ensures Possible(Initial(ONE), steps)
    ensures var st := Run(Initial(ONE), steps);
            && st.checkpoint == Some(2) && st.base == Some(0)
            && EventAt(st, 2) !in st.archived && st.skipped == {2}
  {
    steps := RaceOffersCommit();
    var keeping := K9.(phase := Keeping(KEEPALIVE), act := Committing(2, true));
    var st := Committed(keeping).(log := ["a", "b"], skipped := {2});
    var done := K9.(phase := ToppingUp, committed := Some(2));
    steps := Extend(steps, st, By(0, TryCommit(true, true)), Only(st, done).(checkpoint := Some(2), peak := 2));
  }

  // ------------------------------------------------- one more event, the regular way

  /** The newest event is the only one the server has to offer. */
  predicate Newest(log: seq<string>, oldest: nat) {
    1 <= oldest <= |log| && 2 <= |log| && (|log| == 2 || oldest == |log|)
  }

  function Missed(log: seq<string>, oldest: nat): set<nat>
    requires Newest(log, oldest)
  {
    Jumped(oldest, |log|, 1, 1, 0, 100)
  }

  lemma NewestBatch(log: seq<string>, oldest: nat)
    requires Newest(log, oldest)
    ensures Batch(oldest, |log|, 1, 1) == [|log|]
  {
  }

  function Later(k: Collector, log: seq<string>, oldest: nat, retried: bool): State
    requires Newest(log, oldest)
  {
    Committed(k).(log := log, oldest := oldest, late := Retried(retried), skipped := Missed(log, oldest))
  }

  // The collector again: newest event sent, received, decoded, committing, committed.

  function L2(n: nat): Collector { K7.(link := Link(0, n, 0, [Response([n], n, 0)], [])) }

  function L3(n: nat): Collector {
    K7.(phase := Handling([n], Response([n], n, 0)), mark := n, link := Link(0, n, 0, [], []))
  }

  function L4(r: Record): Collector {
    L3(r.at).(phase := Handling([], Response([r.at], r.at, 0)), buffer := [r], pending := 0, act := Writing([r.kind]))
  }

  function L5(r: Record): Collector { L4(r).(act := Committing(r.at, false)) }

  function L6(r: Record): Collector { L4(r).(act := NoAct, committed := Some(r.at), buffer := []) }

  lemma NewestSent(steps: seq<Step>, log: seq<string>, oldest: nat, retried: bool) returns (more: seq<Step>)
    requires Newest(log, oldest) && Possible(Initial(ONE), steps)
    requires Run(Initial(ONE), steps) == Committed(K7).(log := log, oldest := oldest, late := Retried(retried))
    ensures Possible(Initial(ONE), more) && Run(Initial(ONE), more) == Later(L2(|log|), log, oldest, retried)
  {
    var st := Committed(K7).(log := log, oldest := oldest, late := Retried(retried));
    var waiting := K7.(link := Link(0, 1, 1, [], []));
    assert [1][1..] == [];
    more := OwnStep(steps, st, K7, ServerTake, waiting);
    NewestBatch(log, oldest);
    assert [] + [Response([|log|], |log|, 0)] == [Response([|log|], |log|, 0)];
    assert {} + Missed(log, oldest) == Missed(log, oldest);
    more := Extend(more, Only(st, waiting), By(0, ServerRespond(0, 0)), Later(L2(|log|), log, oldest, retried));
  }

  lemma NewestReceived(steps: seq<Step>, log: seq<string>, oldest: nat, retried: bool) returns (more: seq<Step>)
    requires Newest(log, oldest) && Possible(Initial(ONE), steps)
    requires Run(Initial(ONE), steps) == Later(L2(|log|), log, oldest, retried)
    ensures Possible(Initial(ONE), more) && Run(Initial(ONE), more) == Later(L3(|log|), log, oldest, retried)
  {
    var n := |log|;
    assert [Response([n], n, 0)][1..] == [];
    more := OwnStep(steps, Later(L2(n), log, oldest, retried), L2(n), Receive, L3(n));
  }

  lemma NewestDecodes(log: seq<string>, oldest: nat, retried: bool, r: Record)
    requires Newest(log, oldest) && r == Record(|log|, log[|log| - 1])
    ensures AfterDecode(Later(L3(r.at), log, oldest, retried), L3(r.at)) == L4(r)
  {
    assert [] + [r] == [r] && [r.at][1..] == [];
    OneKind(r);
  }

  lemma NewestDecoded(steps: seq<Step>, log: seq<string>, oldest: nat, retried: bool, r: Record)
      returns (more: seq<Step>)
    requires Newest(log, oldest) && Possible(Initial(ONE), steps) && r == Record(|log|, log[|log| - 1])
    requires Run(Initial(ONE), steps) == Later(L3(r.at), log, oldest, retried)
    ensures Possible(Initial(ONE), more) && Run(Initial(ONE), more) == Later(L4(r), log, oldest, retried)
  {
    NewestDecodes(log, oldest, retried, r);
    more := OwnStep(steps, Later(L3(r.at), log, oldest, retried), L3(r.at), Decode, L4(r));
  }

  function Both(st: State, r: Record): State { st.(archived := {Record(1, "a")} + {r}) }

  lemma NewestWritten(steps: seq<Step>, log: seq<string>, oldest: nat, retried: bool, r: Record)
      returns (more: seq<Step>)
    requires Newest(log, oldest) && Possible(Initial(ONE), steps) && r.at == |log|
    requires Run(Initial(ONE), steps) == Later(L4(r), log, oldest, retried)
    ensures Possible(Initial(ONE), more)
    ensures Run(Initial(ONE), more) == Both(Later(L5(r), log, oldest, retried), r)
  {
    var st := Later(L4(r), log, oldest, retried);
    OneKind(r);
    assert [r.kind][1..] == [] && map[0 := L4(r)][0 := L5(r)] == map[0 := L5(r)];
    assert AfterWrite(st, 0, true, true) == Only(Both(st, r), L5(r));
    more := Extend(steps, st, By(0, WriteGroup(true, true)), Both(Later(L5(r), log, oldest, retried), r));
  }

  lemma NewestCommitted(steps: seq<Step>, log: seq<string>, oldest: nat, retried: bool, r: Record)
      returns (more: seq<Step>)
    requires Newest(log, oldest) && Possible(Initial(ONE), steps) && r.at == |log|
    requires Run(Initial(ONE), steps) == Both(Later(L5(r), log, oldest, retried), r)
    ensures Possible(Initial(ONE), more)
    ensures Run(Initial(ONE), more)
         == Both(Later(L6(r), log, oldest, retried), r).(checkpoint := Some(|log|), peak := |log|)
  {
    more := Extend(steps, Both(Later(L5(r), log, oldest, retried), r), By(0, TryCommit(true, true)),
                   Both(Later(L6(r), log, oldest, retried), r).(checkpoint := Some(r.at), peak := r.at));
  }

  /** From the request for one more event to the commit of the newest. */
  lemma NewestArchived(steps: seq<Step>, log: seq<string>, oldest: nat, retried: bool) returns (more: seq<Step>)
    requires Newest(log, oldest) && Possible(Initial(ONE), steps)
    requires Run(Initial(ONE), steps) == Committed(K7).(log := log, oldest := oldest, late := Retried(retried))
    ensures Possible(Initial(ONE), more)
    ensures var r := Record(|log|, log[|log| - 1]);
            var last := Both(Later(L6(r), log, oldest, retried), r);
            Run(Initial(ONE), more) == last.(checkpoint := Some(|log|), peak := |log|)
  {
    var r := Record(|log|, log[|log| - 1]);
    more := NewestSent(steps, log, oldest, retried);
    more := NewestReceived(more, log, oldest, retried);
    more := NewestDecoded(more, log, oldest, retried, r);
    more := NewestWritten(more, log, oldest, retried, r);
    more := NewestCommitted(more, log, oldest, retried, r);
  }

  // --------------------------------------------------------- retention and late commits

  lemma TrimmedIsMissed(log: seq<string>)
    requires |log| == 3
    ensures Missed(log, 3) == {2}
  {
    NewestBatch(log, 3);
  }

  /** Retention overtakes a live cursor: event 2 is trimmed before it is sent, and the
      collector commits event 3. */
  lemma TrimmedWindowLoses() returns (steps: seq<Step>)
    ensures Possible(Initial(ONE), steps)
    ensures var st := Run(Initial(ONE), steps);
            && st.checkpoint == Some(3) && st.base == Some(0)
            && EventAt(st, 2) !in st.archived && st.skipped == {2}
  {
    var log := ["a"] + ["b", "c"];
    steps := RaceAsksAgain(false, ["b", "c"]);
    var st := Committed(K7).(log := log);
    steps := Extend(steps, st, Env(Trim(3)), st.(oldest := 3));
    steps := NewestArchived(steps, log, 3, false);
    TrimmedIsMissed(log);
  }

  /** The first attempt to commit event 1 was not reported and was retried. It arrives
      after event 2 is committed, and moves the checkpoint back. */
  lemma LateCommitMovesBack() returns (steps: seq<Step>)
    ensures Possible(Initial(ONE), steps) && steps != []
    ensures var before, last := steps[..|steps| - 1], steps[|steps| - 1];
            && Possible(Initial(ONE), before) && Run(Initial(ONE), before).checkpoint == Some(2)
            && Run(Initial(ONE), steps).checkpoint == Some(1) && Run(Initial(ONE), steps).peak == 2
            && Overtaken(Run(Initial(ONE), before), last)
  {
    var before := RaceAsksAgain(true, ["b"]);
    before := NewestArchived(before, ["a"] + ["b"], 1, true);
    var st := Run(Initial(ONE), before);
    steps := Extend(before, st, Env(Arrive(Late(0, 1, 0))), st.(checkpoint := Some(1)));
    assert steps[..|steps| - 1] == before;
  }
}
