/**
 The topic server: a retained window over an ever-growing log, replay IDs, the
 starting position of a subscription, and what one delivery round sends.

 Event number n is the n-th event ever published, so a topic whose log has
 `head` events and whose oldest retained event is `oldest` retains exactly the
 numbers oldest..head. A cursor is the number of the last event consumed.
 */
module Topic {
  import opened Common

  // ---------------------------------------------------------------- replay IDs

  newtype Byte = b: int | 0 <= b < 256

  const SEQ_LIMIT: nat := 0x1_0000_0000_0000_0000

  /** The low `width` bytes of n, most significant first. */
  function BigEndian(n: nat, width: nat): (bytes: seq<Byte>)
    ensures |bytes| == width
  {
    if width == 0 then [] else BigEndian(n / 256, width - 1) + [(n % 256) as Byte]
  }

  function FromBigEndian(bytes: seq<Byte>): nat {
    if bytes == [] then 0
    else 256 * FromBigEndian(bytes[..|bytes| - 1]) + bytes[|bytes| - 1] as nat
  }

  function Power256(width: nat): nat {
    if width == 0 then 1 else 256 * Power256(width - 1)
  }

  lemma {:induction false} BigEndianRoundTrip(n: nat, width: nat)
    requires n < Power256(width)
    ensures FromBigEndian(BigEndian(n, width)) == n
  {
    if width > 0 {
      BigEndianRoundTrip(n / 256, width - 1);
      var high := BigEndian(n / 256, width - 1);
      assert BigEndian(n, width)[..width - 1] == high;
    }
  }

  lemma {:induction false} FromBigEndianBound(bytes: seq<Byte>)
    ensures FromBigEndian(bytes) < Power256(|bytes|)
  {
    if bytes != [] { FromBigEndianBound(bytes[..|bytes| - 1]); }
  }

  lemma {:induction false} BigEndianOfFrom(bytes: seq<Byte>)
    ensures BigEndian(FromBigEndian(bytes), |bytes|) == bytes
  {
    if bytes != [] {
      var high := bytes[..|bytes| - 1];
      BigEndianOfFrom(high);
      assert bytes == high + [bytes[|bytes| - 1]];
    }
  }

  function ReplayBytes(n: nat): seq<Byte>
    requires n < SEQ_LIMIT
  {
    BigEndian(n, 8)
  }

  function ReplaySeq(bytes: seq<Byte>): Option<nat> {
    if |bytes| != 8 then None else Some(FromBigEndian(bytes))
  }

  lemma EightBytes()
    ensures Power256(8) == SEQ_LIMIT
  {
    assert Power256(4) == 0x1_0000_0000;
    assert Power256(8) == 256 * 256 * 256 * 256 * Power256(4);
  }

  /** Replay IDs and event numbers determine each other. */
  lemma ReplayRoundTrip(n: nat)
    requires n < SEQ_LIMIT
    ensures ReplaySeq(ReplayBytes(n)) == Some(n)
  {
    EightBytes();
    BigEndianRoundTrip(n, 8);
  }

  lemma ReplayInjective(bytes: seq<Byte>)
    ensures ReplaySeq(bytes).Some? <==> |bytes| == 8
    ensures ReplaySeq(bytes).Some? ==>
              ReplaySeq(bytes).value < SEQ_LIMIT && ReplayBytes(ReplaySeq(bytes).value) == bytes
  {
    if |bytes| == 8 {
      EightBytes();
      FromBigEndianBound(bytes);
      BigEndianOfFrom(bytes);
    }
  }

  // --------------------------------------------------- positions of one delivery

  datatype Preset = LatestPreset | EarliestPreset | Custom(replayId: seq<Byte>)

  /** The cursor a new subscription starts from; None is the replay-ID error. */
  function StartCursor(oldest: nat, head: nat, preset: Preset): Option<nat>
    requires 1 <= oldest
  {
    match preset
    case LatestPreset => Some(head)
    case EarliestPreset => Some(oldest - 1)
    case Custom(id) =>
      var n := ReplaySeq(id);
      if n.None? || n.value + 1 < oldest || n.value >= head + 1 then None else n
  }

  /** The events a new subscription is owed: at EARLIEST every retained one, at LATEST
      none published so far, and after a replay ID those that follow it, if none of
      them has been trimmed and it has been published. */
  lemma StartOwes(oldest: nat, head: nat, n: nat)
    requires 1 <= oldest <= head + 1
    ensures var cursor := StartCursor(oldest, head, EarliestPreset);
            cursor.Some? && cursor.value <= head && (n > cursor.value <==> n >= oldest)
    ensures StartCursor(oldest, head, LatestPreset) == Some(head)
    ensures n < SEQ_LIMIT ==>
              StartCursor(oldest, head, Custom(BigEndian(n, 8)))
              == if oldest <= n + 1 && n <= head then Some(n) else None
  {
    if n < SEQ_LIMIT { ReplayRoundTrip(n); }
  }

  /** The event numbers of the next batch: from just past the cursor, or from
      the oldest retained event when retention has overtaken the cursor. */
  function Batch(oldest: nat, head: nat, cursor: nat, want: nat): (batch: seq<nat>)
    requires 1 <= oldest
    ensures |batch| <= want
    ensures Ascending(batch) && Within(batch, cursor, head)
  {
    var after := if cursor >= oldest then cursor else oldest - 1;
    Span(Max(after, cursor), Min(head, Max(after, cursor) + want))
  }

  /** A batch is the run of the oldest events not yet delivered, as long as the demand
      and the events there are allow. */
  lemma BatchIsFull(oldest: nat, head: nat, cursor: nat, want: nat, n: nat)
    requires 1 <= oldest && cursor <= head
    ensures var first := if cursor + 1 >= oldest then cursor + 1 else oldest;
            n in Batch(oldest, head, cursor, want) <==> first <= n <= head && n < first + want
  {
    var first := if cursor + 1 >= oldest then cursor + 1 else oldest;
    var batch := Batch(oldest, head, cursor, want);
    if first <= n <= head && n < first + want {
      assert batch[n - first] == n;
    }
  }

  /** A round with demand and undelivered events sends as many as it may. */
  lemma RoundSendsAll(oldest: nat, head: nat, cursor: nat, owed: nat, late: nat, later: nat, perResponse: nat, n: nat)
    requires 1 <= oldest && cursor <= head
    ensures var first := if cursor + 1 >= oldest then cursor + 1 else oldest;
            n in Respond(oldest, head, cursor, owed, late, later, perResponse).resp.events
            <==> first <= n <= head && n - first < owed && n - first < perResponse
  {
    BatchIsFull(oldest, head, cursor, Min(owed, perResponse), n);
  }

  datatype Response = Response(events: seq<nat>, latest: nat, left: nat)

  datatype Reply = Reply(resp: Response, cursor: nat, owed: nat)

  /** One round of the delivery loop. `owed` is the demand read when the batch is
      built, `late` the demand that arrives before a keepalive reads it again, and
      `later` what arrives before it is read once more for the response. A round
      with an empty batch is a keepalive. */
  function Respond(oldest: nat, head: nat, cursor: nat, owed: nat, late: nat, later: nat, perResponse: nat)
    : (reply: Reply)
    requires 1 <= oldest && cursor <= head
    ensures reply.owed + |reply.resp.events| == owed + late + later
    ensures reply.resp.left == reply.owed && |reply.resp.events| <= Min(owed, perResponse)
    ensures cursor <= reply.cursor <= head && reply.resp.latest == reply.cursor
    ensures Ascending(reply.resp.events) && Within(reply.resp.events, cursor, reply.cursor)
  {
    var batch := Batch(oldest, head, cursor, Min(owed, perResponse));
    if batch != [] then
      var last := batch[|batch| - 1];
      Reply(Response(batch, last, owed + late + later - |batch|), last, owed + late + later - |batch|)
    else
      var next := if owed + late > 0 then head else cursor;
      Reply(Response([], next, owed + late + later), next, owed + late + later)
  }

  /** The third reading of demand changes what is reported, not where the cursor goes
      or what is sent. */
  lemma LaterOnlyCounts(oldest: nat, head: nat, cursor: nat, owed: nat, late: nat, later: nat, perResponse: nat)
    requires 1 <= oldest && cursor <= head
    ensures var r, r0 := Respond(oldest, head, cursor, owed, late, later, perResponse),
                         Respond(oldest, head, cursor, owed, late, 0, perResponse);
            r.cursor == r0.cursor && r.resp.events == r0.resp.events && r.resp.left == r0.resp.left + later
  {
  }

  /** What a round moves the cursor over without sending. */
  function Jumped(oldest: nat, head: nat, cursor: nat, owed: nat, late: nat, perResponse: nat): set<nat>
    requires 1 <= oldest && cursor <= head
  {
    var reply := Respond(oldest, head, cursor, owed, late, 0, perResponse);
    set n | cursor < n <= reply.cursor && n !in reply.resp.events
  }

  /** The two races of the delivery loop, told from the state before the round:
      retention has overtaken the cursor and the round sends or reports past it,
      or the demand that justifies a keepalive arrived after the batch was built. */
  predicate Sound(oldest: nat, head: nat, cursor: nat, owed: nat, late: nat, perResponse: nat)
    requires 1 <= oldest
  {
    if Min(owed, perResponse) > 0 && Max(cursor, oldest - 1) < head
    then cursor + 1 >= oldest
    else owed + late == 0 || cursor == head
  }

  /** A round loses nothing exactly when it is free of both races. */
  lemma RespondGapFree(oldest: nat, head: nat, cursor: nat, owed: nat, late: nat, perResponse: nat)
    requires 1 <= oldest && cursor <= head
    ensures Jumped(oldest, head, cursor, owed, late, perResponse) == {}
       <==> Sound(oldest, head, cursor, owed, late, perResponse)
  {
    var reply := Respond(oldest, head, cursor, owed, late, 0, perResponse);
    var jumped := Jumped(oldest, head, cursor, owed, late, perResponse);
    var batch := reply.resp.events;
    var after := Max(cursor, oldest - 1);
    if Min(owed, perResponse) > 0 && after < head {
      assert batch != [] && batch[0] == after + 1;
      if cursor + 1 >= oldest {
        forall n | cursor < n <= reply.cursor ensures n in batch {
          assert batch[n - after - 1] == n;
        }
      } else {
        assert forall i :: 0 <= i < |batch| ==> batch[i] > cursor + 1;
        assert cursor + 1 in jumped;
      }
    } else {
      assert batch == [];
      if owed + late > 0 && cursor < head {
        assert cursor + 1 in jumped;
      }
    }
  }

  /** With demand read once and an intact window every round is sound. */
  lemma FreshDemandIsSound(oldest: nat, head: nat, cursor: nat, owed: nat, perResponse: nat)
    requires 1 <= oldest <= cursor + 1 && cursor <= head
    requires perResponse > 0
    ensures Jumped(oldest, head, cursor, owed, 0, perResponse) == {}
  {
    RespondGapFree(oldest, head, cursor, owed, 0, perResponse);
  }

  /** The race in the keepalive: 1 event is undelivered, demand was 0 when the
      batch was built and 5 when it was read again. */
  lemma RacedKeepaliveLosesAnEvent()
    ensures Jumped(1, 1, 0, 0, 5, 100) == {1}
  {
    var jumped := Jumped(1, 1, 0, 0, 5, 100);
    assert Respond(1, 1, 0, 0, 5, 0, 100).resp.events == [];
    assert 1 in jumped;
  }

  // ------------------------------------------------------------- the topic class

  datatype StoredEvent = StoredEvent(number: nat, id: string, payload: seq<Byte>)

  class Log {
    var events: seq<StoredEvent>
    var nextSeq: nat
    var ledger: seq<string>
    ghost var payloads: seq<seq<Byte>>
    const retention: nat

    ghost predicate Valid()
      reads this
    {
      && nextSeq == |ledger| + 1
      && |events| <= |ledger| == |payloads|
      && (events == [] ==> ledger == [])
      && forall i :: 0 <= i < |events| ==>
           events[i] == Published(|ledger| - |events| + i)
    }

    /** The event of that position in the order of publishing, as it was published. */
    ghost function Published(i: nat): StoredEvent
      requires i < |ledger| == |payloads|
      reads this
    {
      StoredEvent(i + 1, ledger[i], payloads[i])
    }

    ghost function Head(): nat
      reads this
    {
      |ledger|
    }

    ghost function Oldest(): nat
      requires Valid()
      reads this
      ensures 1 <= Oldest() <= Head() + 1
    {
      |ledger| - |events| + 1
    }

    constructor (retention: nat)
      ensures Valid() && ledger == [] && this.retention == retention
    {
      this.retention := retention;
      events, nextSeq, ledger, payloads := [], 1, [], [];
    }

    /** Appends one event per generated identifier with its encoding, then trims to the
        retention. An event that cannot be encoded ends the call; those before it stay,
        untrimmed. */
    method Publish(ids: seq<string>, encoded: seq<Option<seq<Byte>>>) returns (ok: bool)
      requires Valid() && |encoded| == |ids|
      modifies this
      ensures Valid()
      ensures ok <==> forall i :: 0 <= i < |ids| ==> encoded[i].Some?
      ensures exists k :: 0 <= k <= |ids| && ledger == old(ledger) + ids[..k] && |payloads| == old(|payloads|) + k
                          && payloads[..old(|payloads|)] == old(payloads)
                          && (forall i :: 0 <= i < k ==> encoded[i] == Some(payloads[old(|payloads|) + i]))
                          && (if ok then k == |ids| else k < |ids| && encoded[k].None?)
      ensures Oldest() == if ok && retention > 0 && old(|events|) + |ids| > retention
                          then Head() + 1 - retention else old(Oldest())
    {
      var i := 0;
      while i < |ids|
        invariant 0 <= i <= |ids|
        invariant ledger == old(ledger) + ids[..i] && |payloads| == |ledger|
        invariant payloads[..old(|payloads|)] == old(payloads)
        invariant forall k :: 0 <= k < i ==> encoded[k] == Some(payloads[old(|payloads|) + k])
        invariant nextSeq == |ledger| + 1 && |events| == old(|events|) + i
        invariant forall k :: 0 <= k < |events| ==> events[k] == Published(|ledger| - |events| + k)
      {
        if encoded[i].None? {
          return false;
        }
        events := events + [StoredEvent(nextSeq, ids[i], encoded[i].value)];
        ledger, payloads := ledger + [ids[i]], payloads + [encoded[i].value];
        nextSeq := nextSeq + 1;
        i := i + 1;
      }
      if retention > 0 && |events| > retention {
        events := events[|events| - retention..];
      }
      ok := true;
    }

    /** Resolves the first request of a subscription to a cursor. */
    method Resolve(preset: Preset) returns (cursor: Option<nat>)
      requires Valid()
      ensures cursor == StartCursor(Oldest(), Head(), preset)
    {
      var oldest := nextSeq;
      if |events| > 0 {
        oldest := events[0].number;
      }
      match preset {
        case LatestPreset => cursor := Some(nextSeq - 1);
        case EarliestPreset => cursor := Some(oldest - 1);
        case Custom(id) =>
          cursor := ReplaySeq(id);
          if cursor.None? || cursor.value + 1 < oldest || cursor.value >= nextSeq {
            cursor := None;
          }
      }
    }

    /** The events after the cursor, at most `want` of them. */
    method Collect(cursor: nat, want: nat) returns (batch: seq<StoredEvent>, numbers: seq<nat>)
      requires Valid() && cursor <= Head()
      ensures numbers == Batch(Oldest(), Head(), cursor, want)
      ensures |batch| == |numbers|
      ensures forall i :: 0 <= i < |batch| ==> batch[i] == Published(numbers[i] - 1)
    {
      batch, numbers := [], [];
      if want > 0 && |events| > 0 {
        var start := 0;
        if cursor >= events[0].number {
          start := cursor - events[0].number + 1;
        }
        var k := Min(start, |events|);
        while k < |events| && |batch| < want
          invariant Min(start, |events|) <= k <= |events| && |batch| <= want
          invariant batch == events[Min(start, |events|)..k]
          invariant |numbers| == |batch| && forall i :: 0 <= i < |batch| ==> numbers[i] == batch[i].number
        {
          batch := batch + [events[k]];
          numbers := numbers + [events[k].number];
          k := k + 1;
        }
      }
    }
  }

  // ------------------------------------------------------ one live subscription

  /** What a subscription has sent and jumped over accounts for every event from
      its start to its cursor, each once. */
  ghost predicate Accounted(start: nat, cursor: nat, sent: seq<nat>, jumped: set<nat>) {
    && start <= cursor
    && Ascending(sent) && Within(sent, start, cursor)
    && (forall n :: n in jumped ==> start < n <= cursor && n !in sent)
    && (forall n :: start < n <= cursor ==> n in sent || n in jumped)
  }

  lemma RoundAccounts(start: nat, sent: seq<nat>, jumped: set<nat>,
                      oldest: nat, head: nat, cursor: nat, owed: nat, late: nat, later: nat, perResponse: nat)
    requires 1 <= oldest && cursor <= head && Accounted(start, cursor, sent, jumped)
    ensures var r := Respond(oldest, head, cursor, owed, late, later, perResponse);
            var gap := Jumped(oldest, head, cursor, owed, late, perResponse);
            && Accounted(start, r.cursor, sent + r.resp.events, jumped + gap)
            && (jumped + gap == jumped <==> Sound(oldest, head, cursor, owed, late, perResponse))
  {
    RespondGapFree(oldest, head, cursor, owed, late, perResponse);
    LaterOnlyCounts(oldest, head, cursor, owed, late, later, perResponse);
    var gap := Jumped(oldest, head, cursor, owed, late, perResponse);
    var r := Respond(oldest, head, cursor, owed, late, later, perResponse);
    assert forall n :: n in gap ==> n !in jumped;
    if gap != {} {
      var n :| n in gap;
      assert n in jumped + gap;
    } else {
      assert jumped + gap == jumped;
    }
    var all := sent + r.resp.events;
    assert forall n :: n in all <==> n in sent || n in r.resp.events;
  }

  /** The server's end of one subscription: cursor and outstanding demand, with
      a record of everything it has sent and everything it has jumped over. */
  class Subscription {
    const topic: Log
    const perResponse: nat
    var cursor: nat
    var pending: nat
    ghost const start: nat
    ghost var sent: seq<nat>
    ghost var jumped: set<nat>
    ghost var demanded: nat

    ghost predicate Valid()
      reads this, topic
    {
      && topic.Valid()
      && cursor <= topic.Head()
      && Accounted(start, cursor, sent, jumped)
      && |sent| + pending == demanded
    }

    constructor (topic: Log, cursor: nat, requested: nat, perResponse: nat)
      requires topic.Valid() && cursor <= topic.Head()
      ensures Valid() && this.topic == topic && this.cursor == cursor && pending == requested
      ensures start == cursor && sent == [] && jumped == {} && demanded == requested
      ensures this.perResponse == perResponse
    {
      this.topic, this.perResponse := topic, perResponse;
      this.cursor, pending := cursor, requested;
      start, sent, jumped, demanded := cursor, [], {}, requested;
    }

    /** A further fetch request arrives. */
    method Request(n: nat)
      requires Valid()
      modifies this
      ensures Valid() && pending == old(pending) + n && demanded == old(demanded) + n
      ensures cursor == old(cursor) && sent == old(sent) && jumped == old(jumped)
    {
      pending := pending + n;
      demanded := demanded + n;
    }

    /** Builds a batch from the demand at hand, or a keepalive if it is empty. The
        demand is read again for a keepalive, when `late` has joined it, and once
        more for the response, when `later` has. */
    method Build(late: nat, later: nat) returns (resp: Response)
      requires Valid()
      modifies this`cursor, this`pending
      ensures resp == Respond(topic.Oldest(), topic.Head(), old(cursor), old(pending), late, later, perResponse).resp
      ensures cursor == resp.latest && pending == resp.left
    {
      var want := pending;
      if want > perResponse {
        want := perResponse;
      }
      var batch, numbers := topic.Collect(cursor, want);
      var head := topic.nextSeq - 1;
      pending := pending + late;
      if |batch| > 0 {
        cursor := numbers[|batch| - 1];
      } else {
        var hasDemand := pending > 0;
        if hasDemand {
          cursor := head;
        }
      }
      pending := pending + later;
      pending := pending - |batch|;
      resp := Response(numbers, cursor, pending);
    }

    /** One round of the delivery loop. Nothing is ever sent twice or beyond the
        demand, and the round jumps over an event exactly when it is not sound. */
    method Round(late: nat, later: nat) returns (resp: Response)
      requires Valid()
      modifies this
      ensures Valid()
      ensures resp == Respond(topic.Oldest(), topic.Head(), old(cursor), old(pending), late, later, perResponse).resp
      ensures cursor == resp.latest && pending == resp.left
      ensures sent == old(sent) + resp.events && demanded == old(demanded) + late + later
      ensures jumped == old(jumped)
         <==> Sound(topic.Oldest(), topic.Head(), old(cursor), old(pending), late, perResponse)
    {
      RoundAccounts(start, sent, jumped, topic.Oldest(), topic.Head(), cursor, pending, late, later, perResponse);
      ghost var covered := jumped + Jumped(topic.Oldest(), topic.Head(), cursor, pending, late, perResponse);
      resp := Build(late, later);
      sent, jumped, demanded := sent + resp.events, covered, demanded + late + later;
    }
  }

  /** What the invariant of a subscription means when no round jumped: the
      batches together are exactly the range from the start to the cursor. */
  lemma DeliveredExactly(s: Subscription)
    requires s.Valid() && s.jumped == {}
    ensures s.sent == Span(s.start, s.cursor)
  {
    AscendingCoverIsSpan(s.sent, s.start, s.cursor);
  }
}
