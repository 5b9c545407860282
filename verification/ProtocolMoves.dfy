/**
 Preservation of the protocol invariant by the moves inside a session: the
 server's rounds, the stages of a response, flushes and commits.
 */
module ProtocolMoves {
  import opened Common
  import opened Grouping
  import opened Topic
  import opened Protocol
  import opened ProtocolInvariant

  // -------------------------------------------------------------- sums and the wire

  lemma {:induction false} SumSplit(s: seq<nat>, t: nat)
    requires t <= |s|
    ensures Sum(s) == Sum(s[..t]) + Sum(s[t..])
  {
    if t > 0 {
      SumSplit(s[1..], t - 1);
      assert s[1..][..t - 1] == s[..t][1..];
      assert s[1..][t - 1..] == s[t..];
    } else {
      assert s[..0] == [] && s[0..] == s;
    }
  }

  lemma SumAppend(s: seq<nat>, more: nat)
    ensures Sum(s + [more]) == Sum(s) + more
  {
    SumSplit(s + [more], |s|);
    assert (s + [more])[..|s|] == s && (s + [more])[|s|..] == [more];
    assert [more][1..] == [];
  }

  lemma {:induction false} CountAppend(wire: seq<Response>, r: Response)
    ensures Count(wire + [r]) == Count(wire) + |r.events|
  {
    if wire == [] {
      assert wire + [r] == [r] && [r][1..] == [];
    } else {
      CountAppend(wire[1..], r);
      assert (wire + [r])[1..] == wire[1..] + [r];
    }
  }

  lemma InWireAppend(wire: seq<Response>, r: Response, n: nat)
    ensures InWire(wire + [r], n) <==> InWire(wire, n) || n in r.events
  {
    if InWire(wire, n) {
      var i :| 0 <= i < |wire| && n in wire[i].events;
      assert (wire + [r])[i] == wire[i];
    }
    if n in r.events {
      assert (wire + [r])[|wire|] == r;
    }
  }

  lemma InWireHead(wire: seq<Response>, n: nat)
    requires wire != []
    ensures InWire(wire, n) <==> n in wire[0].events || InWire(wire[1..], n)
  {
    if InWire(wire, n) {
      var i :| 0 <= i < |wire| && n in wire[i].events;
      if i > 0 { assert wire[1..][i - 1] == wire[i]; }
    }
    if InWire(wire[1..], n) {
      var i :| 0 <= i < |wire| - 1 && n in wire[1..][i].events;
      assert wire[1..][i] == wire[i + 1];
    }
  }

  /** Everything on the wire is newer than the mark. */
  lemma WireAbove(mark: nat, wire: seq<Response>, cursor: nat, n: nat)
    requires WireOk(mark, wire, cursor) && InWire(wire, n)
    ensures n > mark
  {
    var i :| 0 <= i < |wire| && n in wire[i].events;
    var j :| 0 <= j < |wire[i].events| && wire[i].events[j] == n;
    if i > 0 {
      assert Within(wire[i].events, wire[i - 1].latest, wire[i].latest);
    }
  }

  /** An ascending list followed by another: members of the second come later. */
  lemma LaterInSequence(s: seq<nat>, t: seq<nat>, n: nat)
    requires Ascending(s + t) && s != [] && n in t
    ensures n > s[|s| - 1]
  {
    var j :| 0 <= j < |t| && t[j] == n;
    assert (s + t)[|s| - 1] == s[|s| - 1] && (s + t)[|s| + j] == n;
  }

  // -------------------------------------------------------------------- the server

  lemma LinkClient(st: State, k: Collector, link: Link)
    requires link.start == k.link.start && BufferOk(st, k) && ActOk(st, k)
    ensures BufferOk(st, k.(link := link)) && ActOk(st, k.(link := link))
  {
    var k' := k.(link := link);
    assert Floor(k') == Floor(k) && k'.buffer == k.buffer;
  }

  /** A change to a stream's link, other than its start, leaves everything about
      the client's side in order. */
  lemma LinkOk(st: State, c: Id, k: Collector, link: Link)
    requires CollectorOk(st, c, k) && Live(k.phase)
    requires link.start == k.link.start && link.cursor <= |st.log|
    requires StreamOk(st, k.(link := link)) && FlowOk(st, k.(link := link))
    ensures CollectorOk(st, c, k.(link := link))
  {
    LinkClient(st, k, link);
  }

  lemma DemandStream(st: State, k: Collector, link: Link)
    requires StreamOk(st, k)
    requires link.start == k.link.start && link.cursor == k.link.cursor && link.wire == k.link.wire
    ensures StreamOk(st, k.(link := link))
  {
    var k' := k.(link := link);
    assert Floor(k') == Floor(k) && k'.buffer == k.buffer && Inbox(k') == Inbox(k);
  }

  lemma TakenOk(st: State, c: Id, k: Collector)
    requires CollectorOk(st, c, k) && Live(k.phase) && k.link.asked != []
    ensures CollectorOk(st, c, AfterTake(k))
  {
    var link := AfterTake(k).link;
    DemandStream(st, k, link);
    LinkOk(st, c, k, link);
  }

  lemma SkipInv(st: State, more: set<nat>)
    requires Inv(st)
    ensures Inv(st.(skipped := st.skipped + more))
  {
    var st' := st.(skipped := st.skipped + more);
    forall c | c in st'.collectors ensures CollectorOk(st', c, st'.collectors[c]) {
      assert CollectorOk(st, c, st.collectors[c]);
      CollectorStays(st, st', c, st.collectors[c]);
    }
    StoredStays(st, st');
    ArchiveStays(st, st');
  }

  lemma WireGrows(mark: nat, wire: seq<Response>, cursor: nat, r: Reply)
    requires WireOk(mark, wire, cursor) && cursor <= r.cursor && r.resp.latest == r.cursor
    requires Ascending(r.resp.events) && Within(r.resp.events, cursor, r.cursor)
    ensures WireOk(mark, wire + [r.resp], r.cursor)
  {
    var wire' := wire + [r.resp];
    assert forall i :: 0 <= i < |wire| ==> wire'[i] == wire[i];
  }

  lemma RespondStream(st: State, k: Collector, r: Reply, asked: seq<nat>, more: set<nat>)
    requires StreamOk(st, k) && Live(k.phase) && BufferOk(st, k)
    requires k.link.cursor <= r.cursor && r.resp.latest == r.cursor
    requires Ascending(r.resp.events) && Within(r.resp.events, k.link.cursor, r.cursor)
    requires forall n :: k.link.cursor < n <= r.cursor ==> n in r.resp.events || n in more
    ensures StreamOk(st.(skipped := st.skipped + more),
                     k.(link := Link(k.link.start, r.cursor, r.owed, k.link.wire + [r.resp], asked)))
  {
    var wire, wire' := k.link.wire, k.link.wire + [r.resp];
    WireGrows(k.mark, wire, k.link.cursor, r);
    forall n: nat | Floor(k) < n <= r.cursor
      ensures n in Ats(k.buffer) || n in Inbox(k) || InWire(wire', n) || n in st.skipped + more
    {
      InWireAppend(wire, r.resp, n);
    }
  }

  lemma RespondedOk(st: State, c: Id, k: Collector, r: Reply, taken: nat, more: set<nat>)
    requires CollectorOk(st, c, k) && Live(k.phase) && taken <= |k.link.asked| && r.cursor <= |st.log|
    requires k.link.cursor <= r.cursor && r.resp.latest == r.cursor
    requires r.owed + |r.resp.events| == k.link.owed + Sum(k.link.asked[..taken])
    requires Ascending(r.resp.events) && Within(r.resp.events, k.link.cursor, r.cursor)
    requires forall n :: k.link.cursor < n <= r.cursor ==> n in r.resp.events || n in more
    requires CollectorOk(st.(skipped := st.skipped + more), c, k)
    ensures CollectorOk(st.(skipped := st.skipped + more), c,
                        k.(link := Link(k.link.start, r.cursor, r.owed, k.link.wire + [r.resp], k.link.asked[taken..])))
  {
    var asked := k.link.asked[taken..];
    RespondStream(st, k, r, asked, more);
    SumSplit(k.link.asked, taken);
    CountAppend(k.link.wire, r.resp);
    LinkOk(st.(skipped := st.skipped + more), c, k,
           Link(k.link.start, r.cursor, r.owed, k.link.wire + [r.resp], asked));
  }

  lemma SumOfTwo(s: seq<nat>, t: nat, u: nat)
    requires t + u <= |s|
    ensures Sum(s[..t + u]) == Sum(s[..t]) + Sum(s[t..t + u])
  {
    SumSplit(s[..t + u], t);
    assert s[..t + u][..t] == s[..t] && s[..t + u][t..] == s[t..t + u];
  }

  /** One round, as a change of the collector's link in a state that has jumped more. */
  lemma RoundKeepsLink(st: State, c: Id, k: Collector, late: nat, later: nat, taken: nat, r: Reply, more: set<nat>)
    requires 1 <= st.oldest && k.link.cursor <= |st.log|
    requires CollectorOk(st, c, k) && Live(k.phase) && taken <= |k.link.asked|
    requires late + later == Sum(k.link.asked[..taken])
    requires r == Respond(st.oldest, |st.log|, k.link.cursor, k.link.owed, late, later, st.cfg.perResponse)
    requires more == Jumped(st.oldest, |st.log|, k.link.cursor, k.link.owed, late, st.cfg.perResponse)
    requires CollectorOk(st.(skipped := st.skipped + more), c, k)
    ensures CollectorOk(st.(skipped := st.skipped + more), c,
                        k.(link := Link(k.link.start, r.cursor, r.owed, k.link.wire + [r.resp], k.link.asked[taken..])))
  {
    LaterOnlyCounts(st.oldest, |st.log|, k.link.cursor, k.link.owed, late, later, st.cfg.perResponse);
    RespondedOk(st, c, k, r, taken, more);
  }

  lemma RespondIs(st: State, c: Id, taken: nat, later: nat)
    requires 1 <= st.oldest && c in st.collectors
    requires st.collectors[c].link.cursor <= |st.log| && taken + later <= |st.collectors[c].link.asked|
    ensures var k := st.collectors[c];
            var late, more := Sum(k.link.asked[..taken]), Sum(k.link.asked[taken..taken + later]);
            var r := Respond(st.oldest, |st.log|, k.link.cursor, k.link.owed, late, more, st.cfg.perResponse);
            var jumped := Jumped(st.oldest, |st.log|, k.link.cursor, k.link.owed, late, st.cfg.perResponse);
            AfterRespond(st, c, taken, later)
            == With(st.(skipped := st.skipped + jumped), c,
                    k.(link := Link(k.link.start, r.cursor, r.owed, k.link.wire + [r.resp],
                                    k.link.asked[taken + later..])))
  {
  }

  lemma ServerRespondInv(st: State, c: Id, taken: nat, later: nat)
    requires Inv(st) && Sane(st) && c in st.collectors
    requires Live(st.collectors[c].phase) && taken + later <= |st.collectors[c].link.asked|
    ensures Inv(AfterRespond(st, c, taken, later))
  {
    var k := st.collectors[c];
    assert CollectorOk(st, c, k);
    var late, more := Sum(k.link.asked[..taken]), Sum(k.link.asked[taken..taken + later]);
    var r := Respond(st.oldest, |st.log|, k.link.cursor, k.link.owed, late, more, st.cfg.perResponse);
    var jumped := Jumped(st.oldest, |st.log|, k.link.cursor, k.link.owed, late, st.cfg.perResponse);
    SumOfTwo(k.link.asked, taken, later);
    var st1 := st.(skipped := st.skipped + jumped);
    SkipInv(st, jumped);
    assert CollectorOk(st1, c, st1.collectors[c]);
    RoundKeepsLink(st, c, k, late, more, taken + later, r, jumped);
    var k' := k.(link := Link(k.link.start, r.cursor, r.owed, k.link.wire + [r.resp], k.link.asked[taken + later..]));
    LocalMove(st1, c, k');
    RespondIs(st, c, taken, later);
  }

  // ------------------------------------------------------- working off a response

  lemma ReceiveClient(st: State, k: Collector)
    requires k.phase.Select? && k.act.NoAct? && k.link.wire != []
    requires BufferOk(st, k) && WireOk(k.mark, k.link.wire, k.link.cursor) && k.link.cursor <= |st.log|
    ensures BufferOk(st, AfterReceive(k))
  {
    var k' := AfterReceive(k);
    assert Floor(k') == Floor(k) && k'.buffer == k.buffer && k.mark <= k'.mark;
  }

  lemma ReceiveStream(st: State, k: Collector)
    requires k.phase.Select? && k.act.NoAct? && k.link.wire != []
    requires BufferOk(st, k) && StreamOk(st, k)
    ensures StreamOk(st, AfterReceive(k))
  {
    var k' := AfterReceive(k);
    var wire := k.link.wire;
    assert Ats(k.buffer) + [] == Ats(k.buffer);
    assert Floor(k') == Floor(k) && k'.buffer == k.buffer && Inbox(k') == wire[0].events;
    assert WireOk(k'.mark, wire[1..], k.link.cursor) by {
      assert forall i :: 0 <= i < |wire| - 1 ==> wire[1..][i] == wire[i + 1];
    }
    forall n: nat | Floor(k) < n <= k.link.cursor
      ensures n in Ats(k.buffer) || n in Inbox(k') || InWire(wire[1..], n) || n in st.skipped
    {
      InWireHead(wire, n);
    }
  }

  lemma ReceivedOk(st: State, c: Id, k: Collector)
    requires CollectorOk(st, c, k) && k.phase.Select? && k.act.NoAct? && k.link.wire != []
    ensures CollectorOk(st, c, AfterReceive(k))
  {
    ReceiveClient(st, k);
    ReceiveStream(st, k);
  }

  lemma DecodedSequence(st: State, k: Collector)
    requires k.phase.Handling? && k.phase.inbox != [] && k.pending > 0
    ensures Ats(Decoded(st, k).buffer) == Ats(k.buffer) + [k.phase.inbox[0]]
    ensures Ats(Decoded(st, k).buffer) + Inbox(Decoded(st, k)) == Ats(k.buffer) + Inbox(k)
  {
    assert k.phase.inbox == [k.phase.inbox[0]] + k.phase.inbox[1..];
  }

  /** Up to the event just decoded, everything is in the buffer or was jumped over. */
  lemma DecodedCover(st: State, k: Collector, n: nat)
    requires k.phase.Handling? && k.phase.inbox != [] && k.pending > 0
    requires StreamOk(st, k) && Floor(k) < n <= k.phase.inbox[0]
    ensures n in Ats(Decoded(st, k).buffer) || n in st.skipped
  {
    var n0, rest := k.phase.inbox[0], k.phase.inbox[1..];
    var now := Ats(Decoded(st, k).buffer);
    DecodedSequence(st, k);
    assert k.phase.inbox == [n0] + rest;
    assert (Ats(k.buffer) + Inbox(k))[|k.buffer|] == n0;
    assert n0 in now by { assert now[|k.buffer|] == n0; }
    if InWire(k.link.wire, n) {
      WireAbove(k.mark, k.link.wire, k.link.cursor, n);
    }
    if n in rest {
      LaterInSequence(now, rest, n);
    }
  }

  lemma DecodedPlaced(st: State, k: Collector)
    requires k.phase.Handling? && k.phase.inbox != [] && k.pending > 0
    requires Ascending(Ats(k.buffer) + Inbox(k)) && Within(Ats(k.buffer) + Inbox(k), Floor(k), k.mark)
    ensures var ats := Ats(Decoded(st, k).buffer);
            Ascending(ats) && Within(ats, Floor(k), k.mark)
  {
    DecodedSequence(st, k);
    var all := Ats(k.buffer) + Inbox(k);
    assert Ats(Decoded(st, k).buffer) == all[..|k.buffer| + 1];
  }

  lemma DecodedBuffer(st: State, k: Collector)
    requires k.phase.Handling? && k.phase.inbox != [] && k.pending > 0 && k.act.NoAct?
    requires BufferOk(st, k) && StreamOk(st, k)
    ensures BufferOk(st, OfferFlush(Decoded(st, k)))
    ensures |Decoded(st, k).buffer| < st.cfg.maxEvents ==> BufferOk(st, Decoded(st, k))
  {
    var k' := Decoded(st, k);
    DecodedPlaced(st, k);
    forall n: nat | Floor(k) < n <= k.phase.inbox[0] ensures n in Ats(k'.buffer) || n in st.skipped {
      DecodedCover(st, k, n);
    }
  }

  lemma DecodedStream(st: State, k: Collector)
    requires k.phase.Handling? && k.phase.inbox != [] && k.pending > 0
    requires StreamOk(st, k)
    ensures StreamOk(st, Decoded(st, k)) && StreamOk(st, OfferFlush(Decoded(st, k)))
  {
    var k' := Decoded(st, k);
    DecodedSequence(st, k);
    assert Floor(k') == Floor(k);
    var before, after := Ats(k.buffer) + Inbox(k), Ats(k'.buffer) + Inbox(k');
    forall n: nat | Floor(k) < n <= k.link.cursor
      ensures n in Ats(k'.buffer) || n in Inbox(k') || InWire(k.link.wire, n) || n in st.skipped
    {
      if n in Ats(k.buffer) || n in Inbox(k) {
        assert n in before;
        assert n in after;
      }
    }
  }

  lemma FlushOffered(buffer: seq<Record>)
    requires buffer != []
    ensures Kinds(buffer) != [] && forall r :: r in buffer ==> r.kind in Kinds(buffer)
  {
    KindsOfMember(buffer, buffer[0]);
    forall r | r in buffer ensures r.kind in Kinds(buffer) { KindsOfMember(buffer, r); }
  }

  /** Starting a flush: every record of the buffer still has its type to do. */
  lemma FlushAct(st: State, k: Collector)
    requires k.buffer != [] && !k.phase.Keeping? && !k.phase.ToppingUp?
    ensures ActOk(st, OfferFlush(k))
  {
    FlushOffered(k.buffer);
  }

  lemma DecodeFlow(st: State, k: Collector)
    requires k.phase.Handling? && k.phase.inbox != [] && k.pending > 0 && FlowOk(st, k)
    ensures FlowOk(st, AfterDecode(st, k))
  {
  }

  lemma DecodeStore(st: State, c: Id, k: Collector)
    requires k.phase.Handling? && k.phase.inbox != [] && k.pending > 0 && StoreOk(st, c, k) && k.act.NoAct?
    ensures StoreOk(st, c, AfterDecode(st, k))
  {
  }

  lemma DecodedOk(st: State, c: Id, k: Collector)
    requires CollectorOk(st, c, k) && CanDecode(k)
    ensures CollectorOk(st, c, AfterDecode(st, k))
  {
    DecodedBuffer(st, k);
    DecodedStream(st, k);
    DecodeFlow(st, k);
    DecodeStore(st, c, k);
    FlushAct(st, Decoded(st, k));
    DecodeSplits(st, c, k);
  }

  lemma DecodeSplits(st: State, c: Id, k: Collector)
    requires k.phase.Handling? && k.phase.inbox != [] && k.pending > 0 && k.link.cursor <= |st.log|
    requires var k' := AfterDecode(st, k);
             BufferOk(st, k') && ActOk(st, k') && StreamOk(st, k') && FlowOk(st, k') && StoreOk(st, c, k')
    ensures CollectorOk(st, c, AfterDecode(st, k))
  {
  }
}
