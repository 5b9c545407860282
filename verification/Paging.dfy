/**
 Paged query results: a server that hands out single-use cursors, and the client
 loop that follows them.
 */
module Paging {
  import opened Common

  const MAX_PAGES: nat := 10000

  datatype Cursor<T> = Cursor(records: seq<T>, offset: nat)

  /** One page. The link to the next one is the name of a cursor. */
  datatype Page<T> = Page(total: nat, done: bool, records: seq<T>, next: Option<nat>)

  class QueryServer<T> {
    const pageSize: nat
    const truncate: bool    // answers with a first page that has no successor
    var cursors: map<nat, Cursor<T>>
    var unused: nat

    ghost predicate Valid()
      reads this
    {
      forall c :: c in cursors ==> c < unused && cursors[c].offset <= |cursors[c].records|
    }

    constructor (pageSize: nat, truncate: bool)
      ensures Valid() && cursors == map[] && this.pageSize == pageSize && this.truncate == truncate
    {
      this.pageSize, this.truncate := pageSize, truncate;
      cursors, unused := map[], 0;
    }

    method RespondPage(records: seq<T>, offset: nat) returns (page: Page<T>)
      requires Valid() && offset <= |records|
      modifies this
      ensures Valid() && unused >= old(unused)
      ensures var end := Min(offset + pageSize, |records|);
              && page.total == |records| && page.records == records[offset..end]
              && page.done == (end == |records| && !truncate)
              && page.next == (if end < |records| && !truncate then Some(old(unused)) else None)
              && cursors == (if page.next.Some? then old(cursors)[old(unused) := Cursor(records, end)]
                             else old(cursors))
    {
      var end := offset + pageSize;
      if end > |records| {
        end := |records|;
      }
      page := Page(|records|, end >= |records|, records[offset..end], None);
      if truncate {
        page := page.(done := false);
        return;
      }
      if end < |records| {
        cursors := cursors[unused := Cursor(records, end)];
        page := page.(next := Some(unused));
        unused := unused + 1;
      }
    }

    /** Takes a cursor away before answering; an unknown one is an error. */
    method QueryMore(cursor: nat) returns (page: Option<Page<T>>)
      requires Valid()
      modifies this
      ensures Valid() && unused >= old(unused)
      ensures page.None? <==> cursor !in old(cursors)
      ensures page.None? ==> cursors == old(cursors)
      ensures page.Some? ==>
                var c := old(cursors)[cursor];
                var end := Min(c.offset + pageSize, |c.records|);
                && page.value.total == |c.records| && page.value.records == c.records[c.offset..end]
                && page.value.done == (end == |c.records| && !truncate)
                && page.value.next == (if end < |c.records| && !truncate then Some(old(unused)) else None)
                && cursors == (if page.value.next.Some?
                               then (old(cursors) - {cursor})[old(unused) := Cursor(c.records, end)]
                               else old(cursors) - {cursor})
    {
      if cursor !in cursors {
        return None;
      }
      var c := cursors[cursor];
      cursors := cursors - {cursor};
      var p := RespondPage(c.records, c.offset);
      return Some(p);
    }

    /** Single use: a second request with the same cursor fails. */
    method SameCursorTwice(cursor: nat) returns (first: Option<Page<T>>, second: Option<Page<T>>)
      requires Valid()
      modifies this
      ensures second.None?
    {
      first := QueryMore(cursor);
      second := QueryMore(cursor);
    }
  }

  /** Whether the client gets through: `left` records to go from page number `page`
      on, where faults[k] says that fetching page k fails. */
  predicate GetsThrough(left: nat, pageSize: nat, faults: seq<bool>, page: nat)
    requires |faults| == MAX_PAGES
    decreases MAX_PAGES - page
  {
    page < MAX_PAGES && !faults[page] &&
    (left <= pageSize || GetsThrough(left - pageSize, pageSize, faults, page + 1))
  }

  lemma MoreThanOne(size: nat, pages: nat)
    requires pages >= 1
    ensures size * pages == size + size * (pages - 1) && size * (pages - 1) >= 0
  {
  }

  /** The pages from one number to another are fetched without a fault and hold all
      records that are left. */
  predicate EnoughBy(left: nat, pageSize: nat, faults: seq<bool>, page: nat, k: nat)
    requires |faults| == MAX_PAGES
  {
    page <= k < MAX_PAGES && left <= pageSize * (k - page + 1) && forall j :: page <= j <= k ==> !faults[j]
  }

  /** The client gets through exactly when some page within the limit completes the
      answer and no page up to it fails. */
  lemma {:induction false} GetsThroughExactly(left: nat, pageSize: nat, faults: seq<bool>, page: nat)
    requires |faults| == MAX_PAGES && page <= MAX_PAGES
    ensures GetsThrough(left, pageSize, faults, page) <==> exists k :: EnoughBy(left, pageSize, faults, page, k)
    decreases MAX_PAGES - page
  {
    if page < MAX_PAGES && left > pageSize {
      var less, next := left - pageSize, page + 1;
      GetsThroughExactly(less, pageSize, faults, next);
      forall k | page < k
        ensures !faults[page] ==> (EnoughBy(left, pageSize, faults, page, k)
                                   <==> EnoughBy(less, pageSize, faults, next, k))
      {
        MoreThanOne(pageSize, k - page + 1);
      }
      assert !EnoughBy(left, pageSize, faults, page, page);
      assert forall k :: EnoughBy(left, pageSize, faults, page, k) ==> page < k && !faults[page];
      if !faults[page] {
        if k :| EnoughBy(less, pageSize, faults, next, k) {
          assert EnoughBy(left, pageSize, faults, page, k);
        }
      }
    } else if page < MAX_PAGES && !faults[page] {
      assert EnoughBy(left, pageSize, faults, page, page);
    } else {
      assert forall k :: !EnoughBy(left, pageSize, faults, page, k);
    }
  }

  /** Without faults the limit on pages is the only obstacle. */
  lemma {:induction false} CleanGetsThrough(left: nat, pageSize: nat, faults: seq<bool>, page: nat)
    requires |faults| == MAX_PAGES && page <= MAX_PAGES
    requires forall k :: page <= k < MAX_PAGES ==> !faults[k]
    ensures GetsThrough(left, pageSize, faults, page) <==> page < MAX_PAGES && left <= pageSize * (MAX_PAGES - page)
    decreases MAX_PAGES - page
  {
    if page < MAX_PAGES {
      MoreThanOne(pageSize, MAX_PAGES - page);
      var rest := pageSize * (MAX_PAGES - page - 1);
      if left > pageSize {
        CleanGetsThrough(left - pageSize, pageSize, faults, page + 1);
        assert GetsThrough(left - pageSize, pageSize, faults, page + 1)
          <==> page + 1 < MAX_PAGES && left - pageSize <= rest;
      }
    }
  }

  /** One fault on a page the client needs makes it fail. */
  lemma {:induction false} FaultStops(left: nat, pageSize: nat, faults: seq<bool>, page: nat, k: nat)
    requires |faults| == MAX_PAGES && page <= k < MAX_PAGES && faults[k]
    requires left > pageSize * (k - page)
    ensures !GetsThrough(left, pageSize, faults, page)
    decreases MAX_PAGES - page
  {
    if page < k && !faults[page] {
      MoreThanOne(pageSize, k - page);
      if left > pageSize {
        FaultStops(left - pageSize, pageSize, faults, page + 1, k);
      }
    }
  }

  /** The client's page loop: the whole result once and in order, or an error. It
      succeeds exactly when no page it needs fails, the server does not truncate,
      and the pages fit the limit. On success no cursor is left behind. */
  method RequestAll<T>(server: QueryServer<T>, records: seq<T>, faults: seq<bool>) returns (all: Option<seq<T>>)
    requires server.Valid() && |faults| == MAX_PAGES
    modifies server
    ensures server.Valid()
    ensures all.Some? ==> all.value == records && server.cursors == old(server.cursors)
    ensures all.Some? <==> !server.truncate && GetsThrough(|records|, server.pageSize, faults, 0)
  {
    var got: seq<T> := [];
    var cursor: Option<nat> := None;
    var page := 0;
    while true
      invariant 0 <= page <= MAX_PAGES && server.Valid()
      invariant |got| <= |records| && got == records[..|got|]
      invariant page == 0 ==> cursor.None? && got == [] && server.cursors == old(server.cursors)
      invariant page > 0 ==>
                  && !server.truncate && cursor.Some? && cursor.value !in old(server.cursors)
                  && cursor.value in server.cursors && server.cursors[cursor.value] == Cursor(records, |got|)
                  && server.cursors - {cursor.value} == old(server.cursors)
      invariant !server.truncate ==>
                  (GetsThrough(|records|, server.pageSize, faults, 0)
                   <==> GetsThrough(|records| - |got|, server.pageSize, faults, page))
      invariant server.unused >= old(server.unused)
      decreases MAX_PAGES - page
    {
      if page >= MAX_PAGES || faults[page] {
        return None;
      }
      var response: Page<T>;
      if cursor.None? {
        response := server.RespondPage(records, 0);
      } else {
        var answer := server.QueryMore(cursor.value);
        response := answer.value;
      }
      got := got + response.records;
      if response.done {
        return Some(got);
      }
      if response.next.None? {
        return None;
      }
      cursor := response.next;
      page := page + 1;
    }
  }
}
