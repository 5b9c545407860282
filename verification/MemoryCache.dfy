/**
 The in-process cache: lazy deletion on read, an occasional sweep on write, and
 values that never expire. It answers like a plain table of timed entries that
 nobody ever tidies up.
 */
module MemoryCache {
  import opened Common

  const MINUTE: int := 60_000_000_000

  datatype Entry = Entry(val: string, expires: Option<int>)

  predicate Expired(e: Entry, now: int) { e.expires.Some? && now >= e.expires.value }

  datatype Op =
    | Get(key: string)
    | Set(key: string, val: string)
    | SetPersistent(key: string, val: string)
    | Delete(key: string)
    | Clear

  /** An operation, when it happens, and whether an outage makes it fail. Clear
      does not report outages. */
  datatype Call = Call(op: Op, now: int, broken: bool)

  datatype Answer = Failed | Fine | Value(val: Option<string>)

  datatype Cache = Cache(vals: map<string, Entry>, lastGC: Option<int>, ttl: int)

  function MakeEntry(val: string, ttl: int, now: int): Entry {
    Entry(val, if ttl > 0 then Some(now + ttl) else None)
  }

  function Alive(vals: map<string, Entry>, now: int): map<string, Entry> {
    map k | k in vals && !Expired(vals[k], now) :: vals[k]
  }

  predicate SweepDue(c: Cache, now: int) { c.lastGC.None? || now - c.lastGC.value >= MINUTE }

  function Write(c: Cache, key: string, e: Entry, now: int): Cache {
    var vals := c.vals[key := e];
    if SweepDue(c, now) then Cache(Alive(vals, now), Some(now), c.ttl) else c.(vals := vals)
  }

  function Perform(c: Cache, call: Call): (Cache, Answer) {
    var now := call.now;
    match call.op
    case Clear => (c.(vals := map[]), Fine)
    case Get(key) =>
      if call.broken then (c, Failed)
      else if key !in c.vals then (c, Value(None))
      else if Expired(c.vals[key], now) then (c.(vals := c.vals - {key}), Value(None))
      else (c, Value(Some(c.vals[key].val)))
    case Set(key, val) => if call.broken then (c, Failed) else (Write(c, key, MakeEntry(val, c.ttl, now), now), Fine)
    case SetPersistent(key, val) => if call.broken then (c, Failed) else (Write(c, key, Entry(val, None), now), Fine)
    case Delete(key) => if call.broken then (c, Failed) else (c.(vals := c.vals - {key}), Fine)
  }

  /** The plain table: entries stay until overwritten, deleted or cleared. */
  function Plainly(table: map<string, Entry>, ttl: int, call: Call): (map<string, Entry>, Answer) {
    match call.op
    case Clear => (map[], Fine)
    case Get(key) =>
      if call.broken then (table, Failed)
      else (table, Value(if key in table && !Expired(table[key], call.now) then Some(table[key].val) else None))
    case Set(key, val) => if call.broken then (table, Failed) else (table[key := MakeEntry(val, ttl, call.now)], Fine)
    case SetPersistent(key, val) => if call.broken then (table, Failed) else (table[key := Entry(val, None)], Fine)
    case Delete(key) => if call.broken then (table, Failed) else (table - {key}, Fine)
  }

  /** The cache holds part of the table, and all of it that has not expired. */
  ghost predicate Agrees(c: Cache, table: map<string, Entry>, now: int) {
    && (forall k :: k in c.vals ==> k in table && c.vals[k] == table[k])
    && (forall k :: k in table && !Expired(table[k], now) ==> k in c.vals)
  }

  lemma OneCallAgrees(c: Cache, table: map<string, Entry>, before: int, call: Call)
    requires Agrees(c, table, before) && before <= call.now
    ensures var (c', answer) := Perform(c, call);
            var (table', plain) := Plainly(table, c.ttl, call);
            answer == plain && Agrees(c', table', call.now) && c'.ttl == c.ttl
  {
  }

  ghost predicate Forward(start: int, calls: seq<Call>) {
    && (forall i :: 0 <= i < |calls| ==> start <= calls[i].now)
    && (forall i, j :: 0 <= i < j < |calls| ==> calls[i].now <= calls[j].now)
  }

  function Answers(c: Cache, calls: seq<Call>): seq<Answer>
    decreases |calls|
  {
    if calls == [] then [] else var (c', a) := Perform(c, calls[0]); [a] + Answers(c', calls[1..])
  }

  function PlainAnswers(table: map<string, Entry>, ttl: int, calls: seq<Call>): seq<Answer>
    decreases |calls|
  {
    if calls == [] then [] else var (t', a) := Plainly(table, ttl, calls[0]); [a] + PlainAnswers(t', ttl, calls[1..])
  }

  /** Under a clock that does not run backwards no sequence of operations can tell
      the cache from the plain table. */
  lemma {:induction false} Indistinguishable(c: Cache, table: map<string, Entry>, start: int, calls: seq<Call>)
    requires Agrees(c, table, start) && Forward(start, calls)
    ensures Answers(c, calls) == PlainAnswers(table, c.ttl, calls)
    decreases |calls|
  {
    if calls != [] {
      OneCallAgrees(c, table, start, calls[0]);
      var c' := Perform(c, calls[0]).0;
      var table' := Plainly(table, c.ttl, calls[0]).0;
      assert forall i :: 0 <= i < |calls| - 1 ==> calls[1..][i] == calls[i + 1];
      Indistinguishable(c', table', calls[0].now, calls[1..]);
    }
  }

  // -------------------------------------------------- what a read finds, from the calls

  predicate Writes(call: Call, key: string) {
    !call.broken && (call.op.Set? || call.op.SetPersistent?) && call.op.key == key
  }

  predicate Removes(call: Call, key: string) {
    call.op.Clear? || (!call.broken && call.op == Delete(key))
  }

  /** The i-th call is the last that had a say about the key, and it wrote it. */
  predicate LastWrite(calls: seq<Call>, i: nat, key: string)
    requires i < |calls|
  {
    Writes(calls[i], key) && forall j :: i < j < |calls| ==> !Writes(calls[j], key) && !Removes(calls[j], key)
  }

  /** A value that was set lasts for the cache's lifetime, if that is positive; one set
      for good never ends. */
  predicate Lasting(ttl: int, call: Call, now: int) { call.op.SetPersistent? || ttl <= 0 || now - call.now < ttl }

  function TableAfter(ttl: int, calls: seq<Call>): map<string, Entry> {
    if calls == [] then map[] else Plainly(TableAfter(ttl, calls[..|calls| - 1]), ttl, calls[|calls| - 1]).0
  }

  ghost predicate TableKnows(ttl: int, calls: seq<Call>, key: string, now: int) {
    var table := TableAfter(ttl, calls);
    && (key in table <==> exists i :: 0 <= i < |calls| && LastWrite(calls, i, key))
    && forall i :: 0 <= i < |calls| && LastWrite(calls, i, key) ==>
         key in table && table[key].val == calls[i].op.val
         && (Expired(table[key], now) <==> !Lasting(ttl, calls[i], now))
  }

  lemma {:induction false} TableTells(ttl: int, calls: seq<Call>, key: string, now: int)
    ensures TableKnows(ttl, calls, key, now)
    decreases |calls|
  {
    if calls != [] {
      var front, last := calls[..|calls| - 1], calls[|calls| - 1];
      TableTells(ttl, front, key, now);
      if Writes(last, key) || Removes(last, key) {
        assert Writes(last, key) ==> LastWrite(calls, |calls| - 1, key);
      } else {
        forall i | 0 <= i < |front|
          ensures calls[i] == front[i] && (LastWrite(calls, i, key) <==> LastWrite(front, i, key))
        {
          LastWriteStays(calls, i, key);
        }
      }
    }
  }

  lemma LastWriteStays(calls: seq<Call>, i: nat, key: string)
    requires i < |calls| - 1 && !Writes(calls[|calls| - 1], key) && !Removes(calls[|calls| - 1], key)
    ensures LastWrite(calls, i, key) <==> LastWrite(calls[..|calls| - 1], i, key)
  {
    var front := calls[..|calls| - 1];
    assert forall j :: 0 <= j < |front| ==> front[j] == calls[j];
  }

  lemma {:induction false} LastAnswer(ttl: int, before: seq<Call>, calls: seq<Call>)
    requires calls != []
    ensures |PlainAnswers(TableAfter(ttl, before), ttl, calls)| == |calls|
    ensures PlainAnswers(TableAfter(ttl, before), ttl, calls)[|calls| - 1]
         == Plainly(TableAfter(ttl, before + calls[..|calls| - 1]), ttl, calls[|calls| - 1]).1
    decreases |calls|
  {
    if |calls| == 1 {
      assert before + calls[..0] == before && calls[1..] == [];
    } else {
      assert (before + [calls[0]])[..|before|] == before;
      LastAnswer(ttl, before + [calls[0]], calls[1..]);
      assert before + [calls[0]] + calls[1..][..|calls| - 2] == before + calls[..|calls| - 1];
    }
  }

  /** The calls leave a value under the key that lasts at that instant. */
  predicate Left(ttl: int, calls: seq<Call>, key: string, val: string, now: int) {
    exists i :: 0 <= i < |calls| && LastWrite(calls, i, key) && calls[i].op.val == val && Lasting(ttl, calls[i], now)
  }

  lemma TableRead(ttl: int, calls: seq<Call>, key: string, val: string, now: int)
    ensures Plainly(TableAfter(ttl, calls), ttl, Call(Get(key), now, false)).1 == Value(Some(val))
       <==> Left(ttl, calls, key, val, now)
  {
    TableTells(ttl, calls, key, now);
  }

  /** A read finds a value exactly when the key was written, has not been written,
      deleted or cleared since, and the value still lasts; and it finds that value. */
  lemma ReadsExactly(ttl: int, start: int, calls: seq<Call>, key: string, val: string)
    requires Forward(start, calls) && calls != []
    requires calls[|calls| - 1].op == Get(key) && !calls[|calls| - 1].broken
    ensures var n, answers := |calls| - 1, Answers(Cache(map[], None, ttl), calls);
            |answers| == |calls|
            && (answers[n] == Value(Some(val)) <==> Left(ttl, calls[..n], key, val, calls[n].now))
  {
    var n := |calls| - 1;
    Indistinguishable(Cache(map[], None, ttl), map[], start, calls);
    LastAnswer(ttl, [], calls);
    assert [] + calls[..n] == calls[..n];
    assert calls[n] == Call(Get(key), calls[n].now, false);
    TableRead(ttl, calls[..n], key, val, calls[n].now);
  }

  /** Only the operation's own key changes value, and a value that never expires
      goes only when it is overwritten, deleted or everything is cleared. */
  lemma PersistentStays(c: Cache, call: Call, key: string)
    requires key in c.vals && c.vals[key].expires.None?
    ensures var c' := Perform(c, call).0;
            (key in c'.vals && c'.vals[key] == c.vals[key]) ||
            (call.op.Clear? || (!call.broken && !call.op.Get? && call.op.key == key))
  {
  }

  /** What the sweeps achieve: an entry still stored had not expired by the last
      sweep, and after a write the last sweep is less than a minute old. */
  ghost predicate Tidy(c: Cache) {
    c.lastGC.Some? ==> forall k :: k in c.vals ==> !Expired(c.vals[k], c.lastGC.value)
  }

  lemma SweepsKeepTidy(c: Cache, call: Call)
    requires Tidy(c) && (c.lastGC.Some? ==> c.lastGC.value <= call.now)
    ensures var (c', answer) := Perform(c, call);
            && Tidy(c')
            && ((call.op.Set? || call.op.SetPersistent?) && answer == Fine ==>
                  c'.lastGC.Some? && 0 <= call.now - c'.lastGC.value < MINUTE
                  && (SweepDue(c, call.now) ==> forall k :: k in c'.vals ==> !Expired(c'.vals[k], call.now)))
  {
  }

  class Memory {
    var vals: map<string, Entry>
    var lastGC: Option<int>
    var ttl: int
    var broken: bool
    var now: int

    ghost function View(): Cache
      reads this
    {
      Cache(vals, lastGC, ttl)
    }

    constructor (ttl: int, now: int)
      ensures View() == Cache(map[], None, ttl) && this.now == now && !broken
    {
      vals, lastGC, broken := map[], None, false;
      this.ttl, this.now := ttl, now;
    }

    method GetCacheVal(key: string) returns (answer: Answer)
      modifies this`vals
      ensures (View(), answer) == Perform(old(View()), Call(Get(key), now, broken))
      ensures answer == Value(None) ==> key !in vals
    {
      if broken {
        return Failed;
      }
      if key !in vals {
        return Value(None);
      }
      var e := vals[key];
      if e.expires.Some? && !(now < e.expires.value) {
        vals := vals - {key};
        return Value(None);
      }
      return Value(Some(e.val));
    }

    /** Deletes every expired entry, in no particular order. */
    method Sweep()
      modifies this`vals
      ensures vals == Alive(old(vals), now)
    {
      var todo := vals.Keys;
      while todo != {}
        invariant todo <= old(vals).Keys
        invariant forall k :: k in vals ==> k in old(vals) && vals[k] == old(vals)[k]
        invariant forall k :: k in old(vals) && (k in todo || !Expired(old(vals)[k], now)) ==> k in vals
        invariant forall k :: k in old(vals) && k !in todo && Expired(old(vals)[k], now) ==> k !in vals
        decreases todo
      {
        var k :| k in todo;
        todo := todo - {k};
        if vals[k].expires.Some? && !(now < vals[k].expires.value) {
          vals := vals - {k};
        }
      }
    }

    method Store(key: string, val: string, lifetime: int) returns (answer: Answer)
      modifies this`vals, this`lastGC
      ensures answer == if broken then Failed else Fine
      ensures View() == if broken then old(View()) else Write(old(View()), key, MakeEntry(val, lifetime, now), now)
    {
      if broken {
        return Failed;
      }
      var e := Entry(val, None);
      if lifetime > 0 {
        e := e.(expires := Some(now + lifetime));
      }
      vals := vals[key := e];
      if lastGC.None? || now - lastGC.value >= MINUTE {
        lastGC := Some(now);
        Sweep();
      }
      return Fine;
    }

    method SetCacheVal(key: string, val: string) returns (answer: Answer)
      modifies this`vals, this`lastGC
      ensures (View(), answer) == Perform(old(View()), Call(Set(key, val), now, broken))
    {
      answer := Store(key, val, ttl);
    }

    method SetPersistentVal(key: string, val: string) returns (answer: Answer)
      modifies this`vals, this`lastGC
      ensures (View(), answer) == Perform(old(View()), Call(SetPersistent(key, val), now, broken))
    {
      answer := Store(key, val, 0);
    }

    method DelCacheVal(key: string) returns (answer: Answer)
      modifies this`vals
      ensures (View(), answer) == Perform(old(View()), Call(Delete(key), now, broken))
    {
      if broken {
        return Failed;
      }
      vals := vals - {key};
      return Fine;
    }

    method ClearAll()
      modifies this`vals
      ensures (View(), Fine) == Perform(old(View()), Call(Clear, now, broken))
    {
      vals := map[];
    }
  }
}
