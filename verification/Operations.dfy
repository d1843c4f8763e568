/**
 The idempotency ledger: at most 256 results, at most ten minutes old, standing
 in for an unbounded memory of every operation ever finished.
 Times are milliseconds of one monotonic clock.
 */
module Operations {
  import opened Wrappers

  const LEDGER_TTL: nat := 600_000
  const LEDGER_CAP: nat := 256

  type Id = string

  /** A response; everything but its outcome field is opaque. */
  datatype Value = Value(outcome: string, body: string)

  datatype Entry = Entry(at: nat, value: Value)

  type Entries = map<Id, Entry>

  function Age(now: nat, at: nat): nat {
    if now < at then 0 else now - at
  }

  predicate Expired(e: Entry, now: nat) {
    Age(now, e.at) > LEDGER_TTL
  }

  function LookupAt(entries: Entries, now: nat, id: Id): Option<Value> {
    if id !in entries || Expired(entries[id], now) then None else Some(entries[id].value)
  }

  function MarkReplayed(v: Value): Value {
    v.(outcome := "replayed")
  }

  function Fresh(entries: Entries, now: nat): Entries {
    map id | id in entries && !Expired(entries[id], now) :: entries[id]
  }

  /** A part of `entries` in which nothing left out is newer than anything kept. */
  ghost predicate NewestPart(entries: Entries, part: Entries) {
    && part.Keys <= entries.Keys
    && (forall id <- part :: part[id] == entries[id])
    && (forall out <- entries, kept <- part :: out !in part ==> entries[out].at <= part[kept].at)
  }

  /** What pruning may leave; entries of the same age leave in any order. */
  ghost predicate Pruned(before: Entries, now: nat, after: Entries) {
    var young := Fresh(before, now);
    if |young| <= LEDGER_CAP then after == young
    else NewestPart(young, after) && |after| == LEDGER_CAP
  }

  // ---- the unbounded memory ----

  /** The other operations whose last result is at least as recent. */
  function Newer(all: Entries, id: Id): set<Id>
    requires id in all
  {
    set j | j in all && j != id && all[j].at >= all[id].at
  }

  /** A result may be missing from the ledger only for one of these reasons. */
  ghost predicate Excused(all: Entries, clock: nat, id: Id)
    requires id in all
  {
    Expired(all[id], clock) || |Newer(all, id)| >= LEDGER_CAP
  }

  /** The ledger stands for the unbounded memory `all` at time `clock`. */
  ghost predicate StandsFor(entries: Entries, all: Entries, clock: nat) {
    && entries.Keys <= all.Keys
    && (forall id <- entries :: entries[id] == all[id])
    && (forall id <- all :: all[id].at <= clock)
    && (forall id <- all :: id !in entries ==> Excused(all, clock, id))
  }

  lemma {:induction false} SubsetSize(a: set<Id>, b: set<Id>)
    requires a <= b
    ensures |a| <= |b|
  {
    if a != {} {
      var x :| x in a;
      SubsetSize(a - {x}, b - {x});
    }
  }

  /** Pruning, at any later time and with ties broken in any way, keeps the ledger faithful. */
  lemma PruneKeeps(before: Entries, all: Entries, clock: nat, now: nat, after: Entries)
    requires StandsFor(before, all, clock) && clock <= now && Pruned(before, now, after)
    ensures StandsFor(after, all, now) && |after| <= LEDGER_CAP
  {
    var young := Fresh(before, now);
    forall id <- all | id !in after
      ensures Excused(all, now, id)
    {
      if id in young {
        forall kept <- after
          ensures kept in Newer(all, id)
        {
        }
        SubsetSize(after.Keys, Newer(all, id));
      }
    }
  }

  /** Recording a result at the current time keeps it faithful to the longer history. */
  lemma RecordKeeps(entries: Entries, all: Entries, clock: nat, id: Id, e: Entry)
    requires StandsFor(entries, all, clock) && clock <= e.at
    ensures StandsFor(entries[id := e], all[id := e], e.at)
  {
    var more := all[id := e];
    forall j <- more | j !in entries[id := e]
      ensures Excused(more, e.at, j)
    {
      assert Excused(all, clock, j);
      SubsetSize(Newer(all, j), Newer(more, j));
    }
  }

  /**
   Inside its window the ledger answers like the unbounded memory: the last
   remembered value comes back whenever it is at most ten minutes old and at
   most 255 other operations finished at that time or later.  And it never
   answers anything else.
   */
  lemma LookupIsExact(entries: Entries, all: Entries, clock: nat, now: nat, id: Id)
    requires StandsFor(entries, all, clock) && clock <= now
    ensures id in all && now - all[id].at <= LEDGER_TTL && |Newer(all, id)| < LEDGER_CAP ==>
              LookupAt(entries, now, id) == Some(all[id].value)
    ensures LookupAt(entries, now, id).Some? ==>
              id in all && LookupAt(entries, now, id).value == all[id].value && now - all[id].at <= LEDGER_TTL
  {
    if id in all && id !in entries {
      assert Excused(all, clock, id);
    }
  }

  // ---- the ledger ----

  ghost predicate Distinct(ids: seq<Id>) {
    forall i, j | 0 <= i < j < |ids| :: ids[i] != ids[j]
  }

  ghost predicate NewestFirst(entries: Entries, ids: seq<Id>) {
    && (forall id <- ids :: id in entries)
    && forall i, j | 0 <= i < j < |ids| :: entries[ids[i]].at >= entries[ids[j]].at
  }

  function Elements(ids: seq<Id>): set<Id> {
    set id | id in ids
  }

  lemma {:induction false} DistinctSize(ids: seq<Id>)
    requires Distinct(ids)
    ensures |Elements(ids)| == |ids|
  {
    if ids != [] {
      var front, last := ids[..|ids| - 1], ids[|ids| - 1];
      DistinctSize(front);
      assert ids == front + [last];
      assert Elements(ids) == Elements(front) + {last};
    }
  }

  function InsertAt(ids: seq<Id>, id: Id, p: nat): seq<Id>
    requires p <= |ids|
  {
    ids[..p] + [id] + ids[p..]
  }

  lemma InsertAtElements(ids: seq<Id>, id: Id, p: nat)
    requires p <= |ids| && Distinct(ids) && id !in ids
    ensures Distinct(InsertAt(ids, id, p)) && Elements(InsertAt(ids, id, p)) == Elements(ids) + {id}
  {
    var r := InsertAt(ids, id, p);
    assert forall i | 0 <= i < |r| :: r[i] == if i < p then ids[i] else if i == p then id else ids[i - 1];
    forall x <- Elements(ids) + {id}
      ensures x in r
    {
      if x == id {
        assert r[p] == id;
      } else {
        var i :| 0 <= i < |ids| && ids[i] == x;
        assert r[if i < p then i else i + 1] == x;
      }
    }
  }

  lemma InsertAtOrder(entries: Entries, ids: seq<Id>, id: Id, p: nat)
    requires p <= |ids| && NewestFirst(entries, ids) && id in entries
    requires forall i | 0 <= i < p :: entries[ids[i]].at >= entries[id].at
    requires p < |ids| ==> entries[ids[p]].at <= entries[id].at
    ensures NewestFirst(entries, InsertAt(ids, id, p))
  {
    var r := InsertAt(ids, id, p);
    assert forall i | 0 <= i < |r| :: r[i] == if i < p then ids[i] else if i == p then id else ids[i - 1];
  }

  /** Inserting one id at its place. */
  method Insert(entries: Entries, ids: seq<Id>, id: Id) returns (r: seq<Id>)
    requires NewestFirst(entries, ids) && Distinct(ids) && id in entries && id !in ids
    ensures NewestFirst(entries, r) && Distinct(r) && Elements(r) == Elements(ids) + {id}
  {
    var p := 0;
    while p < |ids| && entries[ids[p]].at >= entries[id].at
      invariant p <= |ids| && forall i | 0 <= i < p :: entries[ids[i]].at >= entries[id].at
    {
      p := p + 1;
    }
    InsertAtElements(ids, id, p);
    InsertAtOrder(entries, ids, id, p);
    return InsertAt(ids, id, p);
  }

  class Ledger {
    var entries: Entries
    /** History: every result ever remembered, and the time of the last call. */
    ghost var all: Entries
    ghost var clock: nat

    ghost predicate Valid()
      reads this
    {
      StandsFor(entries, all, clock) && |entries| <= LEDGER_CAP
    }

    constructor ()
      ensures Valid() && all == map[] && clock == 0
    {
      entries, all, clock := map[], map[], 0;
    }

    method Prune(now: nat)
      modifies this`entries
      ensures Pruned(old(entries), now, entries)
    {
      entries := map id | id in entries && !Expired(entries[id], now) :: entries[id];
      ghost var young := entries;
      assert young == Fresh(old(entries), now);
      if |entries| <= LEDGER_CAP {
        return;
      }
      var ordered := NewestFirstOrder();
      OrderedSize(ordered, young);
      RemoveAll(ordered[LEDGER_CAP..]);
      KeptAreNewest(young, ordered, entries);
    }

    method RemoveAll(ids: seq<Id>)
      modifies this`entries
      ensures entries == old(entries) - Elements(ids)
    {
      for n := 0 to |ids|
        invariant entries == old(entries) - Elements(ids[..n])
      {
        assert ids[..n + 1] == ids[..n] + [ids[n]];
        assert Elements(ids[..n + 1]) == Elements(ids[..n]) + {ids[n]};
        entries := entries - {ids[n]};
      }
      assert ids[..|ids|] == ids;
    }

    method NewestFirstOrder() returns (ordered: seq<Id>)
      ensures NewestFirst(entries, ordered) && Distinct(ordered) && Elements(ordered) == entries.Keys
    {
      ordered := [];
      var left := entries.Keys;
      while left != {}
        invariant left <= entries.Keys
        invariant NewestFirst(entries, ordered) && Distinct(ordered) && Elements(ordered) == entries.Keys - left
        decreases left
      {
        // The iteration order of the hash map is arbitrary.
        var id :| id in left;
        assert id !in Elements(ordered);
        ordered := Insert(entries, ordered, id);
        left := left - {id};
      }
    }

    method Remember(id: Id, value: Value, now: nat)
      requires Valid() && clock <= now
      modifies this
      ensures Valid() && all == old(all)[id := Entry(now, value)] && clock == now
    {
      RecordKeeps(entries, all, clock, id, Entry(now, value));
      all, clock := all[id := Entry(now, value)], now;
      entries := entries[id := Entry(now, value)];
      ghost var before := entries;
      Prune(now);
      PruneKeeps(before, all, now, now, entries);
    }

    method Lookup(id: Id, now: nat, later: nat) returns (value: Option<Value>)
      requires Valid() && clock <= now <= later
      modifies this
      ensures Valid() && all == old(all) && clock == later
      ensures id in all && now - all[id].at <= LEDGER_TTL && |Newer(all, id)| < LEDGER_CAP ==>
                value == Some(all[id].value)
      ensures value.Some? ==> id in all && value.value == all[id].value && now - all[id].at <= LEDGER_TTL
    {
      LookupIsExact(entries, all, clock, now, id);
      value := LookupAt(entries, now, id);
      ghost var before := entries;
      Prune(later);
      PruneKeeps(before, all, clock, later, entries);
      clock := later;
    }
  }

  lemma OrderedSize(ordered: seq<Id>, entries: Entries)
    requires Distinct(ordered) && Elements(ordered) == entries.Keys
    ensures |ordered| == |entries|
  {
    DistinctSize(ordered);
  }

  lemma SplitElements(ids: seq<Id>, n: nat)
    requires Distinct(ids) && n <= |ids|
    ensures Elements(ids[..n]) == Elements(ids) - Elements(ids[n..]) && Distinct(ids[..n])
  {
    forall x <- Elements(ids)
      ensures x in ids[..n] <==> x !in ids[n..]
    {
      var i :| 0 <= i < |ids| && ids[i] == x;
      if i < n {
        assert ids[..n][i] == x;
      } else {
        assert ids[n..][i - n] == x;
      }
    }
  }

  lemma KeptAreNewest(young: Entries, ordered: seq<Id>, kept: Entries)
    requires NewestFirst(young, ordered) && Distinct(ordered) && Elements(ordered) == young.Keys
    requires |ordered| > LEDGER_CAP && kept == young - Elements(ordered[LEDGER_CAP..])
    ensures NewestPart(young, kept) && |kept| == LEDGER_CAP
  {
    var front, back := ordered[..LEDGER_CAP], ordered[LEDGER_CAP..];
    SplitElements(ordered, LEDGER_CAP);
    assert kept.Keys == Elements(front);
    OrderedSize(front, kept);
    forall out <- young, k <- kept | out !in kept
      ensures young[out].at <= young[k].at
    {
      FrontIsNewer(young, ordered, LEDGER_CAP, k, out);
    }
  }

  lemma FrontIsNewer(young: Entries, ordered: seq<Id>, n: nat, k: Id, out: Id)
    requires NewestFirst(young, ordered) && n <= |ordered| && k in ordered[..n] && out in ordered[n..]
    ensures young[out].at <= young[k].at
  {
    var i :| 0 <= i < n && ordered[..n][i] == k;
    var j :| 0 <= j < |ordered| - n && ordered[n..][j] == out;
    assert ordered[i] == k && ordered[n + j] == out;
  }

  // ---- a write operation under the ledger ----

  class Operator {
    const ledger: Ledger
    /** How often the device has really been changed, by operation. */
    var executed: seq<Id>

    constructor (ledger: Ledger)
      ensures this.ledger == ledger && executed == []
    {
      this.ledger, executed := ledger, [];
    }

    /**
     One write operation, from the ledger lookup to the record of its result.
     `effect` is what the device would answer; a failure is not remembered.
     */
    method Run(id: Id, effect: Option<Value>, now: nat, later: nat, done: nat) returns (reply: Option<Value>)
      requires ledger.Valid() && ledger.clock <= now <= later <= done
      modifies this, ledger
      ensures ledger.Valid() && ledger.clock <= done
      // What must not be executed again: whatever the window covers.
      ensures var was := old(ledger.all);
              id in was && now - was[id].at <= LEDGER_TTL && |Newer(was, id)| < LEDGER_CAP ==> executed == old(executed)
      // What need not be executed: only what is answered with the result of its last execution, marked as such.
      ensures executed == old(executed) ==>
                var was := old(ledger.all);
                && id in was && now - was[id].at <= LEDGER_TTL
                && reply == Some(Value("replayed", was[id].value.body)) && ledger.all == was
      // Everything else is executed, once, and remembered if it worked.
      ensures executed != old(executed) ==>
                && executed == old(executed) + [id] && reply == effect
                && ledger.all == match effect
                                 case Some(value) => old(ledger.all)[id := Entry(done, value)]
                                 case None => old(ledger.all)
    {
      var cached := ledger.Lookup(id, now, later);
      if cached.Some? {
        return Some(MarkReplayed(cached.value));
      }
      executed := executed + [id];
      if effect.Some? {
        ledger.Remember(id, effect.value, done);
      }
      return effect;
    }
  }

  // ---- a whole run of write operations ----

  /** One call: when it looks into the ledger, and when it is done; `effect` is what the device would answer. */
  datatype Call = Call(id: Id, effect: Option<Value>, now: nat, later: nat, done: nat)

  /** One caller after the other, on one clock. */
  ghost predicate InTime(calls: seq<Call>, from: nat) {
    && (forall c <- calls :: from <= c.now <= c.later <= c.done)
    && (forall i, j | 0 <= i < j < |calls| :: calls[i].done <= calls[j].now)
  }

  /** Call `i` is carried out and its result is remembered. */
  predicate Remembered(calls: seq<Call>, ran: seq<bool>, i: nat)
    requires |ran| <= |calls|
  {
    i < |ran| && ran[i] && calls[i].effect.Some?
  }

  /** The other operations called up to `j` that were done at the time of call `i` or later. */
  function OthersSince(calls: seq<Call>, i: nat, j: nat): set<Id>
    requires i < j <= |calls|
  {
    set k | 0 <= k < j && calls[k].id != calls[i].id && calls[k].done >= calls[i].done :: calls[k].id
  }

  /** What is remembered for `id` is the result of one of these calls. */
  ghost predicate FromACall(e: Entry, id: Id, calls: seq<Call>, ran: seq<bool>)
    requires |ran| <= |calls|
  {
    exists k | 0 <= k < |ran| ::
      Remembered(calls, ran, k) && calls[k].id == id && e == Entry(calls[k].done, calls[k].effect.value)
  }

  /** What the unbounded memory holds after these calls. */
  ghost predicate MemoryOf(all: Entries, calls: seq<Call>, ran: seq<bool>)
    requires |ran| <= |calls|
  {
    && (forall id <- all :: FromACall(all[id], id, calls, ran))
    && (forall k | 0 <= k < |ran| && Remembered(calls, ran, k) ::
          calls[k].id in all && all[calls[k].id].at >= calls[k].done)
  }

  function AfterCall(all: Entries, c: Call, again: bool): Entries {
    if again && c.effect.Some? then all[c.id := Entry(c.done, c.effect.value)] else all
  }

  lemma StillFromACall(e: Entry, id: Id, calls: seq<Call>, ran: seq<bool>, again: bool)
    requires |ran| < |calls| && FromACall(e, id, calls, ran)
    ensures FromACall(e, id, calls, ran + [again])
  {
    var k :| 0 <= k < |ran| && Remembered(calls, ran, k) && calls[k].id == id
             && e == Entry(calls[k].done, calls[k].effect.value);
    assert Remembered(calls, ran + [again], k);
  }

  lemma MemoryGrows(all: Entries, calls: seq<Call>, ran: seq<bool>, again: bool)
    requires |ran| < |calls| && InTime(calls, 0) && MemoryOf(all, calls, ran)
    ensures MemoryOf(AfterCall(all, calls[|ran|], again), calls, ran + [again])
  {
    var n, c, more := |ran|, calls[|ran|], ran + [again];
    var next := AfterCall(all, c, again);
    forall id <- next
      ensures FromACall(next[id], id, calls, more)
    {
      if again && c.effect.Some? && id == c.id {
        assert Remembered(calls, more, n);
      } else {
        StillFromACall(all[id], id, calls, ran, again);
      }
    }
    assert c in calls;
    forall k | 0 <= k < |more| && Remembered(calls, more, k)
      ensures calls[k].id in next && next[calls[k].id].at >= calls[k].done
    {
      if k < n {
        assert Remembered(calls, ran, k);
      }
    }
  }

  /** Inside the window of call `i` its result is still covered when call `n` comes. */
  lemma StillCovered(all: Entries, calls: seq<Call>, ran: seq<bool>, i: nat)
    requires |ran| < |calls| && MemoryOf(all, calls, ran) && Remembered(calls, ran, i)
    requires |OthersSince(calls, i, |ran|)| < LEDGER_CAP
    ensures var id := calls[i].id;
            id in all && all[id].at >= calls[i].done && |Newer(all, id)| < LEDGER_CAP
  {
    var id := calls[i].id;
    forall j <- Newer(all, id)
      ensures j in OthersSince(calls, i, |ran|)
    {
      assert FromACall(all[j], j, calls, ran);
      var k :| 0 <= k < |ran| && Remembered(calls, ran, k) && calls[k].id == j
               && all[j] == Entry(calls[k].done, calls[k].effect.value);
    }
    SubsetSize(Newer(all, id), OthersSince(calls, i, |ran|));
  }

  /** The result of an earlier call `i` of the same operation, not older than the window, marked as such. */
  predicate ReplayOf(calls: seq<Call>, ran: seq<bool>, i: nat, j: nat, reply: Option<Value>)
    requires |ran| <= |calls| && j < |calls|
  {
    && i < j && Remembered(calls, ran, i) && calls[i].id == calls[j].id
    && calls[j].now - calls[i].done <= LEDGER_TTL
    && reply == Some(Value("replayed", calls[i].effect.value.body))
  }

  /** Call `i` had the same operation carried out, in the window that the ledger covers at call `j`. */
  predicate Covers(calls: seq<Call>, ran: seq<bool>, i: nat, j: nat)
    requires |ran| <= |calls| && i < j < |calls|
  {
    && Remembered(calls, ran, i) && calls[i].id == calls[j].id
    && calls[j].now - calls[i].done <= LEDGER_TTL && |OthersSince(calls, i, j)| < LEDGER_CAP
  }

  /** What one more call does, given the memory of the ones before. */
  ghost predicate CallOk(calls: seq<Call>, ran: seq<bool>, j: nat, reply: Option<Value>)
    requires |ran| <= |calls| && j < |ran|
  {
    && (ran[j] ==> reply == calls[j].effect)
    && (!ran[j] ==> exists i | 0 <= i < j :: ReplayOf(calls, ran, i, j, reply))
    && (forall i | 0 <= i < j :: Covers(calls, ran, i, j) ==> !ran[j])
  }

  ghost predicate RunOk(calls: seq<Call>, replies: seq<Option<Value>>, ran: seq<bool>) {
    && |replies| == |ran| <= |calls|
    && forall j | 0 <= j < |ran| :: CallOk(calls, ran, j, replies[j])
  }

  /**
   At most once.  In any run of calls: a call is carried out unless it is answered with the result of
   an earlier one of the same operation, and within ten minutes of a remembered result, with fewer
   than 256 other operations since, the operation is not carried out again.
   */
  method RunAll(calls: seq<Call>) returns (replies: seq<Option<Value>>, ran: seq<bool>, executed: seq<Id>)
    requires InTime(calls, 0)
    ensures |ran| == |calls| && RunOk(calls, replies, ran)
    ensures executed == RanIds(calls, ran)
  {
    var ledger := new Ledger();
    var operator := new Operator(ledger);
    replies, ran := [], [];
    for n := 0 to |calls|
      invariant operator.ledger == ledger && ledger.Valid() && fresh(ledger) && fresh(operator)
      invariant |ran| == n && operator.executed == RanIds(calls, ran)
      invariant ledger.clock <= if n > 0 then calls[n - 1].done else 0
      invariant SoFar(ledger.all, calls, replies, ran)
    {
      ghost var all := ledger.all;
      assert calls[n] in calls;
      var reply, again := RunOnce(operator, calls[n]);
      SoFarGrows(all, calls, replies, ran, reply, again);
      replies, ran := replies + [reply], ran + [again];
    }
    executed := operator.executed;
  }

  ghost predicate SoFar(all: Entries, calls: seq<Call>, replies: seq<Option<Value>>, ran: seq<bool>) {
    RunOk(calls, replies, ran) && MemoryOf(all, calls, ran)
  }

  lemma SoFarGrows(all: Entries, calls: seq<Call>, replies: seq<Option<Value>>, ran: seq<bool>, reply: Option<Value>,
                   again: bool)
    requires |ran| < |calls| && InTime(calls, 0) && SoFar(all, calls, replies, ran)
    requires NextOk(all, calls[|ran|], again, reply)
    ensures SoFar(AfterCall(all, calls[|ran|], again), calls, replies + [reply], ran + [again])
    ensures RanIds(calls, ran + [again]) == RanIds(calls, ran) + if again then [calls[|ran|].id] else []
  {
    MemoryGrows(all, calls, ran, again);
    NextCall(all, calls, ran, again, reply);
    RunGrows(calls, replies, ran, reply, again);
    assert (ran + [again])[..|ran|] == ran;
  }

  method RunOnce(operator: Operator, c: Call) returns (reply: Option<Value>, again: bool)
    requires operator.ledger.Valid() && operator.ledger.clock <= c.now <= c.later <= c.done
    modifies operator, operator.ledger
    ensures operator.ledger.Valid() && operator.ledger.clock <= c.done
    ensures operator.executed == old(operator.executed) + if again then [c.id] else []
    ensures var all := old(operator.ledger.all);
            && operator.ledger.all == AfterCall(all, c, again)
            && NextOk(all, c, again, reply)
  {
    var count := |operator.executed|;
    reply := operator.Run(c.id, c.effect, c.now, c.later, c.done);
    again := |operator.executed| != count;
  }

  /** What the ledger promises of one call. */
  ghost predicate NextOk(all: Entries, c: Call, again: bool, reply: Option<Value>) {
    && (again ==> reply == c.effect)
    && (!again ==> c.id in all && c.now - all[c.id].at <= LEDGER_TTL
                   && reply == Some(Value("replayed", all[c.id].value.body)))
    && (c.id in all && c.now - all[c.id].at <= LEDGER_TTL && |Newer(all, c.id)| < LEDGER_CAP ==> !again)
  }

  lemma RunGrows(calls: seq<Call>, replies: seq<Option<Value>>, ran: seq<bool>, reply: Option<Value>, again: bool)
    requires |ran| < |calls| && RunOk(calls, replies, ran) && CallOk(calls, ran + [again], |ran|, reply)
    ensures RunOk(calls, replies + [reply], ran + [again])
  {
    forall j | 0 <= j < |ran|
      ensures CallOk(calls, ran + [again], j, replies[j])
    {
      MoreCalls(calls, ran, again, j, replies[j]);
    }
  }

  /** The operations that were carried out. */
  function RanIds(calls: seq<Call>, ran: seq<bool>): seq<Id>
    requires |ran| <= |calls|
  {
    if ran == [] then []
    else RanIds(calls, ran[..|ran| - 1]) + if ran[|ran| - 1] then [calls[|ran| - 1].id] else []
  }

  lemma MoreCalls(calls: seq<Call>, ran: seq<bool>, again: bool, j: nat, reply: Option<Value>)
    requires |ran| < |calls| && j < |ran| && CallOk(calls, ran, j, reply)
    ensures CallOk(calls, ran + [again], j, reply)
  {
    var more := ran + [again];
    assert forall i | 0 <= i < |ran| :: Remembered(calls, more, i) <==> Remembered(calls, ran, i);
    assert forall i | 0 <= i < j :: Covers(calls, more, i, j) ==> Covers(calls, ran, i, j);
    if !ran[j] {
      var i :| 0 <= i < j && ReplayOf(calls, ran, i, j, reply);
      assert ReplayOf(calls, more, i, j, reply);
    }
  }

  lemma NextCall(all: Entries, calls: seq<Call>, ran: seq<bool>, again: bool, reply: Option<Value>)
    requires |ran| < |calls| && MemoryOf(all, calls, ran)
    requires NextOk(all, calls[|ran|], again, reply)
    ensures CallOk(calls, ran + [again], |ran|, reply)
  {
    var n, c, more := |ran|, calls[|ran|], ran + [again];
    assert forall i | 0 <= i < n :: Remembered(calls, more, i) <==> Remembered(calls, ran, i);
    if !again {
      assert FromACall(all[c.id], c.id, calls, ran);
      var k :| 0 <= k < n && Remembered(calls, ran, k) && calls[k].id == c.id
               && all[c.id] == Entry(calls[k].done, calls[k].effect.value);
      assert ReplayOf(calls, more, k, n, reply);
    }
    forall i | 0 <= i < n && Covers(calls, more, i, n)
      ensures !more[n]
    {
      assert Remembered(calls, ran, i);
      StillCovered(all, calls, ran, i);
    }
  }
}
