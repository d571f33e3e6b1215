/** ttlCache of internal/service/riskboard.go: a map under a lock whose writes sweep out expired entries. */
module TtlCache {
  import opened Wrappers

  datatype Entry<P> = Entry(payload: P, expireAt: int)

  /** The plain cache that never forgets: the last payload set for each key, and when its time is up. */
  type Memory<P> = map<string, Entry<P>>

  const SWEEP_ABOVE := 64

  function Lookup<P>(m: Memory<P>, key: string, now: int): Option<P> {
    if key in m && now <= m[key].expireAt then Some(m[key].payload) else None
  }

  function Sweep<P>(m: Memory<P>, now: int): Memory<P> {
    map k | k in m && now <= m[k].expireAt :: m[k]
  }

  function SweptWrite<P>(m: Memory<P>, key: string, payload: P, expireAt: int, sweepAt: int): Memory<P> {
    var written := m[key := Entry(payload, expireAt)];
    if |written| > SWEEP_ABOVE then Sweep(written, sweepAt) else written
  }

  /** The stored entries are a part of the memory, and whatever is missing has run out by `now`. */
  ghost predicate Refines<P>(entries: Memory<P>, memory: Memory<P>, now: int) {
    && (forall k :: k in entries ==> k in memory && entries[k] == memory[k])
    && (forall k :: k in memory && k !in entries ==> memory[k].expireAt < now)
  }

  // ---------- all histories ----------

  /** set reads the clock twice: for the expiry and, when it sweeps, for the sweep. */
  datatype Op<P> = Set(key: string, payload: P, at: int, sweepAt: int) | Get(key: string, at: int) {
    function End(): int { if Set? then sweepAt else at }
  }

  predicate Ordered<P>(ops: seq<Op<P>>, from: int) {
    ops == []
    || (from <= ops[0].at
        && ops[0].at <= ops[0].End()
        && Ordered(ops[1..], ops[0].End()))
  }

  /** What is stored after an operation, sweeping or not. */
  function After<P>(m: Memory<P>, ttl: int, op: Op<P>, sweeping: bool): Memory<P> {
    match op
    case Get(_, _) => m
    case Set(key, payload, at, sweepAt) =>
      if sweeping then SweptWrite(m, key, payload, at + ttl, sweepAt) else m[key := Entry(payload, at + ttl)]
  }

  /** What the gets of a history answer, sweeping or not. */
  function Answers<P>(m: Memory<P>, ttl: int, ops: seq<Op<P>>, sweeping: bool): seq<Option<P>>
    decreases |ops|
  {
    if ops == [] then []
    else
      (if ops[0].Get? then [Lookup(m, ops[0].key, ops[0].at)] else [])
      + Answers(After(m, ttl, ops[0], sweeping), ttl, ops[1..], sweeping)
  }

  lemma WriteRefines<P>(entries: Memory<P>, memory: Memory<P>, key: string, payload: P, expireAt: int, sweepAt: int)
    requires Refines(entries, memory, sweepAt)
    ensures Refines(SweptWrite(entries, key, payload, expireAt, sweepAt), memory[key := Entry(payload, expireAt)], sweepAt)
  {
  }

  lemma LaterRefines<P>(entries: Memory<P>, memory: Memory<P>, from: int, now: int)
    requires Refines(entries, memory, from) && from <= now
    ensures Refines(entries, memory, now)
  {
  }

  lemma LookupAgrees<P>(entries: Memory<P>, memory: Memory<P>, key: string, now: int)
    requires Refines(entries, memory, now)
    ensures Lookup(entries, key, now) == Lookup(memory, key, now)
  {
  }

  lemma AfterRefines<P>(entries: Memory<P>, memory: Memory<P>, ttl: int, op: Op<P>, from: int)
    requires Refines(entries, memory, from) && from <= op.at <= op.End()
    ensures Refines(After(entries, ttl, op, true), After(memory, ttl, op, false), op.End())
    ensures op.Get? ==> Lookup(entries, op.key, op.at) == Lookup(memory, op.key, op.at)
  {
    LaterRefines(entries, memory, from, op.End());
    if op.Set? {
      hide Refines, SweptWrite;
      WriteRefines(entries, memory, op.key, op.payload, op.at + ttl, op.sweepAt);
    } else {
      LookupAgrees(entries, memory, op.key, op.at);
    }
  }

  /** The sweep cannot be observed: under a clock that never goes back every get of every history answers the
      last payload set for its key if the time to live has not passed, and nothing otherwise. */
  lemma {:induction false} SweepIsUnobservable<P>(entries: Memory<P>, memory: Memory<P>, ttl: int, ops: seq<Op<P>>, from: int)
    requires Refines(entries, memory, from) && Ordered(ops, from)
    ensures Answers(entries, ttl, ops, true) == Answers(memory, ttl, ops, false)
    decreases |ops|
  {
    hide Refines, Lookup, After;
    if ops != [] {
      AfterRefines(entries, memory, ttl, ops[0], from);
      SweepIsUnobservable(After(entries, ttl, ops[0], true), After(memory, ttl, ops[0], false), ttl, ops[1..], ops[0].End());
    }
  }

  /** The last set of a key in a history, if any. */
  function LastSet<P>(key: string, ops: seq<Op<P>>): Option<Op<P>> {
    if ops == [] then None
    else
      var last := ops[|ops| - 1];
      if last.Set? && last.key == key then Some(last) else LastSet(key, ops[..|ops| - 1])
  }

  /** After any ordered history on an empty cache, a get answers by the last set of its key alone. */
  lemma {:induction false} GetAnswersLastSet<P>(ttl: int, ops: seq<Op<P>>, key: string, now: int, from: int)
    requires Ordered(ops + [Get(key, now)], from)
    ensures var answers := Answers(map[], ttl, ops + [Get(key, now)], true);
      answers != [] && answers[|answers| - 1] == match LastSet(key, ops) {
          case None => None
          case Some(last) => if last.Set? && now <= last.at + ttl then Some(last.payload) else None
        }
  {
    SweepIsUnobservable(map[], map[], ttl, ops + [Get(key, now)], from);
    RememberedAnswer(map[], ttl, ops, key, now);
    RemembersLastSet(map[], ttl, ops, key);
  }

  function Remember<P>(m: Memory<P>, ttl: int, ops: seq<Op<P>>): Memory<P> {
    if ops == [] then m
    else
      var last := ops[|ops| - 1];
      var before := Remember(m, ttl, ops[..|ops| - 1]);
      if last.Set? then before[last.key := Entry(last.payload, last.at + ttl)] else before
  }

  lemma {:induction false} RememberFirst<P>(m: Memory<P>, ttl: int, ops: seq<Op<P>>)
    requires ops != []
    ensures Remember(m, ttl, ops) == Remember(Remember(m, ttl, [ops[0]]), ttl, ops[1..])
    decreases |ops|
  {
    if |ops| > 1 {
      RememberFirst(m, ttl, ops[..|ops| - 1]);
      assert ops[1..][..|ops| - 2] == ops[..|ops| - 1][1..];
    } else {
      assert ops == [ops[0]] && ops[1..] == [];
    }
  }

  lemma {:induction false} RememberedAnswer<P>(m: Memory<P>, ttl: int, ops: seq<Op<P>>, key: string, now: int)
    ensures var answers := Answers(m, ttl, ops + [Get(key, now)], false);
      answers != [] && answers[|answers| - 1] == Lookup(Remember(m, ttl, ops), key, now)
    decreases |ops|
  {
    if ops == [] {
      assert ops + [Get(key, now)] == [Get(key, now)];
      assert Answers(m, ttl, [Get(key, now)][1..], false) == [];
    } else {
      assert (ops + [Get(key, now)])[1..] == ops[1..] + [Get(key, now)];
      assert [ops[0]][..0] == [];
      RememberFirst(m, ttl, ops);
      RememberedAnswer(Remember(m, ttl, [ops[0]]), ttl, ops[1..], key, now);
    }
  }

  lemma {:induction false} RemembersLastSet<P>(m: Memory<P>, ttl: int, ops: seq<Op<P>>, key: string)
    requires key !in m
    ensures match LastSet(key, ops) {
        case None => key !in Remember(m, ttl, ops)
        case Some(last) => last.Set? && key in Remember(m, ttl, ops)
                           && Remember(m, ttl, ops)[key] == Entry(last.payload, last.at + ttl)
      }
    decreases |ops|
  {
    if ops != [] {
      RemembersLastSet(m, ttl, ops[..|ops| - 1], key);
    }
  }

  // ---------- the code ----------

  /** `memory` is what the cache stands for; `clock` the latest time read. */
  class Cache<P> {
    var entries: map<string, Entry<P>>
    const ttl: int
    ghost var memory: Memory<P>
    ghost var clock: int

    ghost predicate Valid()
      reads this
    {
      Refines(entries, memory, clock)
    }

    constructor (ttl: int, ghost start: int)
      ensures Valid() && this.ttl == ttl && memory == map[] && clock == start
    {
      this.ttl := ttl;
      entries, memory, clock := map[], map[], start;
    }

    method Get(key: string, now: int) returns (payload: Option<P>)
      requires Valid() && clock <= now
      modifies this`clock
      ensures Valid() && clock == now
      ensures payload == Lookup(memory, key, now)
    {
      clock := now;
      if key !in entries || now > entries[key].expireAt {
        return None;
      }
      payload := Some(entries[key].payload);
    }

    method Set(key: string, payload: P, now: int, sweepAt: int)
      requires Valid() && clock <= now <= sweepAt
      modifies this
      ensures Valid() && clock == sweepAt
      ensures memory == old(memory)[key := Entry(payload, now + ttl)]
      ensures entries == SweptWrite(old(entries), key, payload, now + ttl, sweepAt)
    {
      WriteRefines(entries, memory, key, payload, now + ttl, sweepAt);
      entries := entries[key := Entry(payload, now + ttl)];
      memory := memory[key := Entry(payload, now + ttl)];
      clock := sweepAt;
      if |entries| > SWEEP_ABOVE {
        RemoveExpired(sweepAt);
      }
    }

    /** The sweep of a write. */
    method RemoveExpired(now: int)
      modifies this`entries
      ensures entries == Sweep(old(entries), now)
    {
      ghost var written := entries;
      var keys := entries.Keys;
      while keys != {}
        invariant keys <= written.Keys
        invariant forall k :: k in entries <==> k in written && (k in keys || now <= written[k].expireAt)
        invariant forall k :: k in entries ==> entries[k] == written[k]
        decreases keys
      {
        var k :| k in keys;
        keys := keys - {k};
        if now > entries[k].expireAt {
          entries := entries - {k};
        }
      }
    }
  }
}
