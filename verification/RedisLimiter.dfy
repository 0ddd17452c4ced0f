/**
 The two limiters kept as counters in Redis. A call increments the counter, asks for its time to
 live and, when it has none, sets one: three commands that interleave with those of other clients
 and with the key expiring. Any of them may fail on the client's side.
 */
module RedisLimiter {

  /** Which counter: connections are counted one at a time, joins by the requested number. */
  datatype Limiter = Connections | Joins

  const CONNECTION_LIMIT := 150
  const JOIN_LIMIT := 1500
  const PERIOD := 10

  /** Every creation of the key starts a new generation. */
  datatype Key = Absent | Present(value: int, expiring: bool, gen: nat)

  /** The reply to TTL: -2, -1 or the seconds left. */
  datatype Ttl = NoKey | NoExpiry | Remaining(seconds: nat)

  /** What a call gets for a counter that stands at `after` once its `count` was added. */
  function Grant(limiter: Limiter, after: int, count: int): int {
    match limiter
    case Connections => if after < CONNECTION_LIMIT then 1 else 0
    case Joins =>
      var v := after - JOIN_LIMIT;
      if v < 0 then count else if v > count then 0 else count - v
  }

  function Incremented(key: Key, gen: nat, count: int): Key {
    match key
    case Absent => Present(count, false, gen)
    case Present(value, expiring, g) => Present(value + count, expiring, g)
  }

  function WithExpiry(key: Key): Key {
    match key
    case Absent => Absent
    case Present(value, _, g) => Present(value, true, g)
  }

  predicate TtlReply(key: Key, ttl: Ttl) {
    match key
    case Absent => ttl == NoKey
    case Present(_, expiring, _) => if expiring then ttl.Remaining? else ttl == NoExpiry
  }

  // ---------------------------------------------------------------- one call on its own

  class Server {
    var key: Key
    var nextGen: nat

    constructor ()
      ensures key == Absent
    {
      key, nextGen := Absent, 0;
    }

    method IncrBy(count: int) returns (after: int)
      modifies this
      ensures key == Incremented(old(key), old(nextGen), count)
      ensures after == key.value
    {
      match key {
        case Absent =>
          key := Present(count, false, nextGen);
          nextGen := nextGen + 1;
        case Present(value, expiring, g) =>
          key := Present(value + count, expiring, g);
      }
      after := key.value;
    }

    method AskTtl(left: nat) returns (ttl: Ttl)
      ensures TtlReply(key, ttl) && (ttl.Remaining? ==> ttl.seconds == left)
    {
      match key
      case Absent => ttl := NoKey;
      case Present(_, expiring, _) => ttl := if expiring then Remaining(left) else NoExpiry;
    }

    method Expire()
      modifies this`key
      ensures key == WithExpiry(old(key))
    {
      if key.Present? {
        key := key.(expiring := true);
      }
    }
  }

  /** `Refused` stands for a returned error. */
  datatype Answer = Refused | Granted(n: int, ttl: Ttl)

  /** One undisturbed call; `pipelineFails` and `expireFails` are errors seen by the client. */
  method RateLimit(server: Server, limiter: Limiter, count: int, left: nat, pipelineFails: bool, expireFails: bool)
    returns (answer: Answer)
    requires limiter == Connections ==> count == 1
    modifies server
    ensures answer.Granted? ==>
      && server.key == WithExpiry(Incremented(old(server.key), old(server.nextGen), count))
      && answer.n == Grant(limiter, server.key.value, count)
      && answer.ttl == Remaining(if old(server.key).Present? && old(server.key).expiring then left else 10)
    ensures answer == Refused <==> pipelineFails || (expireFails && !Incremented(old(server.key), 0, count).expiring)
  {
    var after := server.IncrBy(count);
    var ttl := server.AskTtl(left);
    if pipelineFails {
      return Refused;
    }

    if ttl == NoExpiry {
      if expireFails {
        return Refused;
      }
      server.Expire();
      ttl := Remaining(PERIOD);
    }

    match limiter {
      case Connections =>
        return Granted(if after < CONNECTION_LIMIT then 1 else 0, ttl);
      case Joins =>
        var v := after - JOIN_LIMIT;
        if v < 0 {
          return Granted(count, ttl);
        }
        if v > count {
          return Granted(0, ttl);
        }
        return Granted(count - v, ttl);
    }
  }

  // ---------------------------------------------------------------- interleaved calls

  /** How far the commands of a call got on the server. */
  datatype Pc =
    | Begun
    | Counted(gen: nat, after: int)
    | Asked(gen: nat, after: int, ttl: Ttl)
    | Done(gen: nat, after: int)

  /** `failed` when the client saw an error: it returns and sends no further command, but commands
      already sent may still take effect. */
  datatype Call = Call(count: int, pc: Pc, failed: bool)

  /** `granted` adds up what the calls of the current generation were granted. */
  datatype Redis = Redis(key: Key, nextGen: nat, calls: map<nat, Call>, granted: int)

  const START := Redis(Absent, 0, map[], 0)

  datatype Action =
    | Begin(cid: nat, count: int)
    | Advance(cid: nat, left: nat)
    | Fail(cid: nat)
    | Late(cid: nat)   // the EXPIRE of a call whose client saw an error takes effect after all
    | Timeout          // the key expires

  predicate Can(limiter: Limiter, r: Redis, a: Action) {
    match a
    case Begin(cid, count) => cid !in r.calls && count >= 0 && (limiter == Connections ==> count == 1)
    case Advance(cid, _) =>
      cid in r.calls && !r.calls[cid].pc.Done? && (r.calls[cid].pc.Asked? ==> !r.calls[cid].failed)
    case Fail(cid) => cid in r.calls && !r.calls[cid].pc.Done?
    case Late(cid) =>
      cid in r.calls && r.calls[cid].failed && r.calls[cid].pc.Asked? && r.calls[cid].pc.ttl == NoExpiry
    case Timeout => r.key.Present? && r.key.expiring
  }

  function WithPc(r: Redis, cid: nat, pc: Pc): Redis
    requires cid in r.calls
  {
    r.(calls := r.calls[cid := r.calls[cid].(pc := pc)])
  }

  function Next(limiter: Limiter, r: Redis, cid: nat, left: nat): Redis
    requires cid in r.calls
  {
    var c := r.calls[cid];
    match c.pc
    case Begun =>
      var key := Incremented(r.key, r.nextGen, c.count);
      var grant := Grant(limiter, key.value, c.count);
      WithPc(Redis(key, if r.key.Absent? then r.nextGen + 1 else r.nextGen, r.calls,
                   if r.key.Absent? then grant else r.granted + grant),
             cid, Counted(key.gen, key.value))
    case Counted(gen, after) =>
      var ttl :=
        match r.key
        case Absent => NoKey
        case Present(_, expiring, _) => if expiring then Remaining(left) else NoExpiry;
      WithPc(r, cid, Asked(gen, after, ttl))
    case Asked(gen, after, ttl) =>
      var r := if ttl == NoExpiry then r.(key := WithExpiry(r.key)) else r;
      WithPc(r, cid, Done(gen, after))
    case Done(_, _) => r
  }

  function Do(limiter: Limiter, r: Redis, a: Action): Redis
    requires Can(limiter, r, a)
  {
    match a
    case Begin(cid, count) => r.(calls := r.calls[cid := Call(count, Begun, false)])
    case Advance(cid, left) => Next(limiter, r, cid, left)
    case Fail(cid) => r.(calls := r.calls[cid := r.calls[cid].(failed := true)])
    case Late(_) => r.(key := WithExpiry(r.key))
    case Timeout => r.(key := Absent)
  }

  ghost predicate Possible(limiter: Limiter, r: Redis, actions: seq<Action>)
    decreases |actions|
  {
    actions != [] ==> Can(limiter, r, actions[0]) && Possible(limiter, Do(limiter, r, actions[0]), actions[1..])
  }

  ghost function After(limiter: Limiter, r: Redis, actions: seq<Action>): Redis
    requires Possible(limiter, r, actions)
    decreases |actions|
  {
    if actions == [] then r else After(limiter, Do(limiter, r, actions[0]), actions[1..])
  }

  // ---------------------------------------------------------------- invariant

  /** A generation that is over, or whose key will expire. */
  ghost predicate Safe(r: Redis, gen: nat) {
    r.key.Absent? || r.key.gen > gen || r.key.expiring
  }

  ghost predicate CallOk(r: Redis, c: Call) {
    match c.pc
    case Begun => true
    case Counted(gen, _) => gen < r.nextGen
    case Asked(gen, _, ttl) => gen < r.nextGen && (ttl != NoExpiry ==> Safe(r, gen))
    case Done(gen, _) => gen < r.nextGen && Safe(r, gen) && !c.failed
  }

  /** The call has not returned yet. */
  predicate Running(c: Call) {
    !c.failed && !c.pc.Done?
  }

  ghost predicate CountedIn(c: Call, gen: nat) {
    !c.pc.Begun? && c.pc.gen == gen
  }

  /** The most a generation may grant. */
  function Cap(limiter: Limiter): int {
    if limiter == Connections then CONNECTION_LIMIT - 1 else JOIN_LIMIT
  }

  function Min(a: int, b: int): int {
    if a < b then a else b
  }

  ghost predicate Inv(limiter: Limiter, r: Redis) {
    && (forall cid :: cid in r.calls ==> CallOk(r, r.calls[cid]))
    && (forall cid :: cid in r.calls ==>
      r.calls[cid].count >= 0 && (limiter == Connections ==> r.calls[cid].count == 1))
    && (r.key.Present? ==>
      && r.key.gen + 1 == r.nextGen
      && r.key.value >= 0
      && r.granted == Min(r.key.value, Cap(limiter))
      && exists cid :: cid in r.calls && CountedIn(r.calls[cid], r.key.gen))
  }

  /** One more increment grants what is left of the generation's allowance. */
  lemma GrantFillsTheCap(limiter: Limiter, before: int, count: int)
    requires before >= 0 && count >= 0 && (limiter == Connections ==> count == 1)
    ensures Min(before, Cap(limiter)) + Grant(limiter, before + count, count) == Min(before + count, Cap(limiter))
    ensures 0 <= Grant(limiter, before + count, count) <= count
  {
  }

  lemma NextKeepsCallOk(limiter: Limiter, r: Redis, cid: nat, left: nat, other: nat)
    requires Can(limiter, r, Advance(cid, left)) && other in r.calls
    requires CallOk(r, r.calls[cid]) && CallOk(r, r.calls[other])
    requires r.key.Present? ==> r.key.gen + 1 == r.nextGen
    ensures var t := Next(limiter, r, cid, left); CallOk(t, t.calls[other])
  {
  }

  lemma AdvanceKeepsInv(limiter: Limiter, r: Redis, cid: nat, left: nat)
    requires Inv(limiter, r) && Can(limiter, r, Advance(cid, left))
    ensures Inv(limiter, Next(limiter, r, cid, left))
  {
    var t := Next(limiter, r, cid, left);
    forall other | other in t.calls
      ensures CallOk(t, t.calls[other])
    {
      NextKeepsCallOk(limiter, r, cid, left, other);
    }
    var c := r.calls[cid];
    if c.pc.Begun? {
      GrantFillsTheCap(limiter, if r.key.Absent? then 0 else r.key.value, c.count);
      assert CountedIn(t.calls[cid], t.key.gen);
    } else if r.key.Present? {
      var d :| d in r.calls && CountedIn(r.calls[d], r.key.gen);
      assert CountedIn(t.calls[d], t.key.gen);
    }
  }

  lemma StepKeepsInv(limiter: Limiter, r: Redis, a: Action)
    requires Inv(limiter, r) && Can(limiter, r, a)
    ensures Inv(limiter, Do(limiter, r, a))
  {
    var t := Do(limiter, r, a);
    match a
    case Advance(cid, left) => AdvanceKeepsInv(limiter, r, cid, left);
    case Timeout =>
    case _ =>
      if r.key.Present? {
        var d :| d in r.calls && CountedIn(r.calls[d], r.key.gen);
        assert CountedIn(t.calls[d], t.key.gen);
      }
  }

  lemma {:induction false} RunsKeepInv(limiter: Limiter, r: Redis, actions: seq<Action>)
    requires Inv(limiter, r) && Possible(limiter, r, actions)
    ensures Inv(limiter, After(limiter, r, actions))
    decreases |actions|
  {
    if actions == [] {
    } else {
      StepKeepsInv(limiter, r, actions[0]);
      RunsKeepInv(limiter, Do(limiter, r, actions[0]), actions[1..]);
    }
  }

  /** In every reachable state a counter without an expiry belongs to calls that are all still
      running or failed, at least one of them; so success never leaves the counter stuck, and once
      every call has returned only failures can have. */
  lemma NeverStuckAfterSuccess(limiter: Limiter, actions: seq<Action>)
    requires Possible(limiter, START, actions)
    ensures var r := After(limiter, START, actions);
      r.key.Present? && !r.key.expiring ==>
        && (forall cid :: cid in r.calls && CountedIn(r.calls[cid], r.key.gen) ==>
          r.calls[cid].failed || Running(r.calls[cid]))
        && (exists cid :: cid in r.calls && CountedIn(r.calls[cid], r.key.gen))
        && ((forall cid :: cid in r.calls ==> !Running(r.calls[cid])) ==>
          exists cid :: cid in r.calls && CountedIn(r.calls[cid], r.key.gen) && r.calls[cid].failed)
  {
    RunsKeepInv(limiter, START, actions);
    var r := After(limiter, START, actions);
    if r.key.Present? && !r.key.expiring {
      forall cid | cid in r.calls && CountedIn(r.calls[cid], r.key.gen)
        ensures r.calls[cid].failed || Running(r.calls[cid])
      {
        assert CallOk(r, r.calls[cid]);
      }
    }
  }

  /** The step that completes a call leaves the generation it counted in over or expiring. */
  lemma CompletionLeavesAnExpiry(limiter: Limiter, actions: seq<Action>, cid: nat, left: nat)
    requires Possible(limiter, START, actions)
    requires var r := After(limiter, START, actions); Can(limiter, r, Advance(cid, left)) && r.calls[cid].pc.Asked?
    ensures var r := After(limiter, START, actions);
      var t := Next(limiter, r, cid, left);
      t.calls[cid].pc.Done? && Safe(t, r.calls[cid].pc.gen)
  {
    RunsKeepInv(limiter, START, actions);
    AdvanceKeepsInv(limiter, After(limiter, START, actions), cid, left);
    var t := Next(limiter, After(limiter, START, actions), cid, left);
    assert CallOk(t, t.calls[cid]);
  }

  /** However the calls interleave, one lifetime of the key grants exactly what was asked for, up
      to 149 connections or 1500 joins. */
  lemma GrantsPerLifetime(limiter: Limiter, actions: seq<Action>)
    requires Possible(limiter, START, actions)
    ensures var r := After(limiter, START, actions);
      r.key.Present? ==>
        r.granted == Min(r.key.value, if limiter == Connections then 149 else 1500)
  {
    RunsKeepInv(limiter, START, actions);
  }
}
