/**
 Concurrent `JoinChat` calls on distinct channels. The manager's lock covers the room check and the
 seat, but the connection's length is incremented after the unlock, and decremented before the old
 seat is deleted; the calls interleave at those points.
 */
module JoinRace {
  import opened SlaveState

  /** Where one call is. `Stored` has put the entry in the connection's map and still has to count
      it (`counted`) unless the entry was already there; `newSeat` when the seat is new. */
  datatype Pc =
    | Begun
    | Rejoining(seat: Seat)
    | Parting(seat: Seat)
    | Parted(seat: Seat)
    | Unseated
    | Allocated(seat: Seat)
    | Stored(seat: Seat, counted: bool, newSeat: bool)

  datatype Call = Call(anon: bool, pc: Pc)

  /** Shared state: the index, the two connection counters, the length and the entries of each
      connection, and the calls in progress, one per channel id. */
  datatype Race = Race(
    seats: map<string, Seat>,
    auth: nat,
    anonymous: nat,
    lengths: map<Seat, int>,
    entries: set<(Seat, string)>,
    calls: map<string, Call>)

  const IDLE := Race(map[], 0, 0, map[], {}, map[])

  datatype Action =
    | Begin(id: string, anon: bool)
    | Advance(id: string)
    | Forget(seat: Seat, id: string)   // the sweep drops an entry

  function Count(r: Race, anon: bool): nat {
    if anon then r.anonymous else r.auth
  }

  function Length(r: Race, c: Seat): int {
    if c in r.lengths then r.lengths[c] else 0
  }

  predicate NeedsNewConn(r: Race, limit: nat, anon: bool) {
    Count(r, anon) == 0 || Length(r, Seat(Count(r, anon) - 1, anon)) >= limit
  }

  /** The body of the locked section. */
  function LockedAllocation(r: Race, limit: nat, id: string, anon: bool): Race {
    var n := Count(r, anon);
    if NeedsNewConn(r, limit, anon) then
      var c := Seat(n, anon);
      var r := if anon then r.(anonymous := n + 1) else r.(auth := n + 1);
      r.(lengths := r.lengths[c := 0], seats := r.seats[id := c], calls := r.calls[id := Call(anon, Allocated(c))])
    else
      var c := Seat(n - 1, anon);
      r.(seats := r.seats[id := c], calls := r.calls[id := Call(anon, Allocated(c))])
  }

  function Next(r: Race, limit: nat, id: string): Race
    requires id in r.calls
  {
    var Call(anon, pc) := r.calls[id];
    match pc
    case Begun =>
      var pc :=
        if id !in r.seats then Unseated
        else if r.seats[id].anon == anon then Rejoining(r.seats[id])
        else Parting(r.seats[id]);
      r.(calls := r.calls[id := Call(anon, pc)])
    case Parting(c) =>
      r.(lengths := r.lengths[c := Length(r, c) - 1], entries := r.entries - {(c, id)},
         calls := r.calls[id := Call(anon, Pc.Parted(c))])
    case Parted(c) =>
      r.(seats := r.seats - {id}, calls := r.calls[id := Call(anon, Unseated)])
    case Unseated => LockedAllocation(r, limit, id, anon)
    case Rejoining(c) =>
      r.(entries := r.entries + {(c, id)},
         calls := r.calls[id := Call(anon, Stored(c, (c, id) !in r.entries, false))])
    case Allocated(c) =>
      r.(entries := r.entries + {(c, id)},
         calls := r.calls[id := Call(anon, Stored(c, (c, id) !in r.entries, true))])
    case Stored(c, counted, _) =>
      r.(lengths := if counted then r.lengths[c := Length(r, c) + 1] else r.lengths,
         calls := r.calls - {id})
  }

  /** At most `k` calls run at a time, on distinct channels. */
  ghost predicate Can(r: Race, k: nat, a: Action) {
    match a
    case Begin(id, _) => id !in r.calls && |r.calls| < k
    case Advance(id) => id in r.calls
    case Forget(_, _) => true
  }

  ghost function Do(r: Race, limit: nat, k: nat, a: Action): Race
    requires Can(r, k, a)
  {
    match a
    case Begin(id, anon) => r.(calls := r.calls[id := Call(anon, Begun)])
    case Advance(id) => Next(r, limit, id)
    case Forget(c, id) => r.(entries := r.entries - {(c, id)})
  }

  ghost predicate Possible(r: Race, limit: nat, k: nat, actions: seq<Action>)
    decreases |actions|
  {
    actions != [] ==> Can(r, k, actions[0]) && Possible(Do(r, limit, k, actions[0]), limit, k, actions[1..])
  }

  ghost function After(r: Race, limit: nat, k: nat, actions: seq<Action>): Race
    requires Possible(r, limit, k, actions)
    decreases |actions|
  {
    if actions == [] then r else After(Do(r, limit, k, actions[0]), limit, k, actions[1..])
  }

  // ---------------------------------------------------------------- invariant

  ghost function Seated(r: Race, c: Seat): set<string> {
    set id | id in r.seats && r.seats[id] == c
  }

  /** The call has taken a seat on `c` it has not counted yet, or has uncounted a seat it still
      holds. */
  predicate Owes(pc: Pc, c: Seat) {
    match pc
    case Parted(d) => c == d
    case Allocated(d) => c == d
    case Stored(d, _, newSeat) => c == d && newSeat
    case _ => false
  }

  ghost function Owing(r: Race, c: Seat): set<string> {
    set id | id in r.calls && Owes(r.calls[id].pc, c)
  }

  /** What the program counter of the call for `id` implies. */
  ghost predicate CallOk(r: Race, id: string, pc: Pc) {
    match pc
    case Begun => true
    case Rejoining(c) => id in r.seats && r.seats[id] == c
    case Parting(c) => id in r.seats && r.seats[id] == c
    case Parted(c) => id in r.seats && r.seats[id] == c && (c, id) !in r.entries
    case Unseated => id !in r.seats
    case Allocated(c) => id in r.seats && r.seats[id] == c && (c, id) !in r.entries
    case Stored(c, counted, newSeat) => id in r.seats && r.seats[id] == c && (newSeat ==> counted)
  }

  ghost predicate Shape(r: Race) {
    && (forall id :: id in r.seats ==> r.seats[id].conn < Count(r, r.seats[id].anon))
    && (forall c, id :: (c, id) in r.entries ==> id in r.seats && r.seats[id] == c)
    && (forall id :: id in r.calls ==> CallOk(r, id, r.calls[id].pc))
  }

  ghost predicate Balanced(r: Race, limit: nat, k: nat, c: Seat) {
    && |Seated(r, c)| <= Length(r, c) + |Owing(r, c)|
    && |Seated(r, c)| <= limit + k - 1
  }

  ghost predicate Inv(r: Race, limit: nat, k: nat) {
    && Shape(r)
    && |r.calls| <= k
    && forall c :: Balanced(r, limit, k, c)
  }

  // ---------------------------------------------------------------- steps

  lemma SeatsStayExisting(r: Race, limit: nat, id: string, other: string)
    requires id in r.calls && other in Next(r, limit, id).seats
    requires other in r.seats ==> r.seats[other].conn < Count(r, r.seats[other].anon)
    ensures var t := Next(r, limit, id); t.seats[other].conn < Count(t, t.seats[other].anon)
  {
  }

  lemma EntriesStaySeated(r: Race, limit: nat, id: string, c: Seat, other: string)
    requires id in r.calls && (c, other) in Next(r, limit, id).entries
    requires CallOk(r, id, r.calls[id].pc)
    requires forall d :: (d, other) in r.entries ==> other in r.seats && r.seats[other] == d
    ensures var t := Next(r, limit, id); other in t.seats && t.seats[other] == c
  {
  }

  lemma CallsStayOk(r: Race, limit: nat, id: string, other: string)
    requires id in r.calls && other in r.calls && other in Next(r, limit, id).calls
    requires CallOk(r, id, r.calls[id].pc) && CallOk(r, other, r.calls[other].pc)
    requires forall d :: (d, id) in r.entries ==> id in r.seats && r.seats[id] == d
    ensures var t := Next(r, limit, id); CallOk(t, other, t.calls[other].pc)
  {
    var t := Next(r, limit, id);
    if other != id {
      assert t.calls[other] == r.calls[other];
      assert other in t.seats <==> other in r.seats;
      assert other in r.seats ==> t.seats[other] == r.seats[other];
    }
  }

  lemma NextKeepsShape(r: Race, limit: nat, id: string)
    requires Shape(r) && id in r.calls
    ensures Shape(Next(r, limit, id))
  {
    var t := Next(r, limit, id);
    forall other | other in t.seats
      ensures t.seats[other].conn < Count(t, t.seats[other].anon)
    {
      SeatsStayExisting(r, limit, id, other);
    }
    forall c, other | (c, other) in t.entries
      ensures other in t.seats && t.seats[other] == c
    {
      EntriesStaySeated(r, limit, id, c, other);
    }
    forall other | other in t.calls
      ensures CallOk(t, other, t.calls[other].pc)
    {
      CallsStayOk(r, limit, id, other);
    }
  }

  lemma FewerOwing(r: Race, c: Seat, id: string)
    requires id in r.calls && !Owes(r.calls[id].pc, c)
    ensures |Owing(r, c)| <= |r.calls| - 1
  {
    SubsetSize(Owing(r, c), r.calls.Keys - {id});
    assert |r.calls.Keys - {id}| == |r.calls| - 1;
  }

  lemma SubsetSize<T>(a: set<T>, b: set<T>)
    requires a <= b
    ensures |a| <= |b|
  {
    assert b == a + (b - a);
  }

  lemma NewConnIsEmpty(r: Race, anon: bool)
    requires Shape(r)
    ensures Seated(r, Seat(Count(r, anon), anon)) == {}
  {
  }

  lemma AllocationSets(r: Race, limit: nat, id: string, anon: bool, c: Seat)
    requires id in r.calls && r.calls[id].pc.Unseated? && id !in r.seats
    ensures var t := LockedAllocation(r, limit, id, anon);
      && Seated(t, c) == (if t.seats[id] == c then Seated(r, c) + {id} else Seated(r, c))
      && Owing(t, c) == (if t.seats[id] == c then Owing(r, c) + {id} else Owing(r, c))
  {
  }

  /** The connection that is given the seat has room for it, not counting the calls that owe. */
  lemma RoomForTheSeat(r: Race, limit: nat, k: nat, id: string, anon: bool, c: Seat)
    requires limit >= 1 && Shape(r) && |r.calls| <= k && Balanced(r, limit, k, c)
    requires id in r.calls && r.calls[id] == Call(anon, Unseated)
    requires LockedAllocation(r, limit, id, anon).seats[id] == c
    ensures var t := LockedAllocation(r, limit, id, anon);
      && |Seated(r, c)| <= Length(t, c) + |Owing(r, c)|
      && Length(t, c) < limit && |Owing(r, c)| <= k - 1
  {
    FewerOwing(r, c, id);
    if NeedsNewConn(r, limit, anon) {
      NewConnIsEmpty(r, anon);
    }
  }

  lemma AllocationBalanced(r: Race, limit: nat, k: nat, id: string, anon: bool, c: Seat)
    requires limit >= 1 && Shape(r) && |r.calls| <= k && Balanced(r, limit, k, c)
    requires id in r.calls && r.calls[id] == Call(anon, Unseated) && id !in r.seats
    ensures Balanced(LockedAllocation(r, limit, id, anon), limit, k, c)
  {
    var t := LockedAllocation(r, limit, id, anon);
    AllocationSets(r, limit, id, anon, c);
    if t.seats[id] == c {
      RoomForTheSeat(r, limit, k, id, anon, c);
      assert id !in Seated(r, c) && id !in Owing(r, c);
    } else {
      assert Length(t, c) == Length(r, c);
    }
  }

  lemma NextSets(r: Race, limit: nat, id: string, c: Seat)
    requires id in r.calls && !r.calls[id].pc.Unseated?
    ensures var t := Next(r, limit, id);
      var pc := r.calls[id].pc;
      && Seated(t, c) == (if pc.Parted? then Seated(r, c) - {id} else Seated(r, c))
      && Owing(t, c) == (if pc == Parting(c) then Owing(r, c) + {id}
                         else if pc == Pc.Parted(c) || (pc.Stored? && pc.seat == c && pc.newSeat)
                           then Owing(r, c) - {id}
                         else Owing(r, c))
  {
  }

  lemma NextBalanced(r: Race, limit: nat, k: nat, id: string, c: Seat)
    requires Balanced(r, limit, k, c) && id in r.calls && !r.calls[id].pc.Unseated?
    requires CallOk(r, id, r.calls[id].pc)
    ensures Balanced(Next(r, limit, id), limit, k, c)
  {
    var t := Next(r, limit, id);
    var pc := r.calls[id].pc;
    NextSets(r, limit, id, c);
    if pc.Parted? && pc.seat == c {
      assert id in Seated(r, c) && id in Owing(r, c);
    } else if pc.Parted? {
      assert id !in Seated(r, c);
      assert Seated(t, c) == Seated(r, c);
    } else if pc.Stored? && pc.seat == c && pc.newSeat {
      assert id in Owing(r, c);
    } else if pc == Parting(c) {
      assert id !in Owing(r, c);
    }
  }

  lemma StepKeepsInv(r: Race, limit: nat, k: nat, a: Action)
    requires limit >= 1 && Inv(r, limit, k) && Can(r, k, a)
    ensures Inv(Do(r, limit, k, a), limit, k)
  {
    var t := Do(r, limit, k, a);
    match a
    case Begin(id, anon) =>
      assert |t.calls| == |r.calls| + 1;
      forall c
        ensures Balanced(t, limit, k, c)
      {
        assert Balanced(r, limit, k, c);
        assert Seated(t, c) == Seated(r, c) && Owing(t, c) == Owing(r, c);
      }
    case Advance(id) =>
      NextKeepsShape(r, limit, id);
      NextKeepsCallCount(r, limit, id);
      forall c
        ensures Balanced(t, limit, k, c)
      {
        assert Balanced(r, limit, k, c) && CallOk(r, id, r.calls[id].pc);
        if r.calls[id].pc.Unseated? {
          AllocationBalanced(r, limit, k, id, r.calls[id].anon, c);
        } else {
          NextBalanced(r, limit, k, id, c);
        }
      }
    case Forget(d, id) =>
      forall c
        ensures Balanced(t, limit, k, c)
      {
        assert Balanced(r, limit, k, c);
        assert Seated(t, c) == Seated(r, c) && Owing(t, c) == Owing(r, c);
      }
  }

  lemma NextKeepsCallCount(r: Race, limit: nat, id: string)
    requires id in r.calls
    ensures |Next(r, limit, id).calls| <= |r.calls|
  {
    var t := Next(r, limit, id);
    SubsetSize(t.calls.Keys, r.calls.Keys);
    assert |t.calls| == |t.calls.Keys| && |r.calls| == |r.calls.Keys|;
  }

  lemma {:induction false} RunsKeepInv(r: Race, limit: nat, k: nat, actions: seq<Action>)
    requires limit >= 1 && Inv(r, limit, k) && Possible(r, limit, k, actions)
    ensures Inv(After(r, limit, k, actions), limit, k)
    decreases |actions|
  {
    if actions == [] {
    } else {
      StepKeepsInv(r, limit, k, actions[0]);
      RunsKeepInv(Do(r, limit, k, actions[0]), limit, k, actions[1..]);
    }
  }

  /** With at most `k` calls at a time, no connection is ever given more than `limit + k - 1`
      channels; one call at a time keeps the limit exactly. */
  lemma OvershootIsBounded(limit: nat, k: nat, actions: seq<Action>, c: Seat)
    requires limit >= 1 && k >= 1 && Possible(IDLE, limit, k, actions)
    ensures |Seated(After(IDLE, limit, k, actions), c)| <= limit + k - 1
  {
    assert Inv(IDLE, limit, k) by {
      forall c
        ensures Balanced(IDLE, limit, k, c)
      {
        assert Seated(IDLE, c) == {};
      }
    }
    RunsKeepInv(IDLE, limit, k, actions);
    assert Balanced(After(IDLE, limit, k, actions), limit, k, c);
  }
}
