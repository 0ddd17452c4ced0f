/** The overshoot bound of `JoinRace` is attained, whatever the limit and the number of calls. */
module JoinRaceWitness {
  import SlaveState
  import opened JoinRace

  const FIRST := SlaveState.Seat(0, false)

  function Name(n: nat): (s: string)
    ensures |s| == n
  {
    seq(n, _ => 'x')
  }

  /** `n` channels counted on the first connection and `waiting` calls between their unlock and
      their increment; every name used so far is shorter than `n + waiting`. */
  ghost predicate Stage(r: Race, n: nat, waiting: nat) {
    && r.auth == (if n + waiting == 0 then 0 else 1)
    && Length(r, FIRST) == n
    && |Seated(r, FIRST)| == n + waiting
    && |r.calls| == waiting
    && (forall id :: id in r.seats || id in r.calls ==> |id| < n + waiting)
    && (forall c, id :: (c, id) in r.entries ==> |id| < n + waiting)
  }

  lemma Prepend(r: Race, limit: nat, k: nat, a: Action, rest: seq<Action>)
    requires Can(r, k, a) && Possible(Do(r, limit, k, a), limit, k, rest)
    ensures Possible(r, limit, k, [a] + rest)
    ensures After(r, limit, k, [a] + rest) == After(Do(r, limit, k, a), limit, k, rest)
  {
    assert ([a] + rest)[1..] == rest;
  }

  /** A new call up to its unlock. */
  function Entered(r: Race, limit: nat, id: string): Race
    requires id !in r.seats && id !in r.calls
  {
    LockedAllocation(r.(calls := r.calls[id := Call(false, Unseated)]), limit, id, false)
  }

  lemma EnterIsThreeSteps(r: Race, limit: nat, k: nat, id: string, rest: seq<Action>)
    requires id !in r.seats && id !in r.calls && |r.calls| < k
    requires Possible(Entered(r, limit, id), limit, k, rest)
    ensures var actions := [Begin(id, false)] + ([Advance(id)] + ([Advance(id)] + rest));
      && Possible(r, limit, k, actions)
      && After(r, limit, k, actions) == After(Entered(r, limit, id), limit, k, rest)
  {
    var r1 := Do(r, limit, k, Begin(id, false));
    var r2 := Do(r1, limit, k, Advance(id));
    assert r2.calls == r.calls[id := Call(false, Unseated)];
    assert r2 == r.(calls := r.calls[id := Call(false, Unseated)]);
    Prepend(r2, limit, k, Advance(id), rest);
    Prepend(r1, limit, k, Advance(id), [Advance(id)] + rest);
    Prepend(r, limit, k, Begin(id, false), [Advance(id)] + ([Advance(id)] + rest));
  }

  lemma EnterAddsOneWaiting(r: Race, limit: nat, n: nat, waiting: nat)
    requires n < limit && Stage(r, n, waiting)
    ensures Name(n + waiting) !in r.seats && Name(n + waiting) !in r.calls
    ensures var t := Entered(r, limit, Name(n + waiting));
      && Stage(t, n, waiting + 1)
      && t.calls[Name(n + waiting)] == Call(false, Allocated(FIRST))
      && (FIRST, Name(n + waiting)) !in t.entries
  {
    var id := Name(n + waiting);
    EnteredState(r, limit, n, waiting, id);
    var t := Entered(r, limit, id);
    assert |t.calls| == |r.calls| + 1;
    assert id !in Seated(r, FIRST);
  }

  /** The new call took the first connection, opening it when there was none. */
  lemma EnteredState(r: Race, limit: nat, n: nat, waiting: nat, id: string)
    requires n < limit && r.auth == (if n + waiting == 0 then 0 else 1) && Length(r, FIRST) == n
    requires id !in r.seats && id !in r.calls
    ensures var t := Entered(r, limit, id);
      && t.seats == r.seats[id := FIRST] && t.auth == 1 && Length(t, FIRST) == n
      && t.calls == r.calls[id := Call(false, Allocated(FIRST))] && t.entries == r.entries
      && Seated(t, FIRST) == Seated(r, FIRST) + {id}
  {
    var c := r.(calls := r.calls[id := Call(false, Unseated)]);
    assert c.calls[id := Call(false, Allocated(FIRST))] == r.calls[id := Call(false, Allocated(FIRST))];
  }

  /** A waiting call after storing its entry and counting it. */
  function Finished(r: Race, limit: nat, id: string): Race
    requires id in r.calls && r.calls[id] == Call(false, Allocated(FIRST))
  {
    Next(Next(r, limit, id), limit, id)
  }

  lemma FinishIsTwoSteps(r: Race, limit: nat, k: nat, id: string, rest: seq<Action>)
    requires id in r.calls && r.calls[id] == Call(false, Allocated(FIRST))
    requires Possible(Finished(r, limit, id), limit, k, rest)
    ensures var actions := [Advance(id)] + ([Advance(id)] + rest);
      && Possible(r, limit, k, actions)
      && After(r, limit, k, actions) == After(Finished(r, limit, id), limit, k, rest)
  {
    var r1 := Do(r, limit, k, Advance(id));
    Prepend(r1, limit, k, Advance(id), rest);
    Prepend(r, limit, k, Advance(id), [Advance(id)] + rest);
  }

  /** Finishing the only waiting call counts its channel. */
  lemma FinishCounts(r: Race, limit: nat, n: nat, id: string)
    requires Stage(r, n, 1) && id in r.calls && r.calls[id] == Call(false, Allocated(FIRST))
    requires (FIRST, id) !in r.entries
    ensures Stage(Finished(r, limit, id), n + 1, 0)
  {
    var r1 := Next(r, limit, id);
    var done := Finished(r, limit, id);
    assert Seated(done, FIRST) == Seated(r, FIRST);
    assert r1.calls.Keys == r.calls.Keys;
    assert |r1.calls| == |r1.calls.Keys|;
    assert done.calls == r1.calls - {id};
    assert done.calls.Keys == r1.calls.Keys - {id};
    assert |done.calls| == |done.calls.Keys|;
  }

  lemma {:induction false} Crowd(r: Race, limit: nat, k: nat, waiting: nat) returns (actions: seq<Action>)
    requires limit >= 1 && waiting <= k && Stage(r, limit - 1, waiting)
    ensures Possible(r, limit, k, actions) && Stage(After(r, limit, k, actions), limit - 1, k)
    decreases k - waiting
  {
    if waiting == k {
      actions := [];
    } else {
      var id := Name(limit - 1 + waiting);
      EnterAddsOneWaiting(r, limit, limit - 1, waiting);
      var rest := Crowd(Entered(r, limit, id), limit, k, waiting + 1);
      EnterIsThreeSteps(r, limit, k, id, rest);
      actions := [Begin(id, false)] + ([Advance(id)] + ([Advance(id)] + rest));
    }
  }

  lemma {:induction false} FillThenCrowd(r: Race, limit: nat, k: nat, n: nat) returns (actions: seq<Action>)
    requires limit >= 1 && k >= 1 && n < limit && Stage(r, n, 0)
    ensures Possible(r, limit, k, actions) && Stage(After(r, limit, k, actions), limit - 1, k)
    decreases limit - n
  {
    if n == limit - 1 {
      actions := Crowd(r, limit, k, 0);
    } else {
      var id := Name(n);
      EnterAddsOneWaiting(r, limit, n, 0);
      var t := Entered(r, limit, id);
      FinishCounts(t, limit, n, id);
      var rest := FillThenCrowd(Finished(t, limit, id), limit, k, n + 1);
      FinishIsTwoSteps(t, limit, k, id, rest);
      var tail := [Advance(id)] + ([Advance(id)] + rest);
      EnterIsThreeSteps(r, limit, k, id, tail);
      actions := [Begin(id, false)] + ([Advance(id)] + ([Advance(id)] + tail));
    }
  }

  /** For every limit and every number of simultaneous calls there is a run that gives the first
      connection `limit + k - 1` channels. */
  lemma OvershootIsReached(limit: nat, k: nat) returns (actions: seq<Action>)
    requires limit >= 1 && k >= 1
    ensures Possible(IDLE, limit, k, actions)
    ensures |Seated(After(IDLE, limit, k, actions), FIRST)| == limit + k - 1
  {
    assert Seated(IDLE, FIRST) == {};
    actions := FillThenCrowd(IDLE, limit, k, 0);
  }
}
