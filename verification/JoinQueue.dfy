/**
 The master's queue of join requests: a priority queue emptied at most 1800 at a time by a ticker,
 from which a request withdraws itself when its caller gives up.
 */
module JoinQueue {
  import opened Multiples

  /** A queued request; the ticket is its identity. */
  datatype Item = Item(ticket: nat, priority: int)

  /** Which end of the priorities is served first. */
  datatype Order = HighestFirst | LowestFirst

  const COUNT := 1800

  predicate Outranks(order: Order, a: Item, b: Item) {
    match order
    case HighestFirst => a.priority > b.priority
    case LowestFirst => a.priority < b.priority
  }

  /** What one tick may release: as many as it can, nothing left behind outranking any of them. */
  ghost predicate TickReleases(order: Order, pending: set<Item>, out: set<Item>) {
    && out <= pending
    && |out| == (if |pending| < COUNT then |pending| else COUNT)
    && forall r, p :: r in out && p in pending - out ==> !Outranks(order, p, r)
  }

  lemma {:induction false} TopExists(order: Order, s: set<Item>) returns (top: Item)
    requires s != {}
    ensures top in s && forall o :: o in s ==> !Outranks(order, o, top)
    decreases |s|
  {
    var x :| x in s;
    if s - {x} == {} {
      top := x;
      assert forall o :: o in s ==> o == x || o in s - {x};
    } else {
      var t := TopExists(order, s - {x});
      top := if Outranks(order, x, t) then x else t;
      assert forall o :: o in s ==> o == x || o in s - {x};
    }
  }

  // ---------------------------------------------------------------- all interleavings

  /** `seen` are the requests pushed so far. */
  datatype Queue = Queue(
    seen: set<Item>,
    pending: set<Item>,
    released: set<Item>,
    removed: set<Item>,
    left: set<Item>,
    once: set<Item>,
    closings: multiset<Item>)

  const EMPTY := Queue({}, {}, {}, {}, {}, {}, multiset{})

  datatype Event =
    | Pushed(x: Item)
    | Ticked(out: set<Item>)
    | Withdrawn(x: Item)      // awake again, the request takes itself out if it is still queued
    | Returned(x: Item)       // the deferred close

  ghost predicate Can(q: Queue, order: Order, ev: Event) {
    match ev
    case Pushed(x) => x !in q.seen
    case Ticked(out) => TickReleases(order, q.pending, out)
    case Withdrawn(x) => x in q.seen && x !in q.left
    case Returned(x) => x in q.left
  }

  /** The `once` around the close of a signal. */
  function Close(q: Queue, xs: set<Item>): Queue {
    q.(once := q.once + xs, closings := q.closings + multiset(xs - q.once))
  }

  function Do(q: Queue, ev: Event): Queue {
    match ev
    case Pushed(x) => q.(seen := q.seen + {x}, pending := q.pending + {x})
    case Ticked(out) =>
      Close(q.(pending := q.pending - out, released := q.released + out), out)
    case Withdrawn(x) =>
      if x in q.pending then
        q.(pending := q.pending - {x}, removed := q.removed + {x}, left := q.left + {x})
      else q.(left := q.left + {x})
    case Returned(x) => Close(q, {x})
  }

  ghost predicate Possible(q: Queue, order: Order, evs: seq<Event>)
    decreases |evs|
  {
    evs != [] ==> Can(q, order, evs[0]) && Possible(Do(q, evs[0]), order, evs[1..])
  }

  function After(q: Queue, evs: seq<Event>): Queue
    decreases |evs|
  {
    if evs == [] then q else After(Do(q, evs[0]), evs[1..])
  }

  /** A request is in exactly one place once it was pushed; its signal is closed when it is
      released, not while it is pending, and never twice. */
  ghost predicate Kept(q: Queue, x: Item) {
    && (x in q.seen <==> x in q.pending || x in q.released || x in q.removed)
    && !(x in q.pending && x in q.released)
    && !(x in q.pending && x in q.removed)
    && !(x in q.released && x in q.removed)
    && (x in q.left ==> x in q.seen && x !in q.pending)
    && (x in q.released ==> x in q.once)
    && (x in q.once ==> x in q.seen && x !in q.pending)
    && q.closings[x] == if x in q.once then 1 else 0
  }

  ghost predicate Conserved(q: Queue) {
    forall x :: Kept(q, x)
  }

  lemma StepConserves(q: Queue, order: Order, ev: Event)
    requires Conserved(q) && Can(q, order, ev)
    ensures Conserved(Do(q, ev))
  {
    forall x
      ensures Kept(Do(q, ev), x)
    {
      assert Kept(q, x);
    }
  }

  lemma {:induction false} StepsConserve(q: Queue, order: Order, evs: seq<Event>)
    requires Conserved(q) && Possible(q, order, evs)
    ensures Conserved(After(q, evs))
    decreases |evs|
  {
    if evs == [] {
    } else {
      StepConserves(q, order, evs[0]);
      StepsConserve(Do(q, evs[0]), order, evs[1..]);
    }
  }

  /** In every interleaving, from an empty queue, every request is in exactly one place and its
      signal is closed at most once. */
  lemma QueueConserves(order: Order, evs: seq<Event>)
    requires Possible(EMPTY, order, evs)
    ensures Conserved(After(EMPTY, evs))
  {
    StepsConserve(EMPTY, order, evs);
  }

  // ---------------------------------------------------------------- what each step does

  /** A pushed request waits, with its signal open, and disturbs nobody. */
  lemma PushLaw(q: Queue, order: Order, x: Item)
    requires Conserved(q) && Can(q, order, Pushed(x))
    ensures var t := Do(q, Pushed(x));
      && t.pending == q.pending + {x} && x !in q.pending
      && t.released == q.released && t.removed == q.removed
      && t.closings == q.closings && t.closings[x] == 0
  {
    assert Kept(q, x);
  }

  /** A tick moves what it releases from pending to released and closes those signals, and no
      other step releases anything. */
  lemma OnlyTicksRelease(q: Queue, order: Order, ev: Event)
    requires Conserved(q) && Can(q, order, ev)
    ensures var t := Do(q, ev);
      && t.released == q.released + (if ev.Ticked? then ev.out else {})
      && (ev.Ticked? ==>
        && t.pending == q.pending - ev.out && t.removed == q.removed
        && forall x :: t.closings[x] == if x in ev.out then 1 else q.closings[x])
  {
    StepConserves(q, order, ev);
    if ev.Ticked? {
      forall x
        ensures Do(q, ev).closings[x] == if x in ev.out then 1 else q.closings[x]
      {
        assert Kept(q, x) && Kept(Do(q, ev), x);
      }
    }
  }

  /** A request that gives up while it waits is removed, one that was released stays released; when
      it returns its signal is closed. */
  lemma ReturnLaw(q: Queue, order: Order, x: Item)
    requires Conserved(q) && Can(q, order, Withdrawn(x))
    ensures var t := Do(Do(q, Withdrawn(x)), Returned(x));
      && t.pending == q.pending - {x} && t.released == q.released
      && t.removed == q.removed + (if x in q.pending then {x} else {})
      && t.closings[x] == 1
      && forall y :: y != x ==> t.closings[y] == q.closings[y]
  {
    StepConserves(q, order, Withdrawn(x));
    StepConserves(Do(q, Withdrawn(x)), order, Returned(x));
    assert Kept(Do(Do(q, Withdrawn(x)), Returned(x)), x);
  }

  // ---------------------------------------------------------------- the limiter object

  /** The limiter as it is: the queue and which signals are closed. Who was pushed, released or
      withdrawn is history. */
  class RateLimiter {
    const order: Order
    var pq: set<Item>
    /** The requests whose `once` has run. */
    var once: set<Item>

    ghost var seen: set<Item>
    ghost var released: set<Item>
    ghost var removed: set<Item>
    ghost var left: set<Item>
    /** Every close of a done signal. */
    ghost var closings: multiset<Item>

    ghost function State(): Queue
      reads this
    {
      Queue(seen, pq, released, removed, left, once, closings)
    }

    ghost predicate Valid()
      reads this
    {
      Conserved(State())
    }

    constructor (order: Order)
      ensures Valid() && State() == EMPTY && this.order == order
    {
      this.order := order;
      pq, once := {}, {};
      seen, released, removed, left, closings := {}, {}, {}, {}, multiset{};
    }

    /** Close the signal of a request unless that was done before. */
    method CloseOnce(x: Item)
      modifies this`once, this`closings
      ensures State() == Close(old(State()), {x})
    {
      if x !in once {
        once := once + {x};
        closings := closings + multiset{x};
      }
    }

    method Push(x: Item)
      requires Valid() && Can(State(), order, Pushed(x))
      modifies this
      ensures Valid() && State() == Do(old(State()), Pushed(x))
    {
      StepConserves(State(), order, Pushed(x));
      pq := pq + {x};
      seen := seen + {x};
    }

    /** Pop a request that nothing queued outranks (which one of several is not specified) and
        signal it. */
    method Release() returns (x: Item)
      requires pq != {}
      modifies this
      ensures x in old(pq) && forall o :: o in old(pq) ==> !Outranks(order, o, x)
      ensures State() == Do(old(State()), Ticked({x}))
    {
      ghost var top := TopExists(order, pq);
      x :| x in pq && forall o :: o in pq ==> !Outranks(order, o, x);
      pq := pq - {x};
      released := released + {x};
      CloseOnce(x);
    }

    /** One tick: release until the count is used up or the queue is empty. */
    method Tick() returns (out: set<Item>)
      requires Valid()
      modifies this
      ensures Valid()
      ensures TickReleases(order, old(pq), out) && State() == Do(old(State()), Ticked(out))
    {
      ghost var before := State();
      out := {};
      var i := 0;
      NothingReleased(before);
      while i < COUNT
        invariant 0 <= i <= COUNT && |out| == i
        invariant PartOfTick(order, before.pending, pq, out) && State() == Do(before, Ticked(out))
      {
        if pq == {} {
          break;
        }
        ghost var queued := pq;
        var x := Release();
        OneMoreReleased(order, before.pending, queued, out, x);
        TickByTick(before, out, x);
        out := out + {x};
        i := i + 1;
      }
      TickIsComplete(order, before.pending, pq, out);
      StepConserves(before, order, Ticked(out));
    }

    /** Awake again, a request takes itself out if it is still queued. */
    method Withdraw(x: Item)
      requires Valid() && Can(State(), order, Withdrawn(x))
      modifies this
      ensures Valid() && State() == Do(old(State()), Withdrawn(x))
    {
      StepConserves(State(), order, Withdrawn(x));
      if x in pq {
        pq := pq - {x};
        removed := removed + {x};
      }
      left := left + {x};
    }

    /** The deferred close when the request returns. */
    method Return(x: Item)
      requires Valid() && Can(State(), order, Returned(x))
      modifies this
      ensures Valid() && State() == Do(old(State()), Returned(x))
    {
      StepConserves(State(), order, Returned(x));
      CloseOnce(x);
    }

    /** The end of a request, whatever woke it: it is not queued any more, its signal was closed
        exactly once, and no other request was touched. */
    method Finish(x: Item)
      requires Valid() && Can(State(), order, Withdrawn(x))
      modifies this
      ensures Valid() && State() == Do(Do(old(State()), Withdrawn(x)), Returned(x))
      ensures x !in pq && x in left && closings[x] == 1
      ensures forall y :: y != x ==> (y in pq <==> y in old(pq)) && closings[y] == old(closings)[y]
    {
      Withdraw(x);
      Return(x);
      assert Kept(State(), x);
    }
  }

  lemma NothingReleased(q: Queue)
    ensures Do(q, Ticked({})) == q
  {
  }

  lemma TickByTick(q: Queue, out: set<Item>, x: Item)
    requires x !in out
    ensures Do(Do(q, Ticked(out)), Ticked({x})) == Do(q, Ticked(out + {x}))
  {
    assert q.closings + multiset(out - q.once) + multiset({x} - (q.once + out))
        == q.closings + multiset(out + {x} - q.once) by {
      if x in q.once {
        assert {x} - (q.once + out) == {} && out + {x} - q.once == out - q.once;
      } else {
        assert {x} - (q.once + out) == {x} && out + {x} - q.once == (out - q.once) + {x};
      }
    }
  }

  /** `before` was split into what a tick has released and what is still queued. */
  ghost predicate PartOfTick(order: Order, before: set<Item>, after: set<Item>, out: set<Item>) {
    && out <= before && after == before - out
    && forall r, p :: r in out && p in after ==> !Outranks(order, p, r)
  }

  lemma OneMoreReleased(order: Order, before: set<Item>, after: set<Item>, out: set<Item>, x: Item)
    requires PartOfTick(order, before, after, out) && x in after
    requires forall o :: o in after ==> !Outranks(order, o, x)
    ensures PartOfTick(order, before, after - {x}, out + {x}) && x !in out
  {
  }

  lemma TickIsComplete(order: Order, before: set<Item>, after: set<Item>, out: set<Item>)
    requires PartOfTick(order, before, after, out) && |out| <= COUNT && (after == {} || |out| == COUNT)
    ensures TickReleases(order, before, out)
  {
    assert before == out + after;
    assert |before| == |out| + |after|;
  }

  // ---------------------------------------------------------------- waiting time

  /** The other requests that may be served before `x`. */
  ghost function Ahead(q: Queue, order: Order, x: Item): set<Item> {
    set y | y in q.pending && y != x && !Outranks(order, x, y)
  }

  function Ticks(evs: seq<Event>): nat {
    if evs == [] then 0 else (if evs[0].Ticked? then 1 else 0) + Ticks(evs[1..])
  }

  /** Nothing of the same or a higher rank arrives, and `x` does not give up. */
  ghost predicate Undisturbed(order: Order, x: Item, evs: seq<Event>) {
    forall i :: 0 <= i < |evs| ==>
      && evs[i] != Withdrawn(x)
      && (evs[i].Pushed? ==> Outranks(order, x, evs[i].x))
  }

  lemma SubsetSize<T>(a: set<T>, b: set<T>)
    requires a <= b
    ensures |a| <= |b|
  {
    assert b == a + (b - a);
  }

  /** A tick that leaves `x` waiting has served a full count of requests ahead of it. */
  lemma TickServesThoseAhead(q: Queue, order: Order, x: Item, out: set<Item>)
    requires x in q.pending - out && TickReleases(order, q.pending, out)
    ensures |Ahead(Do(q, Ticked(out)), order, x)| + COUNT <= |Ahead(q, order, x)|
  {
    var after := Ahead(Do(q, Ticked(out)), order, x);
    assert |out| == COUNT by {
      if |q.pending| < COUNT {
        SubsetSize(out + {x}, q.pending);
      }
    }
    assert out + after <= Ahead(q, order, x);
    assert out !! after;
    SubsetSize(out + after, Ahead(q, order, x));
  }

  lemma OtherStepsAddNobodyAhead(q: Queue, order: Order, x: Item, ev: Event)
    requires Can(q, order, ev) && !ev.Ticked? && ev != Withdrawn(x)
    requires ev.Pushed? ==> Outranks(order, x, ev.x)
    ensures |Ahead(Do(q, ev), order, x)| <= |Ahead(q, order, x)|
  {
    SubsetSize(Ahead(Do(q, ev), order, x), Ahead(q, order, x));
  }

  lemma {:induction false} WaitingMeansOthersWereServed(q: Queue, order: Order, x: Item, evs: seq<Event>)
    requires Possible(q, order, evs) && Undisturbed(order, x, evs)
    requires x in q.seen && x in After(q, evs).pending
    ensures x in q.pending
    ensures Ticks(evs) * COUNT <= |Ahead(q, order, x)|
    decreases |evs|
  {
    if evs == [] {
    } else {
      var t := Do(q, evs[0]);
      assert forall i :: 0 <= i < |evs[1..]| ==> evs[1..][i] == evs[i + 1];
      WaitingMeansOthersWereServed(t, order, x, evs[1..]);
      if evs[0].Ticked? {
        TickServesThoseAhead(q, order, x, evs[0].out);
      } else {
        OtherStepsAddNobodyAhead(q, order, x, evs[0]);
      }
    }
  }

  /** In any reachable queue, a request with `r` others of its rank or higher before it, and no
      later such arrivals, is released within `r / 1800 + 1` ticks unless it gives up. */
  lemma ReleasedInTime(order: Order, before: seq<Event>, x: Item, evs: seq<Event>)
    requires Possible(EMPTY, order, before) && Possible(After(EMPTY, before), order, evs) && Undisturbed(order, x, evs)
    requires var q := After(EMPTY, before);
      x in q.pending && Ticks(evs) >= |Ahead(q, order, x)| / COUNT + 1
    ensures x in After(After(EMPTY, before), evs).released
  {
    var q := After(EMPTY, before);
    QueueConserves(order, before);
    assert Kept(q, x);
    if x in After(q, evs).pending {
      WaitingMeansOthersWereServed(q, order, x, evs);
      assert false;
    }
    StaysUnremoved(q, order, x, evs);
  }

  lemma {:induction false} StaysUnremoved(q: Queue, order: Order, x: Item, evs: seq<Event>)
    requires Conserved(q) && Possible(q, order, evs) && x in q.seen && x !in q.removed
    requires forall i :: 0 <= i < |evs| ==> evs[i] != Withdrawn(x)
    ensures x in After(q, evs).pending || x in After(q, evs).released
    decreases |evs|
  {
    assert Kept(q, x);
    if evs == [] {
    } else {
      StepConserves(q, order, evs[0]);
      assert forall i :: 0 <= i < |evs[1..]| ==> evs[1..][i] == evs[i + 1];
      StaysUnremoved(Do(q, evs[0]), order, x, evs[1..]);
    }
  }

  // ---------------------------------------------------------------- release rate

  /** Ticks at least `gap` apart. */
  ghost predicate Spaced(times: seq<int>, gap: nat) {
    forall i, j :: 0 <= i < j < |times| ==> times[i] + gap <= times[j]
  }

  /** The releases of the ticks inside the closed window from `a` to `b`. */
  function ReleasedIn(times: seq<int>, sizes: seq<nat>, a: int, b: int): nat
    requires |times| == |sizes|
  {
    if times == [] then 0
    else
      var n := |times| - 1;
      ReleasedIn(times[..n], sizes[..n], a, b) + if a <= times[n] <= b then sizes[n] else 0
  }

  function TicksIn(times: seq<int>, a: int, b: int): nat {
    if times == [] then 0
    else TicksIn(times[..|times| - 1], a, b) + if a <= times[|times| - 1] <= b then 1 else 0
  }

  lemma {:induction false} EarlierWindow(times: seq<int>, a: int, b: int, c: int)
    requires forall i :: 0 <= i < |times| ==> times[i] <= c
    requires c <= b
    ensures TicksIn(times, a, b) == TicksIn(times, a, c)
    ensures c < a ==> TicksIn(times, a, c) == 0
  {
    if times == [] {
    } else {
      EarlierWindow(times[..|times| - 1], a, b, c);
    }
  }

  lemma OneMoreGap(n: nat, gap: nat)
    ensures (n + 1) * gap == n * gap + gap
  {
  }

  lemma {:induction false} FewTicksInAWindow(times: seq<int>, gap: nat, a: int, b: int)
    requires Spaced(times, gap) && a <= b
    ensures TicksIn(times, a, b) * gap <= b - a + gap
  {
    if times == [] {
    } else {
      var n := |times| - 1;
      FewTicksInAWindow(times[..n], gap, a, b);
      if a <= times[n] <= b {
        var c := times[n] - gap;
        EarlierWindow(times[..n], a, b, c);
        if a <= c {
          FewTicksInAWindow(times[..n], gap, a, c);
        }
        OneMoreGap(TicksIn(times[..n], a, b), gap);
      }
    }
  }

  lemma {:induction false} FewReleasesPerTick(times: seq<int>, sizes: seq<nat>, a: int, b: int)
    requires |times| == |sizes| && forall i :: 0 <= i < |sizes| ==> sizes[i] <= COUNT
    ensures ReleasedIn(times, sizes, a, b) <= TicksIn(times, a, b) * COUNT
  {
    if times == [] {
    } else {
      var n := |times| - 1;
      FewReleasesPerTick(times[..n], sizes[..n], a, b);
    }
  }

  /** When the ticks of a run happened. */
  function TickTimes(evs: seq<Event>, times: seq<int>): seq<int>
    requires |times| == |evs|
    decreases |evs|
  {
    if evs == [] then []
    else (if evs[0].Ticked? then [times[0]] else []) + TickTimes(evs[1..], times[1..])
  }

  /** How many requests each tick of a run released. */
  function TickSizes(evs: seq<Event>): seq<nat> {
    if evs == [] then []
    else (if evs[0].Ticked? then [|evs[0].out|] else []) + TickSizes(evs[1..])
  }

  lemma {:induction false} TicksReleaseAtMostCount(q: Queue, order: Order, evs: seq<Event>, times: seq<int>)
    requires Possible(q, order, evs) && |times| == |evs|
    ensures |TickTimes(evs, times)| == |TickSizes(evs)|
    ensures forall i :: 0 <= i < |TickSizes(evs)| ==> TickSizes(evs)[i] <= COUNT
    decreases |evs|
  {
    if evs == [] {
    } else {
      TicksReleaseAtMostCount(Do(q, evs[0]), order, evs[1..], times[1..]);
    }
  }

  lemma TickRateIsBounded(q: Queue, order: Order, evs: seq<Event>, times: seq<int>, gap: nat, a: int, w: nat)
    requires Possible(q, order, evs) && |times| == |evs|
    requires gap >= 1 && Spaced(TickTimes(evs, times), gap)
    ensures |TickTimes(evs, times)| == |TickSizes(evs)|
    ensures ReleasedIn(TickTimes(evs, times), TickSizes(evs), a, a + w) <= (w / gap + 1) * COUNT
  {
    TicksReleaseAtMostCount(q, order, evs, times);
    var at, sizes := TickTimes(evs, times), TickSizes(evs);
    FewReleasesPerTick(at, sizes, a, a + w);
    FewTicksInAWindow(at, gap, a, a + w);
    TicksFit(TicksIn(at, a, a + w), gap, w);
  }

  /** The requests that became released by events inside the closed window from `a` to `b`. */
  function NewlyReleased(q: Queue, evs: seq<Event>, times: seq<int>, a: int, b: int): set<Item>
    requires |times| == |evs|
    decreases |evs|
  {
    if evs == [] then {}
    else
      var t := Do(q, evs[0]);
      (if a <= times[0] <= b then t.released - q.released else {}) + NewlyReleased(t, evs[1..], times[1..], a, b)
  }

  lemma {:induction false} ReleasedInCons(t: int, n: nat, times: seq<int>, sizes: seq<nat>, a: int, b: int)
    requires |times| == |sizes|
    ensures ReleasedIn([t] + times, [n] + sizes, a, b)
      == (if a <= t <= b then n else 0) + ReleasedIn(times, sizes, a, b)
  {
    if times == [] {
      assert ReleasedIn([t], [n], a, b) == ReleasedIn([t][..0], [n][..0], a, b) + if a <= t <= b then n else 0;
      assert [t] + times == [t] && [n] + sizes == [n];
    } else {
      var k := |times| - 1;
      assert ([t] + times)[..k + 1] == [t] + times[..k] && ([n] + sizes)[..k + 1] == [n] + sizes[..k];
      ReleasedInCons(t, n, times[..k], sizes[..k], a, b);
    }
  }

  lemma {:induction false} TicksReleaseThem(q: Queue, order: Order, evs: seq<Event>, times: seq<int>, a: int, b: int)
    requires Conserved(q) && Possible(q, order, evs) && |times| == |evs|
    ensures |TickTimes(evs, times)| == |TickSizes(evs)|
    ensures |NewlyReleased(q, evs, times, a, b)| <= ReleasedIn(TickTimes(evs, times), TickSizes(evs), a, b)
    decreases |evs|
  {
    if evs == [] {
    } else {
      var t := Do(q, evs[0]);
      OnlyTicksRelease(q, order, evs[0]);
      StepConserves(q, order, evs[0]);
      TicksReleaseThem(t, order, evs[1..], times[1..], a, b);
      var later := NewlyReleased(t, evs[1..], times[1..], a, b);
      var now := if a <= times[0] <= b then t.released - q.released else {};
      assert |now + later| <= |now| + |later|;
      if evs[0].Ticked? {
        SubsetSize(t.released - q.released, evs[0].out);
        ReleasedInCons(times[0], |evs[0].out|, TickTimes(evs[1..], times[1..]), TickSizes(evs[1..]), a, b);
      } else {
        assert now == {};
        assert TickTimes(evs, times) == TickTimes(evs[1..], times[1..]) && TickSizes(evs) == TickSizes(evs[1..]);
      }
    }
  }

  /** However a run from a reachable queue goes: if its ticks are at least `gap` apart, at most
      `(w / gap + 1) * 1800` requests become released within any closed window of length `w`. */
  lemma ReleaseRateIsBounded(order: Order, before: seq<Event>, evs: seq<Event>, times: seq<int>,
                             gap: nat, a: int, w: nat)
    requires Possible(EMPTY, order, before) && Possible(After(EMPTY, before), order, evs) && |times| == |evs|
    requires gap >= 1 && Spaced(TickTimes(evs, times), gap)
    ensures |NewlyReleased(After(EMPTY, before), evs, times, a, a + w)| <= (w / gap + 1) * 1800
  {
    QueueConserves(order, before);
    TicksReleaseThem(After(EMPTY, before), order, evs, times, a, a + w);
    TickRateIsBounded(After(EMPTY, before), order, evs, times, gap, a, w);
  }

  lemma TicksFit(n: nat, gap: nat, w: nat)
    requires gap >= 1 && n * gap <= w + gap
    ensures n <= w / gap + 1
  {
    var q := w / gap;
    assert w == q * gap + w % gap;
    assert (q + 1) * gap == q * gap + gap;
    if n > q + 1 {
      MultiplesGap(n, q + 1, gap);
    }
  }
}
