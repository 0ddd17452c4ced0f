/** How many edges a run uses, and how full they get. */
module Capacity {
  import opened Allocation
  import opened MasterRuns
  import opened Multiples

  function TotalSize(edges: seq<map<string, Channel>>): nat {
    if edges == [] then 0 else TotalSize(edges[..|edges| - 1]) + |edges[|edges| - 1]|
  }

  /** The least number of edges of size `limit` that hold `channels` channels. */
  function EdgesNeeded(channels: nat, limit: nat): nat
    requires limit >= 1
  {
    (channels + limit - 1) / limit
  }

  function SizeAt(b: Book, e: nat): nat {
    if e < |b.edges| then |b.edges[e]| else 0
  }

  /** `b` can have grown out of `start`: no edge was lost, an edge grew only below the limit, and
      edges were added only after every earlier edge was full. */
  ghost predicate GrownFrom(start: Book, b: Book, limit: nat) {
    && |start.edges| <= |b.edges|
    && (forall e: nat :: e < |b.edges| ==> |b.edges[e]| <= limit || |b.edges[e]| <= SizeAt(start, e))
    && (|start.edges| < |b.edges| ==>
      && b.edges[|b.edges| - 1] != map[]
      && forall e :: 0 <= e < |b.edges| - 1 ==> |b.edges[e]| >= limit)
  }

  // ---------------------------------------------------------------- counting

  ghost function Below(b: Book, k: nat): set<string> {
    set id | id in b.index && b.index[id].edgeNode < k
  }

  lemma BelowNext(b: Book, k: nat)
    requires Agrees(b) && k < |b.edges|
    ensures Below(b, k + 1) == Below(b, k) + b.edges[k].Keys
    ensures Below(b, k) !! b.edges[k].Keys
  {
    forall id
      ensures id in Below(b, k + 1) <==> id in Below(b, k) + b.edges[k].Keys
    {
      if id in b.edges[k] {
        assert id in b.index;
      }
    }
  }

  lemma {:induction false} BelowSize(b: Book, k: nat)
    requires Agrees(b) && k <= |b.edges|
    ensures |Below(b, k)| == TotalSize(b.edges[..k])
  {
    if k == 0 {
      assert Below(b, k) == {};
    } else {
      BelowSize(b, k - 1);
      assert b.edges[..k][..k - 1] == b.edges[..k - 1];
      BelowNext(b, k - 1);
      assert |b.edges[k - 1].Keys| == |b.edges[k - 1]|;
    }
  }

  /** The edges together hold each known channel once. */
  lemma TotalIsIndexSize(b: Book)
    requires Agrees(b)
    ensures TotalSize(b.edges) == |b.index|
  {
    BelowSize(b, |b.edges|);
    assert b.edges[..|b.edges|] == b.edges;
    assert Below(b, |b.edges|) == b.index.Keys;
  }

  lemma {:induction false} FullEdgesHold(edges: seq<map<string, Channel>>, limit: nat)
    ensures (forall e :: 0 <= e < |edges| ==> |edges[e]| >= limit) ==> TotalSize(edges) >= |edges| * limit
    ensures (forall e :: 0 <= e < |edges| ==> |edges[e]| <= limit) ==> TotalSize(edges) <= |edges| * limit
  {
    if edges == [] {
    } else {
      FullEdgesHold(edges[..|edges| - 1], limit);
      assert |edges| * limit == (|edges| - 1) * limit + limit;
    }
  }

  lemma EdgesNeededBounds(channels: nat, limit: nat, n: nat)
    requires limit >= 1
    ensures n >= 1 && (n - 1) * limit < channels ==> n <= EdgesNeeded(channels, limit)
    ensures channels <= n * limit ==> EdgesNeeded(channels, limit) <= n
  {
    var t := channels + limit - 1;
    var q := EdgesNeeded(channels, limit);
    assert t == q * limit + t % limit;
    if n >= 1 && (n - 1) * limit < channels {
      assert n * limit == (n - 1) * limit + limit;
      if n > q {
        MultiplesGap(n, q, limit);
      }
    }
    if channels <= n * limit {
      if q > n {
        MultiplesGap(q, n, limit);
      }
    }
  }

  // ---------------------------------------------------------------- growth

  lemma GrownSamePlacement(start: Book, a: Book, b: Book, limit: nat)
    requires GrownFrom(start, a, limit) && SamePlacement(a, b)
    ensures GrownFrom(start, b, limit)
  {
    forall e | 0 <= e < |a.edges|
      ensures |a.edges[e]| == |b.edges[e]|
    {
      assert |a.edges[e]| == |a.edges[e].Keys| && |b.edges[e]| == |b.edges[e].Keys|;
    }
    if b.edges != [] {
      assert |a.edges[|a.edges| - 1]| == |b.edges[|b.edges| - 1]|;
    }
  }

  lemma PlaceKeepsGrown(start: Book, b: Book, limit: nat, u: User, r: Request)
    requires limit >= 1 && Agrees(b) && GrownFrom(start, b, limit)
    ensures GrownFrom(start, Place(b, limit, u, r), limit)
  {
    PlaceIsFirstFit(b, limit, u, r);
    var after := Place(b, limit, u, r);
    if u.id in b.index {
      GrownSamePlacement(start, b, after, limit);
    } else {
      var e := after.index[u.id].edgeNode;
      assert |after.edges[e]| == |after.edges[e].Keys|;
      if e < |b.edges| {
        assert u.id !in b.edges[e];
        assert |after.edges[e].Keys| == |b.edges[e].Keys| + 1 == |b.edges[e]| + 1;
      } else {
        assert |{u.id}| == 1;
      }
      assert u.id in after.edges[e];
    }
  }

  lemma {:induction false} PlaceAllKeepsGrown(start: Book, b: Book, limit: nat, users: seq<User>,
                                              asked: map<string, Request>)
    requires limit >= 1 && Covered(users, asked) && Agrees(b) && GrownFrom(start, b, limit)
    ensures GrownFrom(start, PlaceAll(b, limit, users, asked).book, limit)
  {
    if users == [] {
    } else {
      var n := |users| - 1;
      PlaceAllKeepsGrown(start, b, limit, users[..n], asked);
      PlaceAllKeepsInvariants(b, limit, users[..n], asked);
      if users[n].id != "" {
        PlaceKeepsGrown(start, PlaceAll(b, limit, users[..n], asked).book, limit, users[n], asked[users[n].id]);
      }
    }
  }

  lemma SavedPartKeepsGrown(start: Book, b: Book, limit: nat, directory: map<string, string>,
                            requests: seq<Request>, saved: nat)
    requires limit >= 1 && Agrees(b) && GrownFrom(start, b, limit)
    ensures var placed := Batch(b, limit, directory, requests).placed;
            GrownFrom(start, PutAll(b, if saved < |placed| then placed[..saved] else placed), limit)
  {
    var users, asked := Resolve(directory, FirstIds(requests)), LastRequests(requests);
    BatchIsCovered(directory, requests);
    var placed := Batch(b, limit, directory, requests).placed;
    assert placed[..|placed|] == placed;
    var j := SavedIsAPrefix(b, limit, users, asked, if saved < |placed| then saved else |placed|);
    PlacedIsWhatWasStored(b, limit, users[..j], asked);
    PlaceAllKeepsGrown(start, b, limit, users[..j], asked);
  }

  lemma {:induction false} UndisturbedKeepsGrown(m: Master, limit: nat, evs: seq<Event>)
    requires limit >= 1 && Inv(m) && ValidRun(m, limit, evs)
    ensures GrownFrom(m.book, Undisturbed(m.book, limit, evs), limit)
  {
    if evs == [] {
    } else {
      var n := |evs| - 1;
      UndisturbedKeepsGrown(m, limit, evs[..n]);
      RestartIsInvisible(m, limit, evs[..n]);
      var before := Undisturbed(m.book, limit, evs[..n]);
      match evs[n]
      case Allocated(directory, requests) =>
        BatchIsItsOwnSavedPart(before, limit, directory, requests);
        SavedPartKeepsGrown(m.book, before, limit, directory, requests,
                            |Batch(before, limit, directory, requests).placed|);
      case Reported(_, _) =>
      case Restarted(_) =>
      case Crashed(directory, requests, saved, _) =>
        SavedPartKeepsGrown(m.book, before, limit, directory, requests, saved);
    }
  }

  /** After any run, an edge is larger than the limit only if it was loaded that large, and edges
      were added only when all the others were full. */
  lemma RunsGrowWithinLimits(m: Master, limit: nat, evs: seq<Event>)
    requires limit >= 1 && Inv(m) && ValidRun(m, limit, evs)
    ensures GrownFrom(m.book, Run(m, limit, evs).book, limit)
  {
    UndisturbedKeepsGrown(m, limit, evs);
    RestartIsInvisible(m, limit, evs);
    GrownSamePlacement(m.book, Undisturbed(m.book, limit, evs), Run(m, limit, evs).book, limit);
  }

  lemma FullButLast(b: Book, limit: nat)
    requires limit >= 1 && Agrees(b) && b.edges != [] && LastEdgeUsed(b)
    requires forall e :: 0 <= e < |b.edges| - 1 ==> |b.edges[e]| >= limit
    ensures |b.edges| <= EdgesNeeded(|b.index|, limit)
  {
    var n := |b.edges|;
    TotalIsIndexSize(b);
    FullEdgesHold(b.edges[..n - 1], limit);
    assert |b.edges[n - 1]| >= 1;
    EdgesNeededBounds(|b.index|, limit, n);
  }

  /** No run uses more edges than it started with or than its channels need. */
  lemma EdgeCountIsBounded(m: Master, limit: nat, evs: seq<Event>)
    requires limit >= 1 && Inv(m) && ValidRun(m, limit, evs)
    ensures var b := Run(m, limit, evs).book;
            |b.edges| <= |m.book.edges| || |b.edges| <= EdgesNeeded(|b.index|, limit)
  {
    RunsGrowWithinLimits(m, limit, evs);
    RestartIsInvisible(m, limit, evs);
    var b := Run(m, limit, evs).book;
    if |b.edges| > |m.book.edges| {
      FullButLast(b, limit);
    }
  }

  /** Starting from an empty database the number of edges is the least that holds the channels. */
  lemma EdgeCountIsOptimal(limit: nat, evs: seq<Event>)
    requires limit >= 1 && ValidRun(FRESH, limit, evs)
    ensures var b := Run(FRESH, limit, evs).book;
            |b.edges| == EdgesNeeded(|b.index|, limit)
  {
    EdgeCountIsBounded(FRESH, limit, evs);
    RunsGrowWithinLimits(FRESH, limit, evs);
    RestartIsInvisible(FRESH, limit, evs);
    var b := Run(FRESH, limit, evs).book;
    TotalIsIndexSize(b);
    FullEdgesHold(b.edges, limit);
    EdgesNeededBounds(|b.index|, limit, |b.edges|);
  }
}
