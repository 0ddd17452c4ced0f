/**
 How requests are grouped into batches does not matter: a batch leaves the same book as serving
 its requests one at a time, duplicates included.
 */
module Batching {
  import opened Allocation

  /** A single request on its own: unresolvable requests change nothing. */
  function Serve(b: Book, limit: nat, directory: map<string, string>, r: Request): Book {
    if Resolvable(directory, r.id) then Place(b, limit, User(r.id, directory[r.id]), r) else b
  }

  function Stream(b: Book, limit: nat, directory: map<string, string>, requests: seq<Request>): Book {
    if requests == [] then b
    else
      Serve(Stream(b, limit, directory, requests[..|requests| - 1]), limit, directory,
            requests[|requests| - 1])
  }

  function RunBatches(b: Book, limit: nat, directory: map<string, string>, batches: seq<seq<Request>>): Book {
    if batches == [] then b
    else
      Batch(RunBatches(b, limit, directory, batches[..|batches| - 1]), limit, directory,
            batches[|batches| - 1]).book
  }

  function Flatten(batches: seq<seq<Request>>): seq<Request> {
    if batches == [] then []
    else Flatten(batches[..|batches| - 1]) + batches[|batches| - 1]
  }

  ghost predicate DistinctUsers(users: seq<User>) {
    forall i, j :: 0 <= i < j < |users| && users[i].id != "" ==> users[i].id != users[j].id
  }

  // ---------------------------------------------------------------- storing records

  lemma PutTwice(b: Book, c: Channel, d: Channel)
    requires c.twitchId == d.twitchId && c.edgeNode == d.edgeNode
    ensures Put(Put(b, c), d) == Put(b, d)
  {
    var x, y := Put(Put(b, c), d), Put(b, d);
    assert forall e :: 0 <= e < |x.edges| ==> x.edges[e] == y.edges[e];
    assert x.edges == y.edges;
  }

  lemma PutAt(b: Book, c: Channel, e: nat)
    requires e < |Put(b, c).edges|
    ensures |Put(b, c).edges| == if c.edgeNode < |b.edges| then |b.edges| else c.edgeNode + 1
    ensures Put(b, c).edges[e] ==
      var m := if e < |b.edges| then b.edges[e] else map[];
      if e == c.edgeNode then m[c.twitchId := c] else m
  {
  }

  lemma PutsCommuteAt(b: Book, c: Channel, d: Channel, e: nat)
    requires c.twitchId != d.twitchId && e < |Put(Put(b, c), d).edges| == |Put(Put(b, d), c).edges|
    ensures Put(Put(b, c), d).edges[e] == Put(Put(b, d), c).edges[e]
  {
    PutAt(Put(b, c), d, e);
    PutAt(Put(b, d), c, e);
    if e < |Put(b, c).edges| {
      PutAt(b, c, e);
    }
    if e < |Put(b, d).edges| {
      PutAt(b, d, e);
    }
  }

  lemma PutsCommute(b: Book, c: Channel, d: Channel)
    requires c.twitchId != d.twitchId
    ensures Put(Put(b, c), d) == Put(Put(b, d), c)
  {
    var x, y := Put(Put(b, c), d), Put(Put(b, d), c);
    assert |x.edges| == |y.edges|;
    forall e | 0 <= e < |x.edges|
      ensures x.edges[e] == y.edges[e]
    {
      PutsCommuteAt(b, c, d, e);
    }
    assert x.edges == y.edges;
  }

  /** Refreshing a known channel's record before or after placing another channel is the same. */
  lemma PlaceAroundRefresh(b: Book, limit: nat, c: Channel, u: User, r: Request)
    requires Agrees(b) && c.twitchId in b.index && b.index[c.twitchId].edgeNode == c.edgeNode
    requires u.id != c.twitchId
    ensures Place(Put(b, c), limit, u, r) == Put(Place(b, limit, u, r), c)
  {
    PutKeepsAgreement(b, c);
    assert SamePlacement(b, Put(b, c));
    SamePlacementSameEdge(b, Put(b, c), limit, u.id);
    PutsCommute(b, c, NewRecord(b, limit, u, r));
  }

  // ---------------------------------------------------------------- request data

  lemma {:induction false} OnlyAskedIdsMatter(b: Book, limit: nat, users: seq<User>,
                                              asked: map<string, Request>, other: map<string, Request>)
    requires Covered(users, asked) && Covered(users, other)
    requires forall i :: 0 <= i < |users| && users[i].id != "" ==> asked[users[i].id] == other[users[i].id]
    ensures PlaceAll(b, limit, users, asked) == PlaceAll(b, limit, users, other)
  {
    if users == [] {
    } else {
      OnlyAskedIdsMatter(b, limit, users[..|users| - 1], asked, other);
    }
  }

  /** A later request for an id already in the batch has the effect of serving it afterwards. */
  lemma {:induction false} LaterRequestRefreshes(b: Book, limit: nat, users: seq<User>,
                                                 asked: map<string, Request>, i: nat, r: Request)
    requires Agrees(b) && DistinctUsers(users) && Covered(users, asked) && Covered(users, asked[r.id := r])
    requires i < |users| && users[i].id == r.id != ""
    ensures var p := PlaceAll(b, limit, users, asked).book;
            && r.id in p.index
            && PlaceAll(b, limit, users, asked[r.id := r]).book == Place(p, limit, users[i], r)
  {
    var n := |users| - 1;
    var u := users[n];
    var before := PlaceAll(b, limit, users[..n], asked).book;
    PlaceAllKeepsInvariants(b, limit, users[..n], asked);
    if i == n {
      OnlyAskedIdsMatter(b, limit, users[..n], asked, asked[r.id := r]);
      PutTwice(before, NewRecord(before, limit, u, asked[u.id]), NewRecord(before, limit, u, r));
    } else {
      LaterRequestRefreshes(b, limit, users[..n], asked, i, r);
      if u.id != "" {
        PlaceAroundRefresh(before, limit, NewRecord(before, limit, users[i], r), u, asked[u.id]);
      }
    }
  }

  // ---------------------------------------------------------------- batches and streams

  lemma ResolveIsDistinct(directory: map<string, string>, ids: seq<string>)
    requires Distinct(ids)
    ensures DistinctUsers(Resolve(directory, ids))
  {
  }

  lemma ServeKeepsAgreement(b: Book, limit: nat, directory: map<string, string>, r: Request)
    requires Agrees(b)
    ensures Agrees(Serve(b, limit, directory, r))
  {
    if Resolvable(directory, r.id) {
      PlaceIsFirstFit(b, limit, User(r.id, directory[r.id]), r);
    }
  }

  lemma {:induction false} StreamKeepsAgreement(b: Book, limit: nat, directory: map<string, string>,
                                                requests: seq<Request>)
    requires Agrees(b)
    ensures Agrees(Stream(b, limit, directory, requests))
  {
    if requests == [] {
    } else {
      var n := |requests| - 1;
      StreamKeepsAgreement(b, limit, directory, requests[..n]);
      ServeKeepsAgreement(Stream(b, limit, directory, requests[..n]), limit, directory, requests[n]);
    }
  }

  /** Extending a batch by a request for an id it already asks for. */
  lemma BatchThenKnown(b: Book, limit: nat, directory: map<string, string>, requests: seq<Request>, r: Request)
    requires Agrees(b) && r.id in FirstIds(requests)
    ensures Batch(b, limit, directory, requests + [r]).book
         == Serve(Batch(b, limit, directory, requests).book, limit, directory, r)
  {
    var all := requests + [r];
    assert all[..|all| - 1] == requests;
    var ids, asked := FirstIds(requests), LastRequests(requests);
    var users := Resolve(directory, ids);
    BatchIsCovered(directory, requests);
    BatchIsCovered(directory, all);
    if Resolvable(directory, r.id) {
      var i :| 0 <= i < |ids| && ids[i] == r.id;
      FirstIdsAreTheIds(requests);
      ResolveIsDistinct(directory, ids);
      LaterRequestRefreshes(b, limit, users, asked, i, r);
    } else {
      OnlyAskedIdsMatter(b, limit, users, asked, asked[r.id := r]);
    }
  }

  lemma NewIdIsNotAsked(directory: map<string, string>, requests: seq<Request>, r: Request)
    requires r.id !in FirstIds(requests)
    ensures var users := Resolve(directory, FirstIds(requests));
      var asked := LastRequests(requests);
      && Covered(users, asked) && Covered(users, asked[r.id := r])
      && forall i :: 0 <= i < |users| && users[i].id != "" ==> asked[users[i].id] == asked[r.id := r][users[i].id]
  {
    var ids := FirstIds(requests);
    var users := Resolve(directory, ids);
    BatchIsCovered(directory, requests);
    forall i | 0 <= i < |users| && users[i].id != ""
      ensures users[i].id != r.id
    {
      assert ids[i] in ids;
    }
  }

  /** Extending a batch by a request for a new id. */
  lemma BatchThenNew(b: Book, limit: nat, directory: map<string, string>, requests: seq<Request>, r: Request)
    requires r.id !in FirstIds(requests)
    ensures Batch(b, limit, directory, requests + [r]).book
         == Serve(Batch(b, limit, directory, requests).book, limit, directory, r)
  {
    var all := requests + [r];
    assert all[..|all| - 1] == requests;
    var ids, asked := FirstIds(requests), LastRequests(requests);
    var users, more := Resolve(directory, ids), Resolve(directory, ids + [r.id]);
    assert more[..|more| - 1] == users;
    BatchIsCovered(directory, all);
    NewIdIsNotAsked(directory, requests, r);
    OnlyAskedIdsMatter(b, limit, users, asked, asked[r.id := r]);
  }

  /** Extending a batch by one request. */
  lemma BatchThenOne(b: Book, limit: nat, directory: map<string, string>, requests: seq<Request>, r: Request)
    requires Agrees(b)
    ensures Batch(b, limit, directory, requests + [r]).book
         == Serve(Batch(b, limit, directory, requests).book, limit, directory, r)
  {
    if r.id in FirstIds(requests) {
      BatchThenKnown(b, limit, directory, requests, r);
    } else {
      BatchThenNew(b, limit, directory, requests, r);
    }
  }

  /** A batch leaves exactly the book that serving its requests one by one leaves. */
  lemma {:induction false} BatchIsStream(b: Book, limit: nat, directory: map<string, string>, requests: seq<Request>)
    requires Agrees(b)
    ensures Batch(b, limit, directory, requests).book == Stream(b, limit, directory, requests)
  {
    if requests == [] {
    } else {
      var n := |requests| - 1;
      BatchIsStream(b, limit, directory, requests[..n]);
      BatchThenOne(b, limit, directory, requests[..n], requests[n]);
      assert requests == requests[..n] + [requests[n]];
    }
  }

  lemma {:induction false} StreamConcat(b: Book, limit: nat, directory: map<string, string>, xs: seq<Request>,
                                        ys: seq<Request>)
    ensures Stream(b, limit, directory, xs + ys) == Stream(Stream(b, limit, directory, xs), limit, directory, ys)
  {
    if ys == [] {
      assert xs + ys == xs;
    } else {
      assert (xs + ys)[..|xs + ys| - 1] == xs + ys[..|ys| - 1];
      StreamConcat(b, limit, directory, xs, ys[..|ys| - 1]);
    }
  }

  lemma {:induction false} BatchesAreOneStream(b: Book, limit: nat, directory: map<string, string>,
                                               batches: seq<seq<Request>>)
    requires Agrees(b)
    ensures RunBatches(b, limit, directory, batches) == Stream(b, limit, directory, Flatten(batches))
  {
    if batches == [] {
    } else {
      var n := |batches| - 1;
      BatchesAreOneStream(b, limit, directory, batches[..n]);
      var before := Stream(b, limit, directory, Flatten(batches[..n]));
      StreamKeepsAgreement(b, limit, directory, Flatten(batches[..n]));
      BatchIsStream(before, limit, directory, batches[n]);
      StreamConcat(b, limit, directory, Flatten(batches[..n]), batches[n]);
    }
  }

  /** Any two ways of cutting the same requests into batches leave the same book. */
  lemma BatchingDoesNotMatter(b: Book, limit: nat, directory: map<string, string>,
                              oneWay: seq<seq<Request>>, another: seq<seq<Request>>)
    requires Agrees(b) && Flatten(oneWay) == Flatten(another)
    ensures RunBatches(b, limit, directory, oneWay) == RunBatches(b, limit, directory, another)
  {
    BatchesAreOneStream(b, limit, directory, oneWay);
    BatchesAreOneStream(b, limit, directory, another);
  }
}
