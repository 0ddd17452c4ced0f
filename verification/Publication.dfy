/** What a batch hands to the event emitter is exactly what it placed. */
module Publication {
  import opened Allocation

  /** The ids of a list that the user lookup resolves, in order. */
  function ResolvedIds(directory: map<string, string>, ids: seq<string>): seq<string> {
    if ids == [] then []
    else
      var before := ResolvedIds(directory, ids[..|ids| - 1]);
      var id := ids[|ids| - 1];
      if Resolvable(directory, id) then before + [id] else before
  }

  function Ids(cs: seq<Channel>): (ids: seq<string>)
    ensures |ids| == |cs| && forall i :: 0 <= i < |cs| ==> ids[i] == cs[i].twitchId
  {
    seq(|cs|, i requires 0 <= i < |cs| => cs[i].twitchId)
  }

  /** Position `j` holds the last request for `id`. */
  ghost predicate LastFor(requests: seq<Request>, id: string, j: nat) {
    && j < |requests|
    && requests[j].id == id
    && forall k :: j < k < |requests| ==> requests[k].id != id
  }

  ghost predicate CarriesLastRequest(directory: map<string, string>, requests: seq<Request>, c: Channel) {
    && Resolvable(directory, c.twitchId)
    && c.twitchLogin == directory[c.twitchId]
    && c.state == Unknown
    && !c.botBanned
    && exists j: nat ::
      && LastFor(requests, c.twitchId, j)
      && c.priority == requests[j].priority
      && c.useAnonymous == requests[j].useAnonymous
  }

  /** The lists handed to the emitter: one for every edge that received a record, and no other. */
  ghost predicate Publishes(published: map<nat, seq<Channel>>, placed: seq<Channel>) {
    && (forall e: nat :: e in published <==> OnEdge(placed, e) != [])
    && (forall e: nat :: e in published ==> published[e] == OnEdge(placed, e))
  }

  /** `cs` lists the values of `m`, each once, in some order. */
  ghost predicate Lists(cs: seq<Channel>, m: map<string, Channel>) {
    && |cs| == |m|
    && Distinct(Ids(cs))
    && forall c :: c in cs ==> c.twitchId in m && m[c.twitchId] == c
  }

  lemma {:induction false} PlacedIds(b: Book, limit: nat, directory: map<string, string>,
                                     ids: seq<string>, asked: map<string, Request>)
    requires Covered(Resolve(directory, ids), asked)
    ensures Ids(PlaceAll(b, limit, Resolve(directory, ids), asked).placed) == ResolvedIds(directory, ids)
  {
    var users := Resolve(directory, ids);
    if ids == [] {
    } else {
      var n := |ids| - 1;
      assert users[..n] == Resolve(directory, ids[..n]);
      PlacedIds(b, limit, directory, ids[..n], asked);
    }
  }

  lemma {:induction false} ResolvedIdsAreDistinct(directory: map<string, string>, ids: seq<string>)
    requires Distinct(ids)
    ensures Distinct(ResolvedIds(directory, ids))
    ensures forall id :: id in ResolvedIds(directory, ids) <==> id in ids && Resolvable(directory, id)
  {
    if ids == [] {
    } else {
      var n := |ids| - 1;
      ResolvedIdsAreDistinct(directory, ids[..n]);
      assert ids == ids[..n] + [ids[n]];
    }
  }

  lemma {:induction false} PlacedData(b: Book, limit: nat, directory: map<string, string>,
                                      ids: seq<string>, asked: map<string, Request>)
    requires Covered(Resolve(directory, ids), asked)
    ensures forall c :: c in PlaceAll(b, limit, Resolve(directory, ids), asked).placed ==>
      && c.twitchId in asked && c.twitchId in directory
      && c == Stamp(User(c.twitchId, directory[c.twitchId]), asked[c.twitchId], c.edgeNode)
  {
    var users := Resolve(directory, ids);
    if ids == [] {
    } else {
      var n := |ids| - 1;
      assert users[..n] == Resolve(directory, ids[..n]);
      PlacedData(b, limit, directory, ids[..n], asked);
    }
  }

  lemma {:induction false} StoredRecordsStay(b: Book, cs: seq<Channel>)
    requires Distinct(Ids(cs))
    ensures forall i :: 0 <= i < |cs| ==>
      var o := PutAll(b, cs); cs[i].twitchId in o.index && o.index[cs[i].twitchId] == cs[i]
  {
    if cs == [] {
    } else {
      var n := |cs| - 1;
      assert Ids(cs)[..n] == Ids(cs[..n]);
      StoredRecordsStay(b, cs[..n]);
      forall i | 0 <= i < n
        ensures cs[i].twitchId != cs[n].twitchId
      {
        assert Ids(cs)[i] != Ids(cs)[n];
      }
    }
  }

  lemma {:induction false} SavedRecordsStay(docs: map<string, Channel>, cs: seq<Channel>, id: string)
    requires Distinct(Ids(cs))
    ensures var saved := UpsertAll(docs, cs);
      && (forall i :: 0 <= i < |cs| ==> cs[i].twitchId in saved && saved[cs[i].twitchId] == cs[i])
      && (id !in Ids(cs) ==> (id in saved <==> id in docs) && (id in docs ==> saved[id] == docs[id]))
  {
    if cs == [] {
    } else {
      var n := |cs| - 1;
      assert Ids(cs) == Ids(cs[..n]) + [cs[n].twitchId];
      assert Ids(cs)[..n] == Ids(cs[..n]);
      SavedRecordsStay(docs, cs[..n], id);
      forall i | 0 <= i < n
        ensures cs[i].twitchId != cs[n].twitchId
      {
        assert Ids(cs)[i] != Ids(cs)[n];
      }
    }
  }

  /** After a batch the database holds each record it placed as it is in memory, and every other
      document as it was. */
  lemma BatchIsSaved(b: Book, docs: map<string, Channel>, limit: nat, directory: map<string, string>,
                     requests: seq<Request>, id: string)
    ensures var o := Batch(b, limit, directory, requests);
      var saved := UpsertAll(docs, o.placed);
      if id in Ids(o.placed) then id in saved && id in o.book.index && saved[id] == o.book.index[id]
      else (id in saved <==> id in docs) && (id in docs ==> saved[id] == docs[id])
  {
    var o := Batch(b, limit, directory, requests);
    BatchPlacesEachResolvedIdOnce(b, limit, directory, requests);
    SavedRecordsStay(docs, o.placed, id);
    if id in Ids(o.placed) {
      var i :| 0 <= i < |o.placed| && Ids(o.placed)[i] == id;
      assert o.placed[i].twitchId == id;
    }
  }

  lemma {:induction false} IndexIsUpserted(b: Book, cs: seq<Channel>)
    ensures PutAll(b, cs).index == UpsertAll(b.index, cs)
  {
    if cs == [] {
    } else {
      IndexIsUpserted(b, cs[..|cs| - 1]);
    }
  }

  /** A batch changes no record but those it places: every other channel keeps its own, in the index
      and on its edge. */
  lemma BatchLeavesOthers(b: Book, limit: nat, directory: map<string, string>, requests: seq<Request>, id: string)
    requires Agrees(b) && id !in Ids(Batch(b, limit, directory, requests).placed)
    ensures var after := Batch(b, limit, directory, requests).book;
      && (id in after.index <==> id in b.index)
      && (id in b.index ==>
        var c := b.index[id];
        && after.index[id] == c && c.edgeNode < |after.edges|
        && id in after.edges[c.edgeNode] && after.edges[c.edgeNode][id] == c)
  {
    var o := Batch(b, limit, directory, requests);
    var users, asked := Resolve(directory, FirstIds(requests)), LastRequests(requests);
    BatchIsCovered(directory, requests);
    BatchIds(b, limit, directory, requests);
    PlacedIsWhatWasStored(b, limit, users, asked);
    PlaceAllKeepsInvariants(b, limit, users, asked);
    IndexIsUpserted(b, o.placed);
    SavedRecordsStay(b.index, o.placed, id);
  }

  lemma RequestedIds(requests: seq<Request>, id: string)
    ensures id in FirstIds(requests) <==> exists i :: 0 <= i < |requests| && requests[i].id == id
  {
    FirstIdsAreTheIds(requests);
    if id in FirstIds(requests) {
      var j := LastRequestsAreLast(requests, id);
    }
  }

  lemma BatchIds(b: Book, limit: nat, directory: map<string, string>, requests: seq<Request>)
    ensures var o := Batch(b, limit, directory, requests);
      && Ids(o.placed) == ResolvedIds(directory, FirstIds(requests))
      && Distinct(Ids(o.placed))
  {
    BatchIsCovered(directory, requests);
    FirstIdsAreTheIds(requests);
    PlacedIds(b, limit, directory, FirstIds(requests), LastRequests(requests));
    ResolvedIdsAreDistinct(directory, FirstIds(requests));
  }

  lemma BatchData(b: Book, limit: nat, directory: map<string, string>, requests: seq<Request>, i: nat)
    requires i < |Batch(b, limit, directory, requests).placed|
    requires Ids(Batch(b, limit, directory, requests).placed) == ResolvedIds(directory, FirstIds(requests))
    ensures CarriesLastRequest(directory, requests, Batch(b, limit, directory, requests).placed[i])
  {
    var placed := Batch(b, limit, directory, requests).placed;
    var ids := FirstIds(requests);
    var c := placed[i];
    BatchIsCovered(directory, requests);
    FirstIdsAreTheIds(requests);
    PlacedData(b, limit, directory, ids, LastRequests(requests));
    ResolvedIdsAreDistinct(directory, ids);
    assert c in placed;
    assert c.twitchId == Ids(placed)[i];
    var j := LastRequestsAreLast(requests, c.twitchId);
    assert LastFor(requests, c.twitchId, j);
  }

  /** The records a batch wrote: one for every distinct id that resolves, at the place of its
      first request and with the data of its last one, and it is the record now in the index. */
  lemma BatchPlacesEachResolvedIdOnce(b: Book, limit: nat, directory: map<string, string>, requests: seq<Request>)
    ensures var o := Batch(b, limit, directory, requests);
      && Ids(o.placed) == ResolvedIds(directory, FirstIds(requests))
      && Distinct(Ids(o.placed))
      && (forall id :: id in Ids(o.placed) <==>
        Resolvable(directory, id) && exists i :: 0 <= i < |requests| && requests[i].id == id)
      && (forall i :: 0 <= i < |o.placed| ==>
        && CarriesLastRequest(directory, requests, o.placed[i])
        && o.placed[i].twitchId in o.book.index
        && o.book.index[o.placed[i].twitchId] == o.placed[i])
  {
    var o := Batch(b, limit, directory, requests);
    BatchIds(b, limit, directory, requests);
    forall id
      ensures id in Ids(o.placed) <==>
        Resolvable(directory, id) && exists i :: 0 <= i < |requests| && requests[i].id == id
    {
      FirstIdsAreTheIds(requests);
      ResolvedIdsAreDistinct(directory, FirstIds(requests));
      RequestedIds(requests, id);
    }
    forall i | 0 <= i < |o.placed|
      ensures CarriesLastRequest(directory, requests, o.placed[i])
    {
      BatchData(b, limit, directory, requests, i);
    }
    BatchIsCovered(directory, requests);
    PlacedIsWhatWasStored(b, limit, Resolve(directory, FirstIds(requests)), LastRequests(requests));
    StoredRecordsStay(b, o.placed);
  }

  /** The list published for an edge picks, in order, every record placed on that edge. */
  lemma {:induction false} OnEdgeIsASublist(cs: seq<Channel>, edge: nat) returns (at: seq<nat>)
    ensures |at| == |OnEdge(cs, edge)|
    ensures forall k :: 0 <= k < |at| ==> at[k] < |cs| && cs[at[k]] == OnEdge(cs, edge)[k]
    ensures forall k, l :: 0 <= k < l < |at| ==> at[k] < at[l]
    ensures forall i :: 0 <= i < |cs| ==> (cs[i].edgeNode == edge <==> i in at)
  {
    if cs == [] {
      at := [];
    } else {
      var n := |cs| - 1;
      at := OnEdgeIsASublist(cs[..n], edge);
      if cs[n].edgeNode == edge {
        at := at + [n];
      }
    }
  }

  lemma {:induction false} OnEdgeMembers(cs: seq<Channel>, edge: nat)
    ensures forall c :: c in OnEdge(cs, edge) <==> c in cs && c.edgeNode == edge
  {
    if cs == [] {
    } else {
      OnEdgeMembers(cs[..|cs| - 1], edge);
      assert cs == cs[..|cs| - 1] + [cs[|cs| - 1]];
    }
  }

  /** The ids on an edge's published list. */
  ghost predicate PublishedOn(published: map<nat, seq<Channel>>, e: nat, id: string) {
    e in published && exists c :: c in published[e] && c.twitchId == id
  }

  ghost predicate Requested(requests: seq<Request>, id: string) {
    exists i :: 0 <= i < |requests| && requests[i].id == id
  }

  lemma PublishedIsPlaced(placed: seq<Channel>, published: map<nat, seq<Channel>>, e: nat, id: string)
    requires Publishes(published, placed)
    ensures PublishedOn(published, e, id) <==>
      exists i :: 0 <= i < |placed| && placed[i].twitchId == id && placed[i].edgeNode == e
  {
    OnEdgeMembers(placed, e);
    if PublishedOn(published, e, id) {
      var c :| c in published[e] && c.twitchId == id;
      assert c in placed;
    }
    if i :| 0 <= i < |placed| && placed[i].twitchId == id && placed[i].edgeNode == e {
      assert placed[i] in OnEdge(placed, e);
    }
  }

  /** The published lists split the batch: an id that was requested and resolves is on the list of
      the edge it now has, and of no other; any other id is on no list. */
  lemma PublicationSplitsTheBatch(b: Book, limit: nat, directory: map<string, string>, requests: seq<Request>,
                                  published: map<nat, seq<Channel>>, e: nat, id: string)
    requires Publishes(published, Batch(b, limit, directory, requests).placed)
    ensures var index := Batch(b, limit, directory, requests).book.index;
      PublishedOn(published, e, id) <==>
        Resolvable(directory, id) && Requested(requests, id) && id in index && index[id].edgeNode == e
    ensures Resolvable(directory, id) && Requested(requests, id) ==>
      id in Batch(b, limit, directory, requests).book.index
  {
    var o := Batch(b, limit, directory, requests);
    PublishedIsPlaced(o.placed, published, e, id);
    BatchPlacesEachResolvedIdOnce(b, limit, directory, requests);
    assert forall i :: 0 <= i < |o.placed| ==> o.placed[i].twitchId == Ids(o.placed)[i];
  }

  lemma OneUserBatch(b: Book, limit: nat, u: User, asked: map<string, Request>)
    requires u.id != "" && u.id in asked
    ensures PlaceAll(b, limit, [u], asked)
         == Outcome(Place(b, limit, u, asked[u.id]), [NewRecord(b, limit, u, asked[u.id])])
  {
    assert [u][..0] == [];
    assert PlaceAll(b, limit, [u][..0], asked) == Outcome(b, []);
  }

  /** A batch of one resolvable request writes one record and publishes it to its edge alone. */
  lemma OneRequestBatch(b: Book, limit: nat, directory: map<string, string>, r: Request)
    requires Resolvable(directory, r.id)
    ensures var o := Batch(b, limit, directory, [r]);
      && o.book == Place(b, limit, User(r.id, directory[r.id]), r)
      && Ids(OnEdge(o.placed, EdgeFor(b, limit, r.id))) == [r.id]
      && forall e: nat :: e != EdgeFor(b, limit, r.id) ==> OnEdge(o.placed, e) == []
  {
    var u := User(r.id, directory[r.id]);
    assert [r][..0] == [];
    assert FirstIds([r]) == [r.id];
    assert LastRequests([r]) == map[r.id := r];
    assert Resolve(directory, [r.id]) == [u];
    OneUserBatch(b, limit, u, map[r.id := r]);
    var placed := [NewRecord(b, limit, u, r)];
    assert placed[..0] == [];
  }

  /** A known channel asked for again (as the master does for a channel a slave reports as
      unknown) is published to the edge it already has, and nothing moves. */
  lemma ReallocationRepublishes(b: Book, limit: nat, directory: map<string, string>, r: Request)
    requires Agrees(b) && r.id in b.index && Resolvable(directory, r.id)
    ensures var o := Batch(b, limit, directory, [r]);
      && SamePlacement(b, o.book)
      && Ids(OnEdge(o.placed, b.index[r.id].edgeNode)) == [r.id]
      && forall e: nat :: e != b.index[r.id].edgeNode ==> OnEdge(o.placed, e) == []
  {
    OneRequestBatch(b, limit, directory, r);
    PlaceIsFirstFit(b, limit, User(r.id, directory[r.id]), r);
  }
}
