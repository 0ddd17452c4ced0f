/**
 The master's placement of channels into edges (one edge per slave), stated without the
 allocator's cursor and without its loops. `AutoScaler` is the imperative allocator that is
 proved to compute these functions; the properties of the placement are proved here.
 */
module Allocation {

  /** What a caller asks for: the fields of the protobuf channel that the allocator reads. */
  datatype Request = Request(id: string, priority: int, useAnonymous: bool)

  /** One position of the answer of the user lookup; an unresolved position has an empty id. */
  datatype User = User(id: string, login: string)

  datatype ChannelState = Suspended | Joined | Unknown

  /** The record kept in memory and in the database. */
  datatype Channel = Channel(
    twitchId: string,
    twitchLogin: string,
    priority: int,
    edgeNode: nat,
    state: ChannelState,
    useAnonymous: bool,
    botBanned: bool)

  /** The allocator's two views of the placement: by edge, and by channel id. */
  datatype Book = Book(edges: seq<map<string, Channel>>, index: map<string, Channel>)

  const EMPTY := Book([], map[])

  /** A batch: the book it leaves and the records it wrote, in order. */
  datatype Outcome = Outcome(book: Book, placed: seq<Channel>)

  // ---------------------------------------------------------------- definitions

  /** The least-numbered edge with room, or the number of edges when none has room. */
  function FirstFit(edges: seq<map<string, Channel>>, limit: nat): (e: nat)
    ensures e <= |edges|
    ensures forall i :: 0 <= i < e ==> |edges[i]| >= limit
    ensures e < |edges| ==> |edges[e]| < limit
  {
    if edges == [] then 0
    else if |edges[0]| < limit then 0
    else 1 + FirstFit(edges[1..], limit)
  }

  function Grow(edges: seq<map<string, Channel>>, n: nat): (r: seq<map<string, Channel>>)
    ensures |r| == if |edges| < n then n else |edges|
    ensures forall i :: 0 <= i < |r| ==> r[i] == if i < |edges| then edges[i] else map[]
  {
    if |edges| < n then edges + seq(n - |edges|, _ => map[]) else edges
  }

  /** Store a record under its own edge, creating the edge when it does not exist yet. */
  function Put(b: Book, c: Channel): Book {
    var edges := Grow(b.edges, c.edgeNode + 1);
    Book(edges[c.edgeNode := edges[c.edgeNode][c.twitchId := c]], b.index[c.twitchId := c])
  }

  function PutAll(b: Book, cs: seq<Channel>): Book {
    if cs == [] then b else Put(PutAll(b, cs[..|cs| - 1]), cs[|cs| - 1])
  }

  /** A known channel stays where it is; a new one goes to the first edge with room. */
  function EdgeFor(b: Book, limit: nat, id: string): nat {
    if id in b.index then b.index[id].edgeNode else FirstFit(b.edges, limit)
  }

  function Stamp(u: User, r: Request, edge: nat): Channel {
    Channel(u.id, u.login, r.priority, edge, Unknown, r.useAnonymous, false)
  }

  function NewRecord(b: Book, limit: nat, u: User, r: Request): Channel {
    Stamp(u, r, EdgeFor(b, limit, u.id))
  }

  function Place(b: Book, limit: nat, u: User, r: Request): Book {
    Put(b, NewRecord(b, limit, u, r))
  }

  ghost predicate Covered(users: seq<User>, asked: map<string, Request>) {
    forall i :: 0 <= i < |users| && users[i].id != "" ==> users[i].id in asked
  }

  /** The placement loop over the answer of the user lookup. */
  function PlaceAll(b: Book, limit: nat, users: seq<User>, asked: map<string, Request>): Outcome
    requires Covered(users, asked)
  {
    if users == [] then Outcome(b, [])
    else
      var before := PlaceAll(b, limit, users[..|users| - 1], asked);
      var u := users[|users| - 1];
      if u.id == "" then before
      else
        Outcome(Place(before.book, limit, u, asked[u.id]),
                before.placed + [NewRecord(before.book, limit, u, asked[u.id])])
  }

  /** The ids of a batch, each at its first occurrence. */
  function FirstIds(requests: seq<Request>): seq<string> {
    if requests == [] then []
    else
      var before := FirstIds(requests[..|requests| - 1]);
      var id := requests[|requests| - 1].id;
      if id in before then before else before + [id]
  }

  /** For each id of a batch, the last request that names it. */
  function LastRequests(requests: seq<Request>): map<string, Request> {
    if requests == [] then map[]
    else
      var r := requests[|requests| - 1];
      LastRequests(requests[..|requests| - 1])[r.id := r]
  }

  /** The position-aligned user lookup; `directory` is what the Twitch API knows. */
  function Resolve(directory: map<string, string>, ids: seq<string>): (users: seq<User>)
    ensures |users| == |ids|
    ensures forall i :: 0 <= i < |ids| ==>
      users[i] == if ids[i] in directory then User(ids[i], directory[ids[i]]) else User("", "")
  {
    seq(|ids|, i requires 0 <= i < |ids| =>
      if ids[i] in directory then User(ids[i], directory[ids[i]]) else User("", ""))
  }

  predicate Resolvable(directory: map<string, string>, id: string) {
    id != "" && id in directory
  }

  /** One call of the batch function: deduplicate, look up, place. */
  function Batch(b: Book, limit: nat, directory: map<string, string>, requests: seq<Request>): Outcome {
    BatchIsCovered(directory, requests);
    PlaceAll(b, limit, Resolve(directory, FirstIds(requests)), LastRequests(requests))
  }

  function Upsert(docs: map<string, Channel>, c: Channel): map<string, Channel> {
    docs[c.twitchId := c]
  }

  function UpsertAll(docs: map<string, Channel>, cs: seq<Channel>): map<string, Channel> {
    if cs == [] then docs else Upsert(UpsertAll(docs, cs[..|cs| - 1]), cs[|cs| - 1])
  }

  /** The records of a batch that belong to one edge, in the order they were placed. */
  function OnEdge(cs: seq<Channel>, edge: nat): seq<Channel> {
    if cs == [] then []
    else
      var before := OnEdge(cs[..|cs| - 1], edge);
      var c := cs[|cs| - 1];
      if c.edgeNode == edge then before + [c] else before
  }

  // ---------------------------------------------------------------- invariants

  /** The index and the edges are two views of one placement. */
  ghost predicate Agrees(b: Book) {
    && (forall id :: id in b.index ==>
      && b.index[id].twitchId == id
      && b.index[id].edgeNode < |b.edges|
      && id in b.edges[b.index[id].edgeNode]
      && b.edges[b.index[id].edgeNode][id] == b.index[id])
    && (forall e, id :: 0 <= e < |b.edges| && id in b.edges[e] ==>
      id in b.index && b.index[id].edgeNode == e)
  }

  ghost predicate LastEdgeUsed(b: Book) {
    b.edges != [] ==> b.edges[|b.edges| - 1] != map[]
  }

  /** Same number of edges and the same ids on each of them. */
  ghost predicate SamePlacement(a: Book, b: Book) {
    && |a.edges| == |b.edges|
    && forall e :: 0 <= e < |a.edges| ==> a.edges[e].Keys == b.edges[e].Keys
  }

  ghost predicate Distinct<T>(s: seq<T>) {
    forall i, j :: 0 <= i < j < |s| ==> s[i] != s[j]
  }

  // ---------------------------------------------------------------- deduplication

  lemma {:induction false} FirstIdsAreTheIds(requests: seq<Request>)
    ensures Distinct(FirstIds(requests))
    ensures forall i :: 0 <= i < |requests| ==> requests[i].id in FirstIds(requests)
    ensures forall id :: id in FirstIds(requests) <==> id in LastRequests(requests)
  {
    if requests == [] {
    } else {
      var n := |requests| - 1;
      var before := FirstIds(requests[..n]);
      FirstIdsAreTheIds(requests[..n]);
      forall i | 0 <= i < |requests|
        ensures requests[i].id in FirstIds(requests)
      {
        if i < n {
          assert requests[..n][i].id in before;
        }
      }
    }
  }

  /** The position of the last request for an id. */
  lemma {:induction false} LastRequestsAreLast(requests: seq<Request>, id: string) returns (j: nat)
    requires id in LastRequests(requests)
    ensures j < |requests| && requests[j].id == id && LastRequests(requests)[id] == requests[j]
    ensures forall k :: j < k < |requests| ==> requests[k].id != id
  {
    var n := |requests| - 1;
    if requests[n].id == id {
      j := n;
    } else {
      j := LastRequestsAreLast(requests[..n], id);
    }
  }

  lemma BatchIsCovered(directory: map<string, string>, requests: seq<Request>)
    ensures Covered(Resolve(directory, FirstIds(requests)), LastRequests(requests))
  {
    FirstIdsAreTheIds(requests);
    var ids := FirstIds(requests);
    var users := Resolve(directory, ids);
    forall i | 0 <= i < |users| && users[i].id != ""
      ensures users[i].id in LastRequests(requests)
    {
      assert ids[i] in ids;
    }
  }

  // ---------------------------------------------------------------- one placement

  lemma PutKeepsAgreement(b: Book, c: Channel)
    requires Agrees(b)
    requires c.twitchId in b.index ==> b.index[c.twitchId].edgeNode == c.edgeNode
    ensures Agrees(Put(b, c))
  {
  }

  /** A known channel moves nowhere, adds no edge and grows no edge; a new channel goes to the
      least-numbered edge with room, or to a fresh edge when there is none. */
  lemma PlaceIsFirstFit(b: Book, limit: nat, u: User, r: Request)
    requires Agrees(b)
    ensures Agrees(Place(b, limit, u, r))
    ensures u.id in b.index ==> SamePlacement(b, Place(b, limit, u, r))
    ensures u.id !in b.index ==>
      var after := Place(b, limit, u, r);
      var e := after.index[u.id].edgeNode;
      && |after.edges| == (if e == |b.edges| then |b.edges| + 1 else |b.edges|)
      && e <= |b.edges|
      && (forall i :: 0 <= i < e ==> |b.edges[i]| >= limit)
      && (e < |b.edges| ==> |b.edges[e]| < limit && after.edges[e].Keys == b.edges[e].Keys + {u.id})
      && (e == |b.edges| ==> after.edges[e].Keys == {u.id})
      && (forall i :: 0 <= i < |b.edges| && i != e ==> after.edges[i] == b.edges[i])
  {
    PutKeepsAgreement(b, NewRecord(b, limit, u, r));
  }

  lemma PlaceKeepsLastEdgeUsed(b: Book, limit: nat, u: User, r: Request)
    requires Agrees(b) && LastEdgeUsed(b)
    ensures LastEdgeUsed(Place(b, limit, u, r))
  {
    var c := NewRecord(b, limit, u, r);
    var after := Place(b, limit, u, r);
    assert c.edgeNode <= |b.edges|;
    assert after.edges != [];
    var last := |after.edges| - 1;
    if c.edgeNode == last {
      assert u.id in after.edges[last];
    } else {
      assert after.edges[last] == b.edges[last];
    }
  }

  lemma SameSizesSameFit(a: seq<map<string, Channel>>, b: seq<map<string, Channel>>, limit: nat)
    requires |a| == |b| && forall e :: 0 <= e < |a| ==> |a[e]| == |b[e]|
    ensures FirstFit(a, limit) == FirstFit(b, limit)
  {
  }

  lemma SamePlacementSameIndex(a: Book, b: Book, id: string)
    requires Agrees(a) && Agrees(b) && SamePlacement(a, b)
    ensures id in a.index <==> id in b.index
    ensures id in a.index ==> a.index[id].edgeNode == b.index[id].edgeNode
  {
    if id in a.index {
      assert id in a.edges[a.index[id].edgeNode].Keys;
    }
    if id in b.index {
      assert id in b.edges[b.index[id].edgeNode].Keys;
    }
  }

  lemma SamePlacementSameEdge(a: Book, b: Book, limit: nat, id: string)
    requires Agrees(a) && Agrees(b) && SamePlacement(a, b)
    ensures EdgeFor(a, limit, id) == EdgeFor(b, limit, id)
  {
    SamePlacementSameIndex(a, b, id);
    forall e | 0 <= e < |a.edges|
      ensures |a.edges[e]| == |b.edges[e]|
    {
      assert |a.edges[e]| == |a.edges[e].Keys| && |b.edges[e]| == |b.edges[e].Keys|;
    }
    SameSizesSameFit(a.edges, b.edges, limit);
  }

  lemma PutKeepsSamePlacement(a: Book, b: Book, ca: Channel, cb: Channel)
    requires SamePlacement(a, b) && ca.twitchId == cb.twitchId && ca.edgeNode == cb.edgeNode
    ensures SamePlacement(Put(a, ca), Put(b, cb))
  {
  }

  // ---------------------------------------------------------------- a whole batch

  lemma {:induction false} PlaceAllKeepsInvariants(b: Book, limit: nat, users: seq<User>, asked: map<string, Request>)
    requires Covered(users, asked) && Agrees(b)
    ensures Agrees(PlaceAll(b, limit, users, asked).book)
    ensures LastEdgeUsed(b) ==> LastEdgeUsed(PlaceAll(b, limit, users, asked).book)
  {
    if users == [] {
    } else {
      var n := |users| - 1;
      PlaceAllKeepsInvariants(b, limit, users[..n], asked);
      var before := PlaceAll(b, limit, users[..n], asked).book;
      if users[n].id != "" {
        PlaceIsFirstFit(before, limit, users[n], asked[users[n].id]);
        if LastEdgeUsed(b) {
          PlaceKeepsLastEdgeUsed(before, limit, users[n], asked[users[n].id]);
        }
      }
    }
  }

  /** The book after a batch is the old book with the batch's records stored in order. */
  lemma {:induction false} PlacedIsWhatWasStored(b: Book, limit: nat, users: seq<User>, asked: map<string, Request>)
    requires Covered(users, asked)
    ensures var o := PlaceAll(b, limit, users, asked); o.book == PutAll(b, o.placed)
  {
    if users == [] {
    } else {
      var n := |users| - 1;
      PlacedIsWhatWasStored(b, limit, users[..n], asked);
      var before := PlaceAll(b, limit, users[..n], asked);
      if users[n].id != "" {
        var o := PlaceAll(b, limit, users, asked);
        assert o.placed[..|o.placed| - 1] == before.placed;
      }
    }
  }
}
