/**
 The allocator as the source runs it: a cursor over the edges, nested loops, retries against the
 database and the cluster. Each method is proved to compute the functions of `Allocation`.
 */
module AutoScaler {
  import opened Allocation
  import opened MasterRuns
  import opened Publication

  /** How the database answers one bulk write; a failed write may have applied some of its
      operations, in order. */
  datatype WriteAnswer = Written | WriteFailed(applied: nat)

  /** How the cluster answers one rescale attempt; a failed update may have been applied. */
  datatype ClusterAnswer = Served | GetFailed | UpdateFailed(applied: bool)

  /** `Died` stands for the process exit the source takes after too many failures. */
  datatype Exit = Completed | Died

  datatype Replicas = Unset | Count(n: nat)

  /** What the two database calls of a load do. */
  datatype LoadAnswer =
    | Found(order: seq<Channel>)
    | ResetFailed(touched: set<string>)
    | FindFailed

  const MAX_WRITE_RETRIES := 10
  const MAX_RESCALE_RETRIES := 20

  /** Rewriting a saved prefix of a batch, or a longer one, leaves what the longer one leaves. */
  lemma {:induction false} RewritingIsIdempotent(docs: map<string, Channel>, ops: seq<Channel>, j: nat, k: nat)
    requires Distinct(Ids(ops)) && j <= |ops| && k <= |ops|
    ensures UpsertAll(UpsertAll(docs, ops[..j]), ops[..k]) == UpsertAll(docs, ops[..if j < k then k else j])
  {
    var once := UpsertAll(docs, ops[..j]);
    if k == 0 {
    } else {
      RewritingIsIdempotent(docs, ops, j, k - 1);
      UpsertOneMore(once, ops, k);
      if k <= j {
        WrittenStays(docs, ops, j, k - 1);
        assert Upsert(once, ops[k - 1]) == once;
      } else {
        UpsertOneMore(docs, ops, k);
      }
    }
  }

  lemma UpsertOneMore(docs: map<string, Channel>, ops: seq<Channel>, k: nat)
    requires 0 < k <= |ops|
    ensures UpsertAll(docs, ops[..k]) == Upsert(UpsertAll(docs, ops[..k - 1]), ops[k - 1])
  {
    assert ops[..k][..k - 1] == ops[..k - 1];
  }

  /** A prefix of a batch in the database is what a crash in the middle of saving leaves there. */
  lemma SavedByCrash(m: Master, limit: nat, directory: map<string, string>, requests: seq<Request>, k: nat)
    requires k <= |Batch(m.book, limit, directory, requests).placed|
    ensures SavedDocs(m, limit, Crashed(directory, requests, k, []))
         == UpsertAll(m.docs, Batch(m.book, limit, directory, requests).placed[..k])
  {
    var placed := Batch(m.book, limit, directory, requests).placed;
    assert placed[..|placed|] == placed;
  }

  /** What a crash leaves does not depend on the load that follows, and a load does not depend on
      the memory that was lost; so a batch that dies while saving and a load into fresh memory are
      together one `Crashed` event. */
  lemma CrashIsDeathThenLoad(m: Master, limit: nat, directory: map<string, string>, requests: seq<Request>,
                             saved: nat, order: seq<Channel>)
    ensures var docs := SavedDocs(m, limit, Crashed(directory, requests, saved, []));
      Apply(Master(EMPTY, docs), limit, Restarted(order))
      == Apply(m, limit, Crashed(directory, requests, saved, order))
  {
  }

  lemma PlacedIdsAreDistinct(b: Book, limit: nat, directory: map<string, string>, requests: seq<Request>)
    ensures Distinct(Ids(Batch(b, limit, directory, requests).placed))
  {
    BatchIds(b, limit, directory, requests);
  }

  lemma {:induction false} WrittenStays(docs: map<string, Channel>, ops: seq<Channel>, j: nat, i: nat)
    requires Distinct(Ids(ops)) && i < j <= |ops|
    ensures var after := UpsertAll(docs, ops[..j]); ops[i].twitchId in after && after[ops[i].twitchId] == ops[i]
  {
    assert ops[..j][..j - 1] == ops[..j - 1];
    if i < j - 1 {
      WrittenStays(docs, ops, j - 1, i);
      assert Ids(ops)[i] != Ids(ops)[j - 1];
    }
  }

  class ChannelCollection {
    var docs: map<string, Channel>

    constructor ()
      ensures docs == map[]
    {
      docs := map[];
    }

    method BulkWrite(ops: seq<Channel>, answer: WriteAnswer) returns (ok: bool)
      modifies this
      ensures ok == answer.Written?
      ensures exists k :: 0 <= k <= |ops| && (ok ==> k == |ops|) && docs == UpsertAll(old(docs), ops[..k])
    {
      var n := if answer.Written? || answer.applied > |ops| then |ops| else answer.applied;
      var i := 0;
      while i < n
        invariant 0 <= i <= n && docs == UpsertAll(old(docs), ops[..i])
      {
        docs := Upsert(docs, ops[i]);
        i := i + 1;
        assert ops[..i][..i - 1] == ops[..i - 1];
      }
      ok := answer.Written?;
    }

    /** Reset the state of every document; a reset that fails may have reached some of them. */
    method ResetAll(answer: LoadAnswer) returns (ok: bool)
      modifies this
      ensures ok == !answer.ResetFailed?
      ensures docs.Keys == old(docs).Keys
      ensures forall id :: id in docs ==>
        docs[id] == old(docs)[id].(state := Unknown) || (!ok && docs[id] == old(docs)[id])
      ensures ok ==> docs == ResetStates(old(docs))
    {
      ok := !answer.ResetFailed?;
      docs := map id | id in docs ::
        if ok || id in answer.touched then docs[id].(state := Unknown) else docs[id];
    }
  }

  /** Documents that differ at most in their states. */
  predicate SameButStates(a: map<string, Channel>, b: map<string, Channel>) {
    a.Keys == b.Keys && forall id :: id in a ==> a[id].(state := Unknown) == b[id].(state := Unknown)
  }

  class StatefulSet {
    var replicas: Replicas

    constructor ()
      ensures replicas == Unset
    {
      replicas := Unset;
    }
  }

  class AutoScaler {
    const limit: nat
    const clusterEnabled: bool
    const mongo: ChannelCollection
    const cluster: StatefulSet

    var edges: seq<map<string, Channel>>
    var edgeIdx: nat
    var channels: map<string, Channel>

    ghost function Contents(): Book
      reads this
    {
      Book(edges, channels)
    }

    /** The allocator's memory together with the database, as `MasterRuns` sees them. */
    ghost function Memory(): Master
      reads this, mongo
    {
      Master(Contents(), mongo.docs)
    }

    /** All edges left of the cursor are full, and between batches the cursor names an edge as
        soon as there is one. */
    ghost predicate Valid()
      reads this
    {
      && limit >= 1
      && Agrees(Contents())
      && (edgeIdx < |edges| || edgeIdx == |edges| == 0)
      && FullBelow(edges, edgeIdx, limit)
    }

    constructor (limit: nat, clusterEnabled: bool, mongo: ChannelCollection, cluster: StatefulSet)
      requires limit >= 1
      ensures Valid() && Contents() == EMPTY
      ensures this.limit == limit && this.clusterEnabled == clusterEnabled
      ensures this.mongo == mongo && this.cluster == cluster
    {
      this.limit, this.clusterEnabled, this.mongo, this.cluster := limit, clusterEnabled, mongo, cluster;
      edges, edgeIdx, channels := [], 0, map[];
    }

    /** Deduplicate, look up, place, save, rescale, publish. The result does not depend on where
        the cursor was. */
    method Fetch(requests: seq<Request>, directory: map<string, string>,
                 db: nat -> WriteAnswer, k8s: nat -> ClusterAnswer)
      returns (exit: Exit, published: map<nat, seq<Channel>>)
      requires Valid()
      modifies this, mongo, cluster
      ensures Valid()
      ensures var o := Batch(old(Contents()), limit, directory, requests);
        && Contents() == o.book
        && (exit == Completed ==>
          && mongo.docs == UpsertAll(old(mongo.docs), o.placed)
          && Publishes(published, o.placed)
          && cluster.replicas ==
            if clusterEnabled && o.placed != [] then Count(|edges|) else old(cluster.replicas))
        && (exit == Died ==>
          && published == map[]
          && exists k :: 0 <= k <= |o.placed| && mongo.docs == UpsertAll(old(mongo.docs), o.placed[..k]))
      ensures exit == Completed ==> Memory() == Apply(old(Memory()), limit, Allocated(directory, requests))
      ensures exit == Died ==>
        exists saved: nat :: mongo.docs == SavedDocs(old(Memory()), limit, Crashed(directory, requests, saved, []))
      ensures (exists i :: 0 <= i <= MAX_WRITE_RETRIES && db(i).Written?) ==>
              (exists i :: 0 <= i <= MAX_RESCALE_RETRIES && k8s(i).Served?) ==> exit == Completed
    {
      exit, published := Completed, map[];
      ghost var o := Batch(Contents(), limit, directory, requests);

      var asked, filteredIds := Deduplicate(requests);
      BatchIsCovered(directory, requests);
      if |filteredIds| == 0 {
        assert Resolve(directory, filteredIds) == [];
        return;
      }

      var users := Resolve(directory, filteredIds);
      PlacedIdsAreDistinct(Contents(), limit, directory, requests);
      var newChannels, allocations := PlaceUsers(users, asked);
      assert Contents() == o.book && newChannels == o.placed;
      if |newChannels| == 0 {
        return;
      }

      exit := Save(newChannels, db);
      if exit == Died {
        ghost var k :| 0 <= k <= |o.placed| && mongo.docs == UpsertAll(old(mongo.docs), o.placed[..k]);
        SavedByCrash(old(Memory()), limit, directory, requests, k);
        return;
      }
      assert newChannels[..|newChannels|] == newChannels;

      SavedByCrash(old(Memory()), limit, directory, requests, |o.placed|);
      exit := RescaleUnsafe(|edges|, k8s);
      if exit == Completed {
        published := allocations;
      }
    }

    method Deduplicate(requests: seq<Request>) returns (asked: map<string, Request>, filteredIds: seq<string>)
      ensures asked == LastRequests(requests) && filteredIds == FirstIds(requests)
    {
      asked, filteredIds := map[], [];
      var i := 0;
      while i < |requests|
        invariant 0 <= i <= |requests|
        invariant asked == LastRequests(requests[..i]) && filteredIds == FirstIds(requests[..i])
      {
        FirstIdsAreTheIds(requests[..i]);
        var v := requests[i];
        if v.id !in asked {
          filteredIds := filteredIds + [v.id];
        }
        asked := asked[v.id := v];
        i := i + 1;
        assert requests[..i][..i - 1] == requests[..i - 1];
      }
      assert requests[..i] == requests;
    }

    /** The nested placement loop. It terminates for every list of users: each round of the outer
        loop places or skips a user, or adds the one edge the current user needs. */
    method PlaceUsers(users: seq<User>, asked: map<string, Request>)
      returns (newChannels: seq<Channel>, allocations: map<nat, seq<Channel>>)
      requires Valid() && Covered(users, asked)
      modifies this
      ensures Valid()
      ensures var o := PlaceAll(old(Contents()), limit, users, asked);
        Contents() == o.book && newChannels == o.placed && Publishes(allocations, o.placed)
    {
      ghost var start := Contents();
      newChannels, allocations := [], map[];
      var userIdx := 0;
      ghost var b := start;
      ghost var grown := false;
      assert users[..0] == [];
      while userIdx < |users|
        invariant 0 <= userIdx <= |users| && Covered(users[..userIdx], asked)
        invariant Outcome(b, newChannels) == PlaceAll(start, limit, users[..userIdx], asked)
        invariant Mirrors(b, grown)
        invariant if grown then edgeIdx == |edges| - 1 else edgeIdx < |edges| || edgeIdx == |edges| == 0
        invariant grown ==> userIdx < |users| && users[userIdx].id != "" && users[userIdx].id !in channels
        invariant FullBelow(edges, edgeIdx, limit)
        invariant Publishes(allocations, newChannels)
        decreases |users| - userIdx, if grown then 0 else 1
      {
        PlaceAllStep(start, limit, users, asked, userIdx);
        if users[userIdx].id == "" {
          userIdx := userIdx + 1;
          continue;
        }
        KnownEdges(start, limit, users[..userIdx], asked, users[userIdx].id);

        var usr := users[userIdx];
        var done, channel := PlaceFromCursor(usr, asked[usr.id], b, grown);
        if done {
          AppendPublication(allocations, newChannels, channel);
          allocations := AddTo(allocations, channel);
          newChannels := newChannels + [channel];
          userIdx := userIdx + 1;
          b, grown := Contents(), false;
          continue;
        }

        // no edge from the cursor on has room: this user needs a new edge
        if edgeIdx == |edges| {
          AppendKeepsFull(edges, edgeIdx, limit);
          edges := edges + [map[]];
          grown := true;
        }
      }
      assert users[..userIdx] == users;
      PlaceAllKeepsInvariants(start, limit, users, asked);
    }

    /** The fields hold `b`, plus the empty edge that was just added when `grown`. */
    ghost predicate Mirrors(b: Book, grown: bool)
      reads this
    {
      channels == b.index && edges == if grown then b.edges + [map[]] else b.edges
    }

    /** The inner loop: move the cursor right until the user can be stored. `done` is the
        `continue users` of the nested loops. */
    method PlaceFromCursor(usr: User, r: Request, ghost b: Book, ghost grown: bool)
      returns (done: bool, channel: Channel)
      requires limit >= 1 && Mirrors(b, grown) && FullBelow(edges, edgeIdx, limit)
      requires usr.id in channels ==> channels[usr.id].edgeNode < |b.edges| && edgeIdx < |edges|
      requires grown ==> usr.id !in channels && edgeIdx == |edges| - 1
      modifies this`edges, this`edgeIdx, this`channels
      ensures FullBelow(edges, edgeIdx, limit)
      ensures done ==> Contents() == Place(b, limit, usr, r) && channel == NewRecord(b, limit, usr, r)
      ensures done ==> edgeIdx < |edges|
      ensures !done ==> Mirrors(b, grown) && edgeIdx == |edges| && !grown && usr.id !in channels
    {
      channel := Stamp(usr, r, 0);
      while edgeIdx < |edges|
        invariant Mirrors(b, grown) && FullBelow(edges, edgeIdx, limit)
        invariant usr.id in channels || grown ==> edgeIdx == old(edgeIdx)
        decreases |edges| - edgeIdx
      {
        var preset := false;
        var presetEdgeIdx := edgeIdx;
        if usr.id in channels {
          presetEdgeIdx := channels[usr.id].edgeNode;
          preset := true;
        }

        if |edges[presetEdgeIdx]| < limit || preset {
          channel := Channel(usr.id, usr.login, r.priority, presetEdgeIdx, Unknown, r.useAnonymous, false);
          StepIsPlace(b, edges, edgeIdx, limit, grown, usr, r, channel);
          edges := edges[presetEdgeIdx := edges[presetEdgeIdx][usr.id := channel]];
          channels := channels[usr.id := channel];
          return true, channel;
        }

        if presetEdgeIdx == edgeIdx {
          edgeIdx := edgeIdx + 1;
        }
      }
      done := false;
    }

    /** Up to eleven attempts; whatever happens, the database holds a prefix of the batch. */
    method Save(ops: seq<Channel>, db: nat -> WriteAnswer) returns (exit: Exit)
      requires Distinct(Ids(ops))
      modifies mongo
      ensures exit == Completed <==> exists i :: 0 <= i <= MAX_WRITE_RETRIES && db(i).Written?
      ensures exists k :: 0 <= k <= |ops| && (exit == Completed ==> k == |ops|)
                       && mongo.docs == UpsertAll(old(mongo.docs), ops[..k])
    {
      var attempts := 0;
      ghost var saved := 0;
      assert UpsertAll(mongo.docs, ops[..0]) == mongo.docs;
      while true
        invariant 0 <= attempts <= MAX_WRITE_RETRIES + 1 && 0 <= saved <= |ops|
        invariant mongo.docs == UpsertAll(old(mongo.docs), ops[..saved])
        invariant forall i :: 0 <= i < attempts ==> !db(i).Written?
        decreases MAX_WRITE_RETRIES + 1 - attempts
      {
        if attempts > MAX_WRITE_RETRIES {
          return Died;
        }
        var ok := mongo.BulkWrite(ops, db(attempts));
        ghost var k :| 0 <= k <= |ops| && (ok ==> k == |ops|)
          && mongo.docs == UpsertAll(UpsertAll(old(mongo.docs), ops[..saved]), ops[..k]);
        RewritingIsIdempotent(old(mongo.docs), ops, saved, k);
        saved := if saved < k then k else saved;
        if !ok {
          attempts := attempts + 1;
          continue;
        }
        return Completed;
      }
    }

    /** Bring the replica count to `size`. */
    method RescaleUnsafe(size: nat, k8s: nat -> ClusterAnswer) returns (exit: Exit)
      modifies cluster
      ensures clusterEnabled && exit == Completed ==> cluster.replicas == Count(size)
      ensures !clusterEnabled ==> exit == Completed && cluster.replicas == old(cluster.replicas)
      ensures cluster.replicas == old(cluster.replicas) || cluster.replicas == Count(size)
      ensures (exists i :: 0 <= i <= MAX_RESCALE_RETRIES && k8s(i).Served?) ==> exit == Completed
    {
      if !clusterEnabled {
        return Completed;
      }
      var attempts := 0;
      while true
        invariant 0 <= attempts <= MAX_RESCALE_RETRIES + 1
        invariant cluster.replicas == old(cluster.replicas) || cluster.replicas == Count(size)
        invariant forall i :: 0 <= i < attempts ==> !k8s(i).Served?
        decreases MAX_RESCALE_RETRIES + 1 - attempts
      {
        if attempts > MAX_RESCALE_RETRIES {
          return Died;
        }
        var answer := k8s(attempts);
        if answer.GetFailed? {
          attempts := attempts + 1;
          continue;
        }
        if cluster.replicas != Count(size) {
          if answer.UpdateFailed? {
            if answer.applied {
              cluster.replicas := Count(size);
            }
            attempts := attempts + 1;
            continue;
          }
          cluster.replicas := Count(size);
        }
        return Completed;
      }
    }

    /** Rebuild the edges and the index from the documents; every edge is published whole. A failed
        load changes nothing in memory. */
    method Load(answer: LoadAnswer, k8s: nat -> ClusterAnswer)
      returns (loaded: bool, exit: Exit, published: map<nat, seq<Channel>>)
      requires Valid()
      requires answer.Found? ==>
        && Enumerates(answer.order, ResetStates(mongo.docs))
        && forall id :: id in channels && id in mongo.docs ==> channels[id].edgeNode == mongo.docs[id].edgeNode
      modifies this, mongo, cluster
      ensures Valid()
      ensures loaded == answer.Found?
      ensures loaded ==>
        && Contents() == PutAll(old(Contents()), answer.order)
        && mongo.docs == ResetStates(old(mongo.docs))
        && (exit == Completed ==>
          && (forall e: nat :: e in published <==> e < |edges|)
          && (forall e: nat :: e in published ==> Lists(published[e], edges[e]))
          && (clusterEnabled ==> cluster.replicas == Count(|edges|)))
      ensures loaded ==>
        && mongo.docs.Keys == old(mongo.docs).Keys
        && forall id :: id in mongo.docs ==> mongo.docs[id] == old(mongo.docs)[id].(state := Unknown)
      ensures loaded && old(Contents()) == EMPTY ==> channels == mongo.docs
      ensures loaded && old(Contents()) == EMPTY ==>
        Memory() == Apply(Master(EMPTY, old(mongo.docs)), limit, Restarted(answer.order))
      ensures !loaded ==>
        && Contents() == old(Contents()) && published == map[]
        && SameButStates(mongo.docs, old(mongo.docs))
        && cluster.replicas == old(cluster.replicas)
    {
      loaded, exit, published := false, Completed, map[];
      if answer.Found? {
        EnumeratedFits(channels, answer.order, mongo.docs);
        FreshLoad(mongo.docs, limit, answer.order);
      }
      var reset := mongo.ResetAll(answer);
      if !reset || answer.FindFailed? {
        return;
      }
      loaded := true;

      exit, published := Refill(answer.order, k8s);
    }

    /** Rebuild the edges from the documents, rescale to them, then publish every edge whole. */
    method Refill(order: seq<Channel>, k8s: nat -> ClusterAnswer)
      returns (exit: Exit, published: map<nat, seq<Channel>>)
      requires Valid() && FitsFrom(channels, order, 0)
      modifies this, cluster
      ensures Valid() && Contents() == PutAll(old(Contents()), order)
      ensures exit == Completed ==>
        && (forall e: nat :: e in published <==> e < |edges|)
        && (forall e: nat :: e in published ==> Lists(published[e], edges[e]))
        && (clusterEnabled ==> cluster.replicas == Count(|edges|))
    {
      published := map[];
      Rebuild(order);
      exit := RescaleUnsafe(|edges|, k8s);
      if exit == Completed {
        published := ListAllEdges();
      }
    }

    /** Store every document under its edge, growing the list of edges where needed. */
    method Rebuild(order: seq<Channel>)
      requires Valid() && FitsFrom(channels, order, 0)
      modifies this
      ensures Valid()
      ensures Contents() == PutAll(old(Contents()), order)
    {
      ghost var start := Contents();
      var i := 0;
      while i < |order|
        invariant 0 <= i <= |order| && Valid() && FitsFrom(channels, order, i)
        invariant Contents() == PutAll(start, order[..i])
      {
        PutOneMore(start, order, i);
        StoreDocument(order[i]);
        i := i + 1;
      }
      assert order[..i] == order;
    }

    method StoreDocument(v: Channel)
      requires Valid()
      requires v.twitchId in channels ==> channels[v.twitchId].edgeNode == v.edgeNode
      modifies this
      ensures Valid()
      ensures Contents() == Put(old(Contents()), v)
    {
      StoringKeepsFull(Contents(), v, edgeIdx, limit);
      ghost var after := Put(Contents(), v);
      channels := channels[v.twitchId := v];
      if |edges| < v.edgeNode + 1 {
        edges := edges + seq(v.edgeNode + 1 - |edges|, _ => map[]);
      }
      assert edges == Grow(old(edges), v.edgeNode + 1);
      edges := edges[v.edgeNode := edges[v.edgeNode][v.twitchId := v]];
      assert Contents() == after;
    }

    method ListAllEdges() returns (published: map<nat, seq<Channel>>)
      requires Valid()
      ensures forall e: nat :: e in published <==> e < |edges|
      ensures forall e: nat :: e in published ==> Lists(published[e], edges[e])
    {
      published := map[];
      var idx := 0;
      while idx < |edges|
        invariant 0 <= idx <= |edges|
        invariant forall e: nat :: e in published <==> e < idx
        invariant forall e: nat :: e in published ==> Lists(published[e], edges[e])
      {
        var listed := Destructure(edges[idx], idx);
        published := published[idx := listed];
        idx := idx + 1;
      }
    }

    /** The values of one edge's map, in the order the runtime happens to range over it. */
    method Destructure(m: map<string, Channel>, ghost e: nat) returns (listed: seq<Channel>)
      requires Valid() && e < |edges| && edges[e] == m
      ensures Lists(listed, m)
    {
      listed := [];
      var left := m.Keys;
      while left != {}
        invariant left <= m.Keys && |listed| + |left| == |m|
        invariant Distinct(Ids(listed))
        invariant forall c :: c in listed ==> c.twitchId in m && m[c.twitchId] == c && c.twitchId !in left
        decreases left
      {
        var id :| id in left;
        assert id in edges[e] && edges[e][id] == channels[id];
        forall k | 0 <= k < |listed|
          ensures listed[k].twitchId != id
        {
          assert listed[k] in listed;
        }
        listed := listed + [m[id]];
        left := left - {id};
      }
    }

    /** The snapshot a slave session takes: nothing for an edge that does not exist. */
    method GetChannelsForSlave(idx: nat) returns (listed: seq<Channel>)
      requires Valid()
      ensures |edges| <= idx ==> listed == []
      ensures idx < |edges| ==> Lists(listed, edges[idx])
    {
      if |edges| <= idx {
        return [];
      }
      listed := Destructure(edges[idx], idx);
    }
  }

  // ---------------------------------------------------------------- loop steps

  ghost predicate FullBelow(edges: seq<map<string, Channel>>, n: nat, limit: nat) {
    n <= |edges| && forall i :: 0 <= i < n ==> |edges[i]| >= limit
  }

  /** The documents from `i` on name different ids, and known ids with the edge they have. */
  ghost predicate FitsFrom(index: map<string, Channel>, order: seq<Channel>, i: nat) {
    && (forall j, k :: i <= j < k < |order| ==> order[j].twitchId != order[k].twitchId)
    && (forall k :: i <= k < |order| && order[k].twitchId in index ==>
      index[order[k].twitchId].edgeNode == order[k].edgeNode)
  }

  lemma FreshLoad(docs: map<string, Channel>, limit: nat, order: seq<Channel>)
    requires Enumerates(order, ResetStates(docs))
    ensures PutAll(EMPTY, order).index == ResetStates(docs)
    ensures Apply(Master(EMPTY, docs), limit, Restarted(order)) == Master(PutAll(EMPTY, order), ResetStates(docs))
  {
    LoadedIndexIsDocs(order, ResetStates(docs));
  }

  lemma EnumeratedFits(index: map<string, Channel>, order: seq<Channel>, docs: map<string, Channel>)
    requires Enumerates(order, ResetStates(docs))
    requires forall id :: id in index && id in docs ==> index[id].edgeNode == docs[id].edgeNode
    ensures FitsFrom(index, order, 0)
  {
  }

  lemma PutOneMore(start: Book, order: seq<Channel>, i: nat)
    requires i < |order|
    ensures PutAll(start, order[..i + 1]) == Put(PutAll(start, order[..i]), order[i])
  {
    assert order[..i + 1][..i] == order[..i];
  }

  lemma AppendKeepsFull(edges: seq<map<string, Channel>>, n: nat, limit: nat)
    requires FullBelow(edges, n, limit)
    ensures FullBelow(edges + [map[]], n, limit)
  {
  }

  lemma PlaceAllStep(start: Book, limit: nat, users: seq<User>, asked: map<string, Request>, i: nat)
    requires Covered(users, asked) && i < |users|
    ensures Covered(users[..i], asked) && Covered(users[..i + 1], asked)
    ensures var before := PlaceAll(start, limit, users[..i], asked);
      PlaceAll(start, limit, users[..i + 1], asked) ==
        if users[i].id == "" then before
        else
          var r := asked[users[i].id];
          Outcome(Place(before.book, limit, users[i], r),
                  before.placed + [NewRecord(before.book, limit, users[i], r)])
  {
    assert users[..i + 1][..i] == users[..i];
  }

  lemma KnownEdges(start: Book, limit: nat, users: seq<User>, asked: map<string, Request>, id: string)
    requires Agrees(start) && Covered(users, asked)
    ensures var b := PlaceAll(start, limit, users, asked).book;
            id in b.index ==> b.index[id].edgeNode < |b.edges|
  {
    PlaceAllKeepsInvariants(start, limit, users, asked);
  }

  /** Storing through the cursor is storing at the first edge with room. */
  lemma StepIsPlace(b: Book, edges: seq<map<string, Channel>>, cursor: nat, limit: nat, grown: bool,
                    u: User, r: Request, c: Channel)
    requires edges == if grown then b.edges + [map[]] else b.edges
    requires cursor < |edges| && FullBelow(edges, cursor, limit)
    requires grown ==> u.id !in b.index && cursor == |edges| - 1
    requires u.id in b.index ==> b.index[u.id].edgeNode < |b.edges|
    requires u.id !in b.index ==> |edges[cursor]| < limit
    requires c == Stamp(u, r, if u.id in b.index then b.index[u.id].edgeNode else cursor)
    ensures c == NewRecord(b, limit, u, r)
    ensures var after := edges[c.edgeNode := edges[c.edgeNode][u.id := c]];
      && Place(b, limit, u, r) == Book(after, b.index[u.id := c])
      && FullBelow(after, cursor, limit)
  {
    if u.id !in b.index {
      CursorIsFirstFit(b.edges, edges, cursor, limit);
    }
    var grownEdges := Grow(b.edges, c.edgeNode + 1);
    assert |grownEdges| == |edges| && forall i :: 0 <= i < |edges| ==> grownEdges[i] == edges[i];
    assert grownEdges == edges;
    InsertGrows(edges[c.edgeNode], u.id, c);
  }

  lemma CursorIsFirstFit(old': seq<map<string, Channel>>, edges: seq<map<string, Channel>>, cursor: nat, limit: nat)
    requires edges == old' || (edges == old' + [map[]] && cursor == |old'|)
    requires cursor < |edges| && FullBelow(edges, cursor, limit) && |edges[cursor]| < limit
    ensures FirstFit(old', limit) == cursor
  {
    var e := FirstFit(old', limit);
    assert cursor < |old'| ==> |old'[cursor]| < limit;
    assert e < |old'| ==> |old'[e]| == |edges[e]| < limit;
  }

  lemma InsertGrows(m: map<string, Channel>, id: string, c: Channel)
    ensures |m| <= |m[id := c]|
  {
    assert m.Keys <= m[id := c].Keys;
    SubsetSize(m.Keys, m[id := c].Keys);
    assert |m| == |m.Keys| && |m[id := c]| == |m[id := c].Keys|;
  }

  lemma PutOnlyGrows(b: Book, c: Channel)
    ensures |b.edges| <= |Put(b, c).edges|
    ensures forall e :: 0 <= e < |b.edges| ==> |b.edges[e]| <= |Put(b, c).edges[e]|
  {
    if c.edgeNode < |b.edges| {
      InsertGrows(b.edges[c.edgeNode], c.twitchId, c);
    }
  }

  /** Storing a record, in an existing edge or a new one, keeps index and edges in agreement and the
      edges below the cursor full. */
  lemma StoringKeepsFull(b: Book, c: Channel, cursor: nat, limit: nat)
    requires Agrees(b) && FullBelow(b.edges, cursor, limit)
    requires c.twitchId in b.index ==> b.index[c.twitchId].edgeNode == c.edgeNode
    ensures Agrees(Put(b, c)) && FullBelow(Put(b, c).edges, cursor, limit)
    ensures |b.edges| <= |Put(b, c).edges| && Put(b, c).edges != []
  {
    PutKeepsAgreement(b, c);
    PutOnlyGrows(b, c);
  }

  lemma SubsetSize(a: set<string>, b: set<string>)
    requires a <= b
    ensures |a| <= |b|
  {
    assert b == a + (b - a);
  }

  function AddTo(allocations: map<nat, seq<Channel>>, c: Channel): map<nat, seq<Channel>> {
    allocations[c.edgeNode := (if c.edgeNode in allocations then allocations[c.edgeNode] else []) + [c]]
  }

  lemma AppendPublication(allocations: map<nat, seq<Channel>>, placed: seq<Channel>, c: Channel)
    requires Publishes(allocations, placed)
    ensures Publishes(AddTo(allocations, c), placed + [c])
  {
    assert (placed + [c])[..|placed|] == placed;
  }
}
