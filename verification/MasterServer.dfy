/** The master's side of a slave connection: the session loop and the reports a slave sends back. */
module MasterServer {
  import opened Allocation
  import opened Publication
  import opened MasterRuns
  import opened Delivery
  import opened AutoScaler

  class Server {
    const autoScaler: AutoScaler

    constructor (autoScaler: AutoScaler)
      ensures this.autoScaler == autoScaler
    {
      this.autoScaler := autoScaler;
    }

    /** Record what a slave reports. `recorded` is false when the database refused the update, which
        is only logged. A channel the slave does not know is allocated again, in a batch that may
        hold other requests before and after it. */
    method PublishSlaveChannelEvent(channel: Request, report: Report, recorded: bool,
                                    before: seq<Request>, after: seq<Request>,
                                    directory: map<string, string>, db: nat -> WriteAnswer, k8s: nat -> ClusterAnswer)
      returns (exit: Exit, published: map<nat, seq<Channel>>)
      requires autoScaler.Valid()
      modifies autoScaler, autoScaler.mongo, autoScaler.cluster
      ensures autoScaler.Valid()
      ensures var m := old(autoScaler.Memory());
        var reported := if recorded then Apply(m, autoScaler.limit, Reported(channel.id, report)) else m;
        var batch := before + [channel] + after;
        && (report != UnknownChannel ==>
          exit == Completed && published == map[] && autoScaler.Memory() == reported)
        && (report == UnknownChannel && exit == Completed ==>
          && autoScaler.Memory() == Apply(reported, autoScaler.limit, Allocated(directory, batch))
          && Publishes(published, Batch(m.book, autoScaler.limit, directory, batch).placed))
        && (report == UnknownChannel && exit == Died ==>
          && published == map[]
          && exists saved: nat :: autoScaler.mongo.docs ==
               SavedDocs(reported, autoScaler.limit, Crashed(directory, batch, saved, [])))
    {
      exit, published := Completed, map[];
      var docs := autoScaler.mongo.docs;
      var found := recorded && channel.id in docs;
      match report
      case BotBanned =>
        if found {
          autoScaler.mongo.docs := docs[channel.id := docs[channel.id].(botBanned := true)];
        }
      case SuspendedChannel =>
        if found {
          autoScaler.mongo.docs := docs[channel.id := docs[channel.id].(state := ChannelState.Suspended)];
        }
      case JoinedChannel(banned) =>
        if found {
          autoScaler.mongo.docs :=
            docs[channel.id := docs[channel.id].(state := ChannelState.Joined, botBanned := banned)];
        }
      case UnknownChannel =>
        if found {
          autoScaler.mongo.docs := docs[channel.id := docs[channel.id].(state := ChannelState.Unknown)];
        }
        exit, published := autoScaler.Fetch(before + [channel] + after, directory, db, k8s);
    }
  }

  /** However the loader groups it with other requests, a known channel that is allocated again is
      published on the edge it already has, on no other, and stays there. */
  lemma KnownIsRepublished(b: Book, limit: nat, directory: map<string, string>, before: seq<Request>,
                           channel: Request, after: seq<Request>, published: map<nat, seq<Channel>>, e: nat)
    requires Agrees(b) && channel.id in b.index && Resolvable(directory, channel.id)
    requires Publishes(published, Batch(b, limit, directory, before + [channel] + after).placed)
    ensures var index := Batch(b, limit, directory, before + [channel] + after).book.index;
      && channel.id in index && index[channel.id].edgeNode == b.index[channel.id].edgeNode
      && (PublishedOn(published, e, channel.id) <==> e == b.index[channel.id].edgeNode)
  {
    var requests := before + [channel] + after;
    assert requests[|before|] == channel;
    BatchIsCovered(directory, requests);
    StoringNeverMoves(b, limit, Resolve(directory, FirstIds(requests)), LastRequests(requests), channel.id);
    PublicationSplitsTheBatch(b, limit, directory, requests, published, e, channel.id);
  }

  /** One `RegisterSlave` call. */
  class SlaveSession {
    const slave: nat
    var first: bool
    var spawned: Snapshot
    var joinEventCh: seq<set<string>>
    var sent: set<string>

    ghost function State(): Session
      reads this
    {
      Session(slave, spawned, joinEventCh, sent)
    }

    ghost predicate Valid()
      reads this
    {
      first <==> spawned != NotAsked
    }

    /** Subscribe; the login event that starts the session is already queued. */
    constructor (slave: nat)
      ensures Valid() && State() == Session(slave, NotAsked, [], {})
    {
      this.slave := slave;
      first, spawned, joinEventCh, sent := false, NotAsked, [], {};
    }

    /** A login event: only the first one starts the snapshot goroutine. */
    method OnLoginEvent(ghost sid: nat)
      requires Valid()
      modifies this
      ensures Valid()
      ensures forall edge: set<string> :: State() == SessionDo(old(State()), Login(sid), edge)
    {
      if !first {
        spawned := Spawned;
        first := true;
      }
    }

    /** The emitter delivers a publication. */
    method OnPublication(p: Pub)
      requires Valid()
      modifies this
      ensures Valid() && State() == Receive(old(State()), p)
    {
      if p.edge == slave {
        joinEventCh := joinEventCh + [p.ids];
      }
    }

    /** The goroutine reads the edge of this slave. */
    method TakeSnapshot(autoScaler: AutoScaler, ghost sid: nat)
      requires Valid() && SessionCan(State(), Snap(sid)) && autoScaler.Valid()
      modifies this
      ensures Valid() && State() == SessionDo(old(State()), Snap(sid), EdgeIds(autoScaler.Memory(), slave))
    {
      ghost var edge := EdgeIds(autoScaler.Memory(), slave);
      var listed := autoScaler.GetChannelsForSlave(slave);
      assert IdSet(listed) == edge by {
        if slave < |autoScaler.edges| {
          ListedIds(listed, autoScaler.edges[slave]);
        } else {
          assert IdSet([]) == {};
        }
      }
      spawned := Taken(IdSet(listed));
    }

    /** The goroutine hands over what it read: it queues behind the lists already received. */
    method EnqueueSnapshot(ghost sid: nat)
      requires Valid() && SessionCan(State(), Enqueue(sid))
      modifies this
      ensures Valid()
      ensures forall edge: set<string> :: State() == SessionDo(old(State()), Enqueue(sid), edge)
    {
      joinEventCh := joinEventCh + [spawned.ids];
      spawned := Enqueued;
    }

    /** Send the oldest list of the queue. */
    method OnJoinEvent(ghost sid: nat)
      requires Valid() && SessionCan(State(), Send(sid))
      modifies this
      ensures Valid()
      ensures forall edge: set<string> :: State() == SessionDo(old(State()), Send(sid), edge)
    {
      sent := sent + joinEventCh[0];
      joinEventCh := joinEventCh[1..];
    }
  }

  lemma {:induction false} DistinctIdsCount(cs: seq<Channel>)
    requires Distinct(Ids(cs))
    ensures |IdSet(cs)| == |cs|
  {
    if cs == [] {
      assert IdSet(cs) == {};
    } else {
      var n := |cs| - 1;
      assert Ids(cs)[..n] == Ids(cs[..n]);
      DistinctIdsCount(cs[..n]);
      forall c | c in cs[..n]
        ensures c.twitchId != cs[n].twitchId
      {
        var i :| 0 <= i < n && cs[i] == c;
        assert Ids(cs)[i] != Ids(cs)[n];
      }
      assert forall c :: c in cs <==> c in cs[..n] || c == cs[n];
      assert IdSet(cs) == IdSet(cs[..n]) + {cs[n].twitchId};
    }
  }

  /** Listing a map's values, each once, lists all its ids. */
  lemma ListedIds(cs: seq<Channel>, m: map<string, Channel>)
    requires Lists(cs, m)
    ensures IdSet(cs) == m.Keys
  {
    DistinctIdsCount(cs);
    assert IdSet(cs) <= m.Keys && |IdSet(cs)| == |m.Keys|;
    SameSizeSubset(IdSet(cs), m.Keys);
  }

  lemma SameSizeSubset<T>(a: set<T>, b: set<T>)
    requires a <= b && |a| == |b|
    ensures a == b
  {
    assert b == a + (b - a);
    assert |b - a| == 0;
  }
}
