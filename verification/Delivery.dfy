/**
 The path of a placement from the allocator to a slave: publications made by spawned goroutines,
 sessions that subscribe first and take a snapshot later, and sends, interleaved in any order.
 Messages are modelled by the ids they carry.
 */
module Delivery {
  import opened Allocation
  import opened Publication
  import opened MasterRuns

  /** A list handed to the emitter and not delivered yet. */
  datatype Pub = Pub(edge: nat, ids: set<string>)

  /** The snapshot goroutine of a session. */
  datatype Snapshot =
    | NotAsked
    | Spawned
    | Taken(ids: set<string>)
    | Enqueued

  /** One `RegisterSlave` call; it is subscribed from the moment it exists. */
  datatype Session = Session(slave: nat, snapshot: Snapshot, queue: seq<set<string>>, sent: set<string>)

  /** `log` remembers every id ever sent, and to which slave. */
  datatype World = World(
    master: Master,
    flight: seq<Pub>,
    sessions: map<nat, Session>,
    log: set<(nat, string)>)

  datatype Action =
    | Serve(directory: map<string, string>, requests: seq<Request>)
    | Note(id: string, report: Report)
    | Reboot(ev: Event)           // the process restarts, cleanly or by a crash, and loads
    | Deliver(at: nat)            // one publication reaches every listener present
    | Open(sid: nat, slave: nat)
    | Login(sid: nat)             // the login is sent; the first one spawns the snapshot goroutine
    | Snap(sid: nat)              // the goroutine reads the edge under the allocator's mutex
    | Enqueue(sid: nat)           // the goroutine hands what it read to the session
    | Send(sid: nat)
    | Drop(sid: nat)

  // ---------------------------------------------------------------- definitions

  function EdgeIds(m: Master, e: nat): set<string> {
    if e < |m.book.edges| then m.book.edges[e].Keys else {}
  }

  function IdSet(cs: seq<Channel>): set<string> {
    set c | c in cs :: c.twitchId
  }

  /** The publications of a batch for the edges below `n`. */
  function BatchPubs(placed: seq<Channel>, n: nat): seq<Pub> {
    if n == 0 then []
    else
      BatchPubs(placed, n - 1) +
      if OnEdge(placed, n - 1) == [] then [] else [Pub(n - 1, IdSet(OnEdge(placed, n - 1)))]
  }

  function LoadPubs(m: Master): (ps: seq<Pub>)
    ensures |ps| == |m.book.edges|
    ensures forall i :: 0 <= i < |ps| ==> ps[i] == Pub(i, EdgeIds(m, i))
  {
    seq(|m.book.edges|, i requires 0 <= i < |m.book.edges| => Pub(i, EdgeIds(m, i)))
  }

  function Receive(s: Session, p: Pub): Session {
    if s.slave == p.edge then s.(queue := s.queue + [p.ids]) else s
  }

  /** The steps of the session loop and its snapshot goroutine. */
  predicate IsSessionStep(a: Action) {
    a.Login? || a.Snap? || a.Enqueue? || a.Send?
  }

  predicate SessionCan(s: Session, a: Action) {
    match a
    case Login(_) => true
    case Snap(_) => s.snapshot.Spawned?
    case Enqueue(_) => s.snapshot.Taken?
    case Send(_) => s.queue != []
    case _ => false
  }

  /** What one step does to its session; `edge` are the ids the session's edge has right now. */
  function SessionDo(s: Session, a: Action, edge: set<string>): Session
    requires SessionCan(s, a)
  {
    match a
    case Login(_) => if s.snapshot.NotAsked? then s.(snapshot := Spawned) else s
    case Snap(_) => s.(snapshot := Taken(edge))
    case Enqueue(_) => s.(snapshot := Enqueued, queue := s.queue + [s.snapshot.ids])
    case Send(_) => s.(queue := s.queue[1..], sent := s.sent + s.queue[0])
  }

  function SentBy(s: Session, a: Action): set<string> {
    if a.Send? && s.queue != [] then s.queue[0] else {}
  }

  ghost predicate Can(w: World, limit: nat, a: Action) {
    match a
    case Serve(_, _) => true
    case Note(_, _) => true
    case Reboot(ev) => (ev.Restarted? || ev.Crashed?) && Enabled(w.master, limit, ev)
    case Deliver(at) => at < |w.flight|
    case Open(sid, _) => sid !in w.sessions
    case Drop(sid) => sid in w.sessions
    case _ => a.sid in w.sessions && SessionCan(w.sessions[a.sid], a)
  }

  function Update(w: World, sid: nat, s: Session): World {
    w.(sessions := w.sessions[sid := s])
  }

  function Do(w: World, limit: nat, a: Action): World
    requires Can(w, limit, a)
  {
    match a
    case Serve(directory, requests) =>
      var m := Apply(w.master, limit, Allocated(directory, requests));
      var placed := Batch(w.master.book, limit, directory, requests).placed;
      w.(master := m, flight := w.flight + BatchPubs(placed, |m.book.edges|))
    case Note(id, report) => w.(master := Apply(w.master, limit, Reported(id, report)))
    case Reboot(ev) =>
      var m := Apply(w.master, limit, ev);
      World(m, LoadPubs(m), map[], w.log)
    case Deliver(at) =>
      w.(flight := w.flight[..at] + w.flight[at + 1..],
         sessions := map sid | sid in w.sessions :: Receive(w.sessions[sid], w.flight[at]))
    case Open(sid, slave) => Update(w, sid, Session(slave, NotAsked, [], {}))
    case Drop(sid) => w.(sessions := w.sessions - {sid})
    case _ =>
      var s := w.sessions[a.sid];
      var t := SessionDo(s, a, EdgeIds(w.master, s.slave));
      Update(w.(log := w.log + set id | id in SentBy(s, a) :: (s.slave, id)), a.sid, t)
  }

  /** The actions can be taken one after the other. */
  ghost predicate Possible(w: World, limit: nat, actions: seq<Action>)
    decreases |actions|
  {
    actions != [] ==> Can(w, limit, actions[0]) && Possible(Do(w, limit, actions[0]), limit, actions[1..])
  }

  ghost function After(w: World, limit: nat, actions: seq<Action>): World
    requires Possible(w, limit, actions)
    decreases |actions|
  {
    if actions == [] then w else After(Do(w, limit, actions[0]), limit, actions[1..])
  }

  /** The master right after a load: nothing connected yet. */
  ghost predicate Started(w: World) {
    Inv(w.master) && w.flight == LoadPubs(w.master) && w.sessions == map[] && w.log == {}
  }

  // ---------------------------------------------------------------- the invariant

  ghost predicate Queued(s: Session, id: string) {
    exists i :: 0 <= i < |s.queue| && id in s.queue[i]
  }

  ghost predicate InFlight(flight: seq<Pub>, e: nat, id: string) {
    exists i :: 0 <= i < |flight| && flight[i].edge == e && id in flight[i].ids
  }

  /** What a session has, holds or can still get; nothing else is ever sent to it. */
  ghost predicate OnlyItsOwn(m: Master, s: Session) {
    && s.sent <= EdgeIds(m, s.slave)
    && (forall i :: 0 <= i < |s.queue| ==> s.queue[i] <= EdgeIds(m, s.slave))
    && (s.snapshot.Taken? ==> s.snapshot.ids <= EdgeIds(m, s.slave))
  }

  ghost predicate Accounted(flight: seq<Pub>, s: Session, id: string) {
    || id in s.sent
    || Queued(s, id)
    || (s.snapshot.Taken? && id in s.snapshot.ids)
    || InFlight(flight, s.slave, id)
  }

  /** Once the snapshot is taken, every id of the edge is sent, queued, in the goroutine's hands
      or in a publication that is still to be delivered. */
  ghost predicate NothingLost(m: Master, flight: seq<Pub>, s: Session) {
    s.snapshot.Taken? || s.snapshot.Enqueued? ==>
      forall id :: id in EdgeIds(m, s.slave) ==> Accounted(flight, s, id)
  }

  ghost predicate FlightIsSound(m: Master, flight: seq<Pub>) {
    forall i :: 0 <= i < |flight| ==> flight[i].ids <= EdgeIds(m, flight[i].edge)
  }

  ghost predicate LogIsSound(m: Master, log: set<(nat, string)>) {
    forall e, id :: (e, id) in log ==> id in EdgeIds(m, e)
  }

  ghost predicate Good(w: World) {
    && Inv(w.master)
    && FlightIsSound(w.master, w.flight)
    && LogIsSound(w.master, w.log)
    && forall sid :: sid in w.sessions ==>
      OnlyItsOwn(w.master, w.sessions[sid]) && NothingLost(w.master, w.flight, w.sessions[sid])
  }

  // ---------------------------------------------------------------- one step of a session

  /** A send takes the oldest list off the queue and sends all of it and nothing else: an id is sent
      or queued afterwards exactly when it was before. */
  lemma SendLaw(s: Session, sid: nat, edge: set<string>, id: string)
    requires s.queue != []
    ensures var t := SessionDo(s, Send(sid), edge);
      && t.queue == s.queue[1..] && t.snapshot == s.snapshot && t.slave == s.slave
      && (id in t.sent <==> id in s.sent || id in s.queue[0])
      && (id in t.sent || Queued(t, id) <==> id in s.sent || Queued(s, id))
  {
    var t := SessionDo(s, Send(sid), edge);
    if i :| 0 <= i < |s.queue| && id in s.queue[i] {
      if i > 0 {
        assert t.queue[i - 1] == s.queue[i];
      }
    }
    if i :| 0 <= i < |t.queue| && id in t.queue[i] {
      assert s.queue[i + 1] == t.queue[i];
    }
  }

  /** The snapshot is asked for once, at the first login; it holds the edge as it is when it is read;
      and it queues behind what was received until it is handed over. None of this sends anything. */
  lemma SnapshotLaw(s: Session, sid: nat, edge: set<string>)
    ensures SessionDo(s, Login(sid), edge)
      == Session(s.slave, if s.snapshot == NotAsked then Spawned else s.snapshot, s.queue, s.sent)
    ensures s.snapshot == Spawned ==>
      SessionDo(s, Snap(sid), edge) == Session(s.slave, Taken(edge), s.queue, s.sent)
    ensures s.snapshot.Taken? ==>
      SessionDo(s, Enqueue(sid), edge) == Session(s.slave, Enqueued, s.queue + [s.snapshot.ids], s.sent)
  {
  }

  /** Opening and dropping a session concern no other; a new one is subscribed, with nothing queued,
      sent or asked for. A delivery appends the list to the queues of its own edge's sessions. */
  lemma SessionsLaw(w: World, limit: nat, sid: nat, slave: nat, at: nat, other: nat)
    ensures sid !in w.sessions ==>
      var t := Do(w, limit, Open(sid, slave));
      t.sessions == w.sessions[sid := Session(slave, NotAsked, [], {})] && t.flight == w.flight
    ensures sid in w.sessions ==>
      Do(w, limit, Drop(sid)).sessions == w.sessions - {sid} && Do(w, limit, Drop(sid)).flight == w.flight
    ensures at < |w.flight| && other in w.sessions ==>
      var p, s := w.flight[at], w.sessions[other];
      var t := Do(w, limit, Deliver(at));
      && other in t.sessions
      && t.sessions[other].queue == s.queue + (if s.slave == p.edge then [p.ids] else [])
      && t.sessions[other] == s.(queue := t.sessions[other].queue)
      && |t.flight| == |w.flight| - 1
  {
  }

  // ---------------------------------------------------------------- batches and edges

  /** `m'` has all the ids `m` has, on the same edges. */
  ghost predicate Extends(m: Master, m': Master) {
    forall e: nat :: EdgeIds(m, e) <= EdgeIds(m', e)
  }

  lemma {:induction false} StoredOnEdge(b: Book, cs: seq<Channel>, e: nat, id: string)
    ensures |b.edges| <= |PutAll(b, cs).edges|
    ensures e < |PutAll(b, cs).edges| ==>
      (id in PutAll(b, cs).edges[e] <==>
       (e < |b.edges| && id in b.edges[e]) || id in IdSet(OnEdge(cs, e)))
    ensures id in IdSet(OnEdge(cs, e)) ==> e < |PutAll(b, cs).edges|
  {
    if cs == [] {
    } else {
      var n := |cs| - 1;
      StoredOnEdge(b, cs[..n], e, id);
      IdSetSnoc(cs, e);
    }
  }

  lemma IdSetSnoc(cs: seq<Channel>, e: nat)
    requires cs != []
    ensures var n := |cs| - 1;
      IdSet(OnEdge(cs, e)) == IdSet(OnEdge(cs[..n], e)) + if cs[n].edgeNode == e then {cs[n].twitchId} else {}
  {
    var n := |cs| - 1;
    if cs[n].edgeNode == e {
      var before := OnEdge(cs[..n], e);
      assert OnEdge(cs, e) == before + [cs[n]];
      assert forall c :: c in before + [cs[n]] <==> c in before || c == cs[n];
    }
  }

  /** A batch adds to each edge exactly the ids it publishes for that edge. */
  lemma BatchAddsWhatItPublishes(m: Master, limit: nat, directory: map<string, string>, requests: seq<Request>, e: nat)
    requires Inv(m)
    ensures var o := Batch(m.book, limit, directory, requests);
      EdgeIds(Apply(m, limit, Allocated(directory, requests)), e) == EdgeIds(m, e) + IdSet(OnEdge(o.placed, e))
  {
    var o := Batch(m.book, limit, directory, requests);
    BatchIsItsOwnSavedPart(m.book, limit, directory, requests);
    forall id
      ensures id in EdgeIds(Apply(m, limit, Allocated(directory, requests)), e)
         <==> id in EdgeIds(m, e) + IdSet(OnEdge(o.placed, e))
    {
      StoredOnEdge(m.book, o.placed, e, id);
    }
  }

  lemma {:induction false} BatchPubsCover(placed: seq<Channel>, n: nat, e: nat)
    requires e < n && OnEdge(placed, e) != []
    ensures Pub(e, IdSet(OnEdge(placed, e))) in BatchPubs(placed, n)
  {
    if e < n - 1 {
      BatchPubsCover(placed, n - 1, e);
    }
  }

  lemma {:induction false} BatchPubsAreOnEdges(placed: seq<Channel>, n: nat)
    ensures forall i :: 0 <= i < |BatchPubs(placed, n)| ==>
      var p := BatchPubs(placed, n)[i]; p.edge < n && p.ids == IdSet(OnEdge(placed, p.edge))
  {
    if n == 0 {
    } else {
      BatchPubsAreOnEdges(placed, n - 1);
    }
  }

  lemma StepExtends(m: Master, limit: nat, ev: Event)
    requires Inv(m) && Enabled(m, limit, ev)
    ensures Inv(Apply(m, limit, ev)) && Extends(m, Apply(m, limit, ev))
  {
    ApplyKeepsInv(m, limit, ev);
    var m' := Apply(m, limit, ev);
    forall e: nat, id | id in EdgeIds(m, e)
      ensures id in EdgeIds(m', e)
    {
      assert id in m.book.index && m.book.index[id].edgeNode == e;
      ApplyNeverMoves(m, limit, ev, id);
    }
  }

  // ---------------------------------------------------------------- every step keeps it

  lemma SessionAfterServe(m: Master, m': Master, flight: seq<Pub>, more: seq<Pub>, s: Session)
    requires Extends(m, m') && OnlyItsOwn(m, s) && NothingLost(m, flight, s)
    requires forall id :: id in EdgeIds(m', s.slave) ==> id in EdgeIds(m, s.slave) || InFlight(more, s.slave, id)
    ensures OnlyItsOwn(m', s) && NothingLost(m', flight + more, s)
  {
    if s.snapshot.Taken? || s.snapshot.Enqueued? {
      forall id | id in EdgeIds(m', s.slave)
        ensures Accounted(flight + more, s, id)
      {
        FlightConcat(flight, more, s.slave, id);
      }
    }
  }

  lemma FlightConcat(xs: seq<Pub>, ys: seq<Pub>, e: nat, id: string)
    ensures InFlight(xs + ys, e, id) <==> InFlight(xs, e, id) || InFlight(ys, e, id)
  {
    if InFlight(xs, e, id) {
      var i :| 0 <= i < |xs| && xs[i].edge == e && id in xs[i].ids;
      assert (xs + ys)[i] == xs[i];
    }
    if InFlight(ys, e, id) {
      var i :| 0 <= i < |ys| && ys[i].edge == e && id in ys[i].ids;
      assert (xs + ys)[|xs| + i] == ys[i];
    }
  }

  lemma ServeKeepsGood(w: World, limit: nat, directory: map<string, string>, requests: seq<Request>)
    requires Good(w)
    ensures Good(Do(w, limit, Serve(directory, requests)))
  {
    var ev := Allocated(directory, requests);
    var m' := Apply(w.master, limit, ev);
    var placed := Batch(w.master.book, limit, directory, requests).placed;
    var more := BatchPubs(placed, |m'.book.edges|);
    StepExtends(w.master, limit, ev);
    BatchPubsAreOnEdges(placed, |m'.book.edges|);
    forall e: nat
      ensures EdgeIds(m', e) == EdgeIds(w.master, e) + IdSet(OnEdge(placed, e))
    {
      BatchAddsWhatItPublishes(w.master, limit, directory, requests, e);
    }
    assert FlightIsSound(m', w.flight + more);
    forall sid | sid in w.sessions
      ensures OnlyItsOwn(m', w.sessions[sid]) && NothingLost(m', w.flight + more, w.sessions[sid])
    {
      var s := w.sessions[sid];
      forall id | id in EdgeIds(m', s.slave) && id !in EdgeIds(w.master, s.slave)
        ensures InFlight(more, s.slave, id)
      {
        assert id in IdSet(OnEdge(placed, s.slave));
        BatchPubsCover(placed, |m'.book.edges|, s.slave);
      }
      SessionAfterServe(w.master, m', w.flight, more, s);
    }
  }

  lemma RebootKeepsGood(w: World, limit: nat, ev: Event)
    requires Good(w) && Can(w, limit, Reboot(ev))
    ensures Good(Do(w, limit, Reboot(ev)))
  {
    StepExtends(w.master, limit, ev);
  }

  lemma DeliveredSession(m: Master, flight: seq<Pub>, at: nat, s: Session)
    requires at < |flight| && FlightIsSound(m, flight) && OnlyItsOwn(m, s) && NothingLost(m, flight, s)
    ensures var s' := Receive(s, flight[at]);
      OnlyItsOwn(m, s') && NothingLost(m, flight[..at] + flight[at + 1..], s')
  {
    var p, rest := flight[at], flight[..at] + flight[at + 1..];
    var s' := Receive(s, p);
    assert flight == flight[..at] + [p] + flight[at + 1..];
    if s.snapshot.Taken? || s.snapshot.Enqueued? {
      forall id | id in EdgeIds(m, s.slave)
        ensures Accounted(rest, s', id)
      {
        if Queued(s, id) {
          var i :| 0 <= i < |s.queue| && id in s.queue[i];
          assert s'.queue[i] == s.queue[i];
        } else if InFlight(flight, s.slave, id) {
          var i :| 0 <= i < |flight| && flight[i].edge == s.slave && id in flight[i].ids;
          if i == at {
            assert s'.queue[|s.queue|] == p.ids;
          } else {
            assert rest[if i < at then i else i - 1] == flight[i];
          }
        }
      }
    }
  }

  lemma DeliverKeepsGood(w: World, limit: nat, at: nat)
    requires Good(w) && at < |w.flight|
    ensures Good(Do(w, limit, Deliver(at)))
  {
    forall sid | sid in w.sessions
      ensures var s' := Receive(w.sessions[sid], w.flight[at]);
        OnlyItsOwn(w.master, s') && NothingLost(w.master, w.flight[..at] + w.flight[at + 1..], s')
    {
      DeliveredSession(w.master, w.flight, at, w.sessions[sid]);
    }
  }

  lemma EnqueuedSession(m: Master, flight: seq<Pub>, s: Session)
    requires s.snapshot.Taken? && OnlyItsOwn(m, s) && NothingLost(m, flight, s)
    ensures var s' := s.(snapshot := Enqueued, queue := s.queue + [s.snapshot.ids]);
      OnlyItsOwn(m, s') && NothingLost(m, flight, s')
  {
    var s' := s.(snapshot := Enqueued, queue := s.queue + [s.snapshot.ids]);
    forall id | id in EdgeIds(m, s.slave)
      ensures Accounted(flight, s', id)
    {
      if Queued(s, id) {
        var i :| 0 <= i < |s.queue| && id in s.queue[i];
        assert s'.queue[i] == s.queue[i];
      }
      assert s'.queue[|s.queue|] == s.snapshot.ids;
    }
  }

  lemma SentSession(m: Master, flight: seq<Pub>, s: Session)
    requires s.queue != [] && OnlyItsOwn(m, s) && NothingLost(m, flight, s)
    ensures var s' := s.(queue := s.queue[1..], sent := s.sent + s.queue[0]);
      OnlyItsOwn(m, s') && NothingLost(m, flight, s')
  {
    var s' := s.(queue := s.queue[1..], sent := s.sent + s.queue[0]);
    forall id | Queued(s, id)
      ensures id in s'.sent || Queued(s', id)
    {
      var i :| 0 <= i < |s.queue| && id in s.queue[i];
      if i > 0 {
        assert s'.queue[i - 1] == s.queue[i];
      }
    }
  }

  lemma SessionStepKeepsGood(w: World, limit: nat, a: Action)
    requires Good(w) && Can(w, limit, a) && (a.Open? || a.Login? || a.Snap? || a.Drop?)
    ensures Good(Do(w, limit, a))
  {
  }

  /** Every step, in any order, keeps the invariant. */
  lemma StepKeepsGood(w: World, limit: nat, a: Action)
    requires Good(w) && Can(w, limit, a)
    ensures Good(Do(w, limit, a))
  {
    match a
    case Serve(directory, requests) => ServeKeepsGood(w, limit, directory, requests);
    case Note(id, report) => StepExtends(w.master, limit, Reported(id, report));
    case Reboot(ev) => RebootKeepsGood(w, limit, ev);
    case Deliver(at) => DeliverKeepsGood(w, limit, at);
    case Open(_, _) => SessionStepKeepsGood(w, limit, a);
    case Login(_) => SessionStepKeepsGood(w, limit, a);
    case Snap(_) => SessionStepKeepsGood(w, limit, a);
    case Drop(_) => SessionStepKeepsGood(w, limit, a);
    case Enqueue(sid) => EnqueuedSession(w.master, w.flight, w.sessions[sid]);
    case Send(sid) => SentSession(w.master, w.flight, w.sessions[sid]);
  }

  lemma {:induction false} RunsKeepGood(w: World, limit: nat, actions: seq<Action>)
    requires Good(w) && Possible(w, limit, actions)
    ensures Good(After(w, limit, actions))
    decreases |actions|
  {
    if actions == [] {
    } else {
      StepKeepsGood(w, limit, actions[0]);
      RunsKeepGood(Do(w, limit, actions[0]), limit, actions[1..]);
    }
  }

  // ---------------------------------------------------------------- the promises

  /** Nothing is on its way to this session any more. */
  ghost predicate Settled(w: World, sid: nat) {
    && sid in w.sessions
    && w.sessions[sid].snapshot.Enqueued?
    && w.sessions[sid].queue == []
    && forall i :: 0 <= i < |w.flight| ==> w.flight[i].edge != w.sessions[sid].slave
  }

  /** In every reachable state a session that has taken its snapshot has lost no id of its edge,
      and one with nothing left on its way has been sent exactly the ids of its edge. */
  lemma NoChannelIsLost(w: World, limit: nat, actions: seq<Action>, sid: nat)
    requires Started(w) && Possible(w, limit, actions) && sid in After(w, limit, actions).sessions
    ensures var w' := After(w, limit, actions);
      && NothingLost(w'.master, w'.flight, w'.sessions[sid])
      && (Settled(w', sid) ==> w'.sessions[sid].sent == EdgeIds(w'.master, w'.sessions[sid].slave))
  {
    RunsKeepGood(w, limit, actions);
    var w' := After(w, limit, actions);
    if Settled(w', sid) {
      SettledSent(w', sid);
    }
  }

  lemma SettledSent(w: World, sid: nat)
    requires Good(w) && Settled(w, sid)
    ensures w.sessions[sid].sent == EdgeIds(w.master, w.sessions[sid].slave)
  {
    var s := w.sessions[sid];
    forall id | id in EdgeIds(w.master, s.slave)
      ensures id in s.sent
    {
      assert Accounted(w.flight, s, id);
    }
  }

  /** No id is ever sent to two different slaves, restarts and crashes included. */
  lemma OneSlavePerId(w: World, limit: nat, actions: seq<Action>, e: nat, f: nat, id: string)
    requires Started(w) && Possible(w, limit, actions)
    requires (e, id) in After(w, limit, actions).log && (f, id) in After(w, limit, actions).log
    ensures e == f
  {
    RunsKeepGood(w, limit, actions);
    var w' := After(w, limit, actions);
    assert id in EdgeIds(w'.master, e) && id in EdgeIds(w'.master, f);
    assert id in w'.master.book.index;
  }

  /** Everything the open sessions have sent is in the log. */
  ghost predicate Logged(w: World) {
    forall sid, id :: sid in w.sessions && id in w.sessions[sid].sent ==> (w.sessions[sid].slave, id) in w.log
  }

  lemma StepKeepsLogged(w: World, limit: nat, a: Action)
    requires Logged(w) && Can(w, limit, a)
    ensures Logged(Do(w, limit, a)) && w.log <= Do(w, limit, a).log
  {
    var w' := Do(w, limit, a);
    forall sid, id | sid in w'.sessions && id in w'.sessions[sid].sent
      ensures (w'.sessions[sid].slave, id) in w'.log
    {
      if a.Send? && a.sid == sid {
        SendLaw(w.sessions[sid], sid, EdgeIds(w.master, w.sessions[sid].slave), id);
        assert SentBy(w.sessions[sid], a) == w.sessions[sid].queue[0];
      }
    }
  }

  lemma {:induction false} RunsKeepLogged(w: World, limit: nat, actions: seq<Action>)
    requires Logged(w) && Possible(w, limit, actions)
    ensures Logged(After(w, limit, actions)) && w.log <= After(w, limit, actions).log
    decreases |actions|
  {
    if actions == [] {
    } else {
      StepKeepsLogged(w, limit, actions[0]);
      RunsKeepLogged(Do(w, limit, actions[0]), limit, actions[1..]);
    }
  }

  /** The log that never names two slaves for one id misses nothing: whatever an open session has
      sent at any point of a run is in it, and stays in it. */
  lemma EverySendIsLogged(w: World, limit: nat, actions: seq<Action>, more: seq<Action>, sid: nat, id: string)
    requires Started(w) && Possible(w, limit, actions) && Possible(After(w, limit, actions), limit, more)
    ensures var mid := After(w, limit, actions);
      sid in mid.sessions && id in mid.sessions[sid].sent ==>
        (mid.sessions[sid].slave, id) in After(mid, limit, more).log
  {
    RunsKeepLogged(w, limit, actions);
    RunsKeepLogged(After(w, limit, actions), limit, more);
  }

  // ---------------------------------------------------------------- delivery completes

  /** Steps that only move what is already on its way. */
  predicate Internal(a: Action) {
    a.Deliver? || IsSessionStep(a)
  }

  /** An internal step that does something: a repeated login does not. */
  ghost predicate Effective(w: World, limit: nat, a: Action) {
    Internal(a) && Can(w, limit, a) && (a.Login? ==> w.sessions[a.sid].snapshot.NotAsked?)
  }

  /** How many steps a session has left when nothing more arrives. */
  function Left(s: Session): nat {
    |s.queue| + match s.snapshot
                case NotAsked => 4
                case Spawned => 3
                case Taken(_) => 2
                case Enqueued => 0
  }

  ghost function TotalLeft(sessions: map<nat, Session>): nat
    decreases |sessions|
  {
    if sessions == map[] then 0
    else
      var sid :| sid in sessions;
      Left(sessions[sid]) + TotalLeft(sessions - {sid})
  }

  /** What is left to do: every publication may still reach every session. */
  ghost function Work(w: World): nat {
    |w.flight| * (|w.sessions| + 1) + TotalLeft(w.sessions)
  }

  lemma {:induction false} TotalLeftWithout(sessions: map<nat, Session>, sid: nat)
    requires sid in sessions
    ensures TotalLeft(sessions) == Left(sessions[sid]) + TotalLeft(sessions - {sid})
    decreases |sessions|
  {
    var first :| first in sessions && TotalLeft(sessions) == Left(sessions[first]) + TotalLeft(sessions - {first});
    if first != sid {
      TotalLeftWithout(sessions - {first}, sid);
      TotalLeftWithout(sessions - {sid}, first);
      assert sessions - {first} - {sid} == sessions - {sid} - {first};
    }
  }

  lemma TotalLeftAfterStep(sessions: map<nat, Session>, sid: nat, s: Session)
    requires sid in sessions && Left(s) < Left(sessions[sid])
    ensures TotalLeft(sessions[sid := s]) < TotalLeft(sessions)
    ensures |sessions[sid := s]| == |sessions|
  {
    var after := sessions[sid := s];
    TotalLeftWithout(sessions, sid);
    TotalLeftWithout(after, sid);
    assert after - {sid} == sessions - {sid};
    assert after.Keys == sessions.Keys;
    assert |after| == |after.Keys| && |sessions| == |sessions.Keys|;
  }

  /** A delivery adds at most one list to each session. */
  lemma {:induction false} TotalLeftAfterDelivery(sessions: map<nat, Session>, after: map<nat, Session>)
    requires after.Keys == sessions.Keys
    requires forall sid :: sid in sessions ==> Left(after[sid]) <= Left(sessions[sid]) + 1
    ensures TotalLeft(after) <= TotalLeft(sessions) + |sessions|
    decreases |sessions|
  {
    if sessions == map[] {
      assert after == map[];
    } else {
      var sid :| sid in sessions;
      TotalLeftWithout(sessions, sid);
      TotalLeftWithout(after, sid);
      TotalLeftAfterDelivery(sessions - {sid}, after - {sid});
      assert (sessions - {sid}).Keys == sessions.Keys - {sid};
      assert |sessions| == |sessions.Keys| && |sessions - {sid}| == |sessions.Keys - {sid}|;
    }
  }

  /** The sessions of `w'` are those of `w`, further along. */
  ghost predicate SameSessions(w: World, w': World) {
    && w'.master == w.master
    && w'.sessions.Keys == w.sessions.Keys
    && forall sid :: sid in w.sessions ==> w'.sessions[sid].slave == w.sessions[sid].slave
  }

  lemma DeliveryShrinksWork(w: World, limit: nat, at: nat)
    requires at < |w.flight|
    ensures SameSessions(w, Do(w, limit, Deliver(at)))
    ensures Work(Do(w, limit, Deliver(at))) < Work(w)
  {
    var w' := Do(w, limit, Deliver(at));
    TotalLeftAfterDelivery(w.sessions, w'.sessions);
    assert |w'.sessions.Keys| == |w.sessions.Keys|;
    assert |w'.sessions| == |w'.sessions.Keys| && |w.sessions| == |w.sessions.Keys|;
    OneLess(|w.flight|, |w.sessions| + 1);
  }

  lemma OneLess(n: nat, k: nat)
    requires n >= 1
    ensures (n - 1) * k == n * k - k
  {
  }

  /** Every effective step leaves less to do; a repeated login changes nothing. */
  lemma InternalStepShrinksWork(w: World, limit: nat, a: Action)
    requires Internal(a) && Can(w, limit, a)
    ensures SameSessions(w, Do(w, limit, a))
    ensures if Effective(w, limit, a) then Work(Do(w, limit, a)) < Work(w) else Do(w, limit, a) == w
  {
    if a.Deliver? {
      DeliveryShrinksWork(w, limit, a.at);
    } else {
      var s := w.sessions[a.sid];
      var s' := SessionDo(s, a, EdgeIds(w.master, s.slave));
      if Effective(w, limit, a) {
        TotalLeftAfterStep(w.sessions, a.sid, s');
      } else {
        assert w.sessions[a.sid := s'] == w.sessions;
      }
    }
  }

  /** Where no effective step is left, every session is settled. */
  lemma StuckMeansSettled(w: World, limit: nat)
    requires forall a :: !Effective(w, limit, a)
    ensures forall sid :: sid in w.sessions ==> Settled(w, sid)
  {
    if w.flight != [] {
      assert Effective(w, limit, Deliver(0));
    }
    forall sid | sid in w.sessions
      ensures Settled(w, sid)
    {
      assert !Effective(w, limit, Login(sid)) && !Effective(w, limit, Snap(sid));
      assert !Effective(w, limit, Enqueue(sid)) && !Effective(w, limit, Send(sid));
    }
  }

  ghost function EffectiveSteps(w: World, limit: nat, actions: seq<Action>): nat
    requires Possible(w, limit, actions)
    decreases |actions|
  {
    if actions == [] then 0
    else
      (if Effective(w, limit, actions[0]) then 1 else 0) +
      EffectiveSteps(Do(w, limit, actions[0]), limit, actions[1..])
  }

  lemma {:induction false} SchedulesAreBounded(w: World, limit: nat, actions: seq<Action>)
    requires Possible(w, limit, actions) && forall i :: 0 <= i < |actions| ==> Internal(actions[i])
    ensures EffectiveSteps(w, limit, actions) + Work(After(w, limit, actions)) <= Work(w)
    ensures SameSessions(w, After(w, limit, actions))
    decreases |actions|
  {
    if actions == [] {
    } else {
      InternalStepShrinksWork(w, limit, actions[0]);
      assert forall i :: 0 <= i < |actions[1..]| ==> actions[1..][i] == actions[i + 1];
      SchedulesAreBounded(Do(w, limit, actions[0]), limit, actions[1..]);
    }
  }

  /** From every reachable state, whatever order the publications, snapshots and sends on their way
      are served in: a schedule has at most `Work` steps that do anything, and when none is left
      every session still open has been sent exactly the ids of its edge. */
  lemma DeliveryCompletes(w: World, limit: nat, actions: seq<Action>, more: seq<Action>)
    requires Started(w) && Possible(w, limit, actions)
    requires Possible(After(w, limit, actions), limit, more) && forall i :: 0 <= i < |more| ==> Internal(more[i])
    ensures var mid := After(w, limit, actions);
      var end := After(mid, limit, more);
      && EffectiveSteps(mid, limit, more) <= Work(mid)
      && SameSessions(mid, end)
      && ((forall a :: !Effective(end, limit, a)) ==>
        forall sid :: sid in mid.sessions ==>
          end.sessions[sid].sent == EdgeIds(mid.master, mid.sessions[sid].slave))
  {
    RunsKeepGood(w, limit, actions);
    var mid := After(w, limit, actions);
    SchedulesAreBounded(mid, limit, more);
    RunsKeepGood(mid, limit, more);
    var end := After(mid, limit, more);
    if forall a :: !Effective(end, limit, a) {
      StuckMeansSettled(end, limit);
      forall sid | sid in end.sessions
        ensures end.sessions[sid].sent == EdgeIds(mid.master, mid.sessions[sid].slave)
      {
        SettledSent(end, sid);
      }
    }
  }

  /** And some schedule does leave none. */
  lemma {:induction false} SomeScheduleEnds(w: World, limit: nat) returns (more: seq<Action>)
    ensures Possible(w, limit, more) && forall i :: 0 <= i < |more| ==> Internal(more[i])
    ensures forall a :: !Effective(After(w, limit, more), limit, a)
    decreases Work(w)
  {
    if a :| Effective(w, limit, a) {
      InternalStepShrinksWork(w, limit, a);
      var rest := SomeScheduleEnds(Do(w, limit, a), limit);
      more := [a] + rest;
      assert more[1..] == rest;
    } else {
      more := [];
    }
  }
}
