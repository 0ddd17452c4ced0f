/**
 Whole runs of the master: completed batches, status reports from slaves, restarts, and crashes
 while a batch is being saved.
 */
module MasterRuns {
  import opened Allocation

  /** What a slave reports about a channel; only the database record is updated. */
  datatype Report = BotBanned | SuspendedChannel | JoinedChannel(botBanned: bool) | UnknownChannel

  /** The allocator's memory and the channel collection. */
  datatype Master = Master(book: Book, docs: map<string, Channel>)

  datatype Event =
    | Allocated(directory: map<string, string>, requests: seq<Request>)
    | Reported(id: string, report: Report)
    | Restarted(order: seq<Channel>)
      // the process dies when `saved` of the batch's writes have reached the database
    | Crashed(directory: map<string, string>, requests: seq<Request>, saved: nat, order: seq<Channel>)

  function UpdateOne(docs: map<string, Channel>, id: string, report: Report): map<string, Channel> {
    if id !in docs then docs
    else
      match report
      case BotBanned => docs[id := docs[id].(botBanned := true)]
      case SuspendedChannel => docs[id := docs[id].(state := Suspended)]
      case JoinedChannel(banned) => docs[id := docs[id].(state := Joined, botBanned := banned)]
      case UnknownChannel => docs[id := docs[id].(state := Unknown)]
  }

  function ResetStates(docs: map<string, Channel>): map<string, Channel> {
    map id | id in docs :: docs[id].(state := Unknown)
  }

  /** The documents in the order the database happens to return them. */
  ghost predicate Enumerates(order: seq<Channel>, docs: map<string, Channel>) {
    && (forall i, j :: 0 <= i < j < |order| ==> order[i].twitchId != order[j].twitchId)
    && (forall i :: 0 <= i < |order| ==> order[i].twitchId in docs && docs[order[i].twitchId] == order[i])
    && (forall id :: id in docs ==> exists i :: 0 <= i < |order| && order[i].twitchId == id)
  }

  /** Memory lost, `order` read back from the database. */
  function Reload(docs: map<string, Channel>, order: seq<Channel>): Master {
    Master(PutAll(EMPTY, order), ResetStates(docs))
  }

  function SavedDocs(m: Master, limit: nat, ev: Event): map<string, Channel>
    requires ev.Crashed?
  {
    var placed := Batch(m.book, limit, ev.directory, ev.requests).placed;
    UpsertAll(m.docs, if ev.saved < |placed| then placed[..ev.saved] else placed)
  }

  ghost predicate Enabled(m: Master, limit: nat, ev: Event) {
    match ev
    case Allocated(_, _) => true
    case Reported(_, _) => true
    case Restarted(order) => Enumerates(order, ResetStates(m.docs))
    case Crashed(_, _, _, order) => Enumerates(order, ResetStates(SavedDocs(m, limit, ev)))
  }

  function Apply(m: Master, limit: nat, ev: Event): Master {
    match ev
    case Allocated(directory, requests) =>
      var o := Batch(m.book, limit, directory, requests);
      Master(o.book, UpsertAll(m.docs, o.placed))
    case Reported(id, report) => m.(docs := UpdateOne(m.docs, id, report))
    case Restarted(order) => Reload(m.docs, order)
    case Crashed(_, _, _, order) => Reload(SavedDocs(m, limit, ev), order)
  }

  function Run(m: Master, limit: nat, evs: seq<Event>): Master {
    if evs == [] then m else Apply(Run(m, limit, evs[..|evs| - 1]), limit, evs[|evs| - 1])
  }

  ghost predicate ValidRun(m: Master, limit: nat, evs: seq<Event>) {
    evs != [] ==>
      && ValidRun(m, limit, evs[..|evs| - 1])
      && Enabled(Run(m, limit, evs[..|evs| - 1]), limit, evs[|evs| - 1])
  }

  /** The same events for an allocator that never loses its memory: restarts and reports do
      nothing, and a crash leaves the part of its batch that was saved. */
  function Undisturbed(b: Book, limit: nat, evs: seq<Event>): Book {
    if evs == [] then b
    else
      var before := Undisturbed(b, limit, evs[..|evs| - 1]);
      match evs[|evs| - 1]
      case Allocated(directory, requests) => Batch(before, limit, directory, requests).book
      case Reported(_, _) => before
      case Restarted(_) => before
      case Crashed(directory, requests, saved, _) =>
        var placed := Batch(before, limit, directory, requests).placed;
        PutAll(before, if saved < |placed| then placed[..saved] else placed)
  }

  ghost predicate DocsMatch(m: Master) {
    && m.docs.Keys == m.book.index.Keys
    && forall id :: id in m.docs ==>
      m.docs[id].twitchId == id && m.docs[id].edgeNode == m.book.index[id].edgeNode
  }

  ghost predicate Inv(m: Master) {
    Agrees(m.book) && LastEdgeUsed(m.book) && DocsMatch(m)
  }

  const FRESH := Master(EMPTY, map[])

  // ---------------------------------------------------------------- saving a batch

  lemma {:induction false} SavingKeepsDocsMatch(m: Master, cs: seq<Channel>)
    requires DocsMatch(m)
    ensures DocsMatch(Master(PutAll(m.book, cs), UpsertAll(m.docs, cs)))
  {
    if cs == [] {
    } else {
      SavingKeepsDocsMatch(m, cs[..|cs| - 1]);
    }
  }

  /** The first `saved` records of a batch are what placing some of its users writes. */
  lemma {:induction false} SavedIsAPrefix(b: Book, limit: nat, users: seq<User>, asked: map<string, Request>,
                                          saved: nat)
    returns (j: nat)
    requires Covered(users, asked) && saved <= |PlaceAll(b, limit, users, asked).placed|
    ensures j <= |users|
    ensures PlaceAll(b, limit, users[..j], asked).placed == PlaceAll(b, limit, users, asked).placed[..saved]
  {
    var o := PlaceAll(b, limit, users, asked);
    if saved == |o.placed| {
      j := |users|;
      assert users[..j] == users;
    } else {
      var n := |users| - 1;
      j := SavedIsAPrefix(b, limit, users[..n], asked, saved);
      assert users[..n][..j] == users[..j];
    }
  }

  /** Whatever part of a batch was saved, it is a legitimate placement. */
  lemma SavedPartIsSound(b: Book, limit: nat, directory: map<string, string>, requests: seq<Request>, saved: nat)
    requires Agrees(b)
    ensures var placed := Batch(b, limit, directory, requests).placed;
            var kept := PutAll(b, if saved < |placed| then placed[..saved] else placed);
            && Agrees(kept)
            && (LastEdgeUsed(b) ==> LastEdgeUsed(kept))
  {
    var users, asked := Resolve(directory, FirstIds(requests)), LastRequests(requests);
    BatchIsCovered(directory, requests);
    var placed := Batch(b, limit, directory, requests).placed;
    var k := if saved < |placed| then saved else |placed|;
    assert placed[..|placed|] == placed;
    var j := SavedIsAPrefix(b, limit, users, asked, k);
    PlacedIsWhatWasStored(b, limit, users[..j], asked);
    PlaceAllKeepsInvariants(b, limit, users[..j], asked);
  }

  lemma BatchIsItsOwnSavedPart(b: Book, limit: nat, directory: map<string, string>, requests: seq<Request>)
    ensures var o := Batch(b, limit, directory, requests); o.book == PutAll(b, o.placed)
  {
    BatchIsCovered(directory, requests);
    PlacedIsWhatWasStored(b, limit, Resolve(directory, FirstIds(requests)), LastRequests(requests));
  }

  // ---------------------------------------------------------------- loading

  /** The documents alone determine the placement: two books that agree on every id's edge, and
      whose last edge is used, are placed alike. */
  lemma IndexDeterminesPlacement(a: Book, b: Book)
    requires Agrees(a) && Agrees(b) && LastEdgeUsed(a) && LastEdgeUsed(b)
    requires a.index.Keys == b.index.Keys
    requires forall id :: id in a.index ==> a.index[id].edgeNode == b.index[id].edgeNode
    ensures SamePlacement(a, b)
  {
    NotLonger(a, b);
    NotLonger(b, a);
    forall e | 0 <= e < |a.edges|
      ensures a.edges[e].Keys == b.edges[e].Keys
    {
      forall id
        ensures id in a.edges[e] <==> id in b.edges[e]
      {
        if id in a.edges[e] {
          assert id in a.index && b.index[id].edgeNode == e;
        }
        if id in b.edges[e] {
          assert id in b.index && a.index[id].edgeNode == e;
        }
      }
    }
  }

  lemma NotLonger(a: Book, b: Book)
    requires Agrees(a) && Agrees(b) && LastEdgeUsed(a)
    requires forall id :: id in a.index ==> id in b.index && a.index[id].edgeNode == b.index[id].edgeNode
    ensures |a.edges| <= |b.edges|
  {
    if a.edges != [] {
      var last := |a.edges| - 1;
      assert a.edges[last] != map[];
      var id :| id in a.edges[last];
      assert id in a.index;
    }
  }

  /** A known id was loaded from some document. */
  lemma {:induction false} LoadedFrom(order: seq<Channel>, id: string) returns (i: nat)
    requires id in PutAll(EMPTY, order).index
    ensures i < |order| && order[i].twitchId == id && PutAll(EMPTY, order).index[id] == order[i]
  {
    var n := |order| - 1;
    if order[n].twitchId == id {
      i := n;
    } else {
      i := LoadedFrom(order[..n], id);
    }
  }

  /** Every document is loaded, and stays as it was loaded. */
  lemma {:induction false} LoadedAt(order: seq<Channel>, i: nat)
    requires i < |order|
    requires forall j, k :: 0 <= j < k < |order| ==> order[j].twitchId != order[k].twitchId
    ensures var index := PutAll(EMPTY, order).index;
      order[i].twitchId in index && index[order[i].twitchId] == order[i]
  {
    var n := |order| - 1;
    if i < n {
      LoadedAt(order[..n], i);
      assert order[i].twitchId != order[n].twitchId;
    }
  }

  lemma PutNewKeepsShape(b: Book, c: Channel)
    requires Agrees(b) && LastEdgeUsed(b) && c.twitchId !in b.index
    ensures Agrees(Put(b, c)) && LastEdgeUsed(Put(b, c))
  {
    PutKeepsAgreement(b, c);
    var after := Put(b, c);
    var last := |after.edges| - 1;
    if c.edgeNode == last {
      assert c.twitchId in after.edges[last];
    } else {
      assert after.edges[last] == b.edges[last];
    }
  }

  lemma NotLoadedYet(order: seq<Channel>)
    requires order != []
    requires forall i, j :: 0 <= i < j < |order| ==> order[i].twitchId != order[j].twitchId
    ensures var n := |order| - 1; order[n].twitchId !in PutAll(EMPTY, order[..n]).index
  {
    var n := |order| - 1;
    if order[n].twitchId in PutAll(EMPTY, order[..n]).index {
      var i := LoadedFrom(order[..n], order[n].twitchId);
    }
  }

  lemma {:induction false} LoadedBook(order: seq<Channel>)
    requires forall i, j :: 0 <= i < j < |order| ==> order[i].twitchId != order[j].twitchId
    ensures Agrees(PutAll(EMPTY, order)) && LastEdgeUsed(PutAll(EMPTY, order))
  {
    if order == [] {
    } else {
      var n := |order| - 1;
      LoadedBook(order[..n]);
      NotLoadedYet(order);
      PutNewKeepsShape(PutAll(EMPTY, order[..n]), order[n]);
    }
  }

  lemma LoadedIndexIsDocs(order: seq<Channel>, docs: map<string, Channel>)
    requires Enumerates(order, docs)
    ensures PutAll(EMPTY, order).index == docs
  {
    var b := PutAll(EMPTY, order);
    forall id
      ensures id in b.index <==> id in docs
      ensures id in docs ==> b.index[id] == docs[id]
    {
      if id in b.index {
        var i := LoadedFrom(order, id);
      }
      if id in docs {
        var i :| 0 <= i < |order| && order[i].twitchId == id;
        LoadedAt(order, i);
      }
    }
  }

  /** Whatever the database holds, and in whatever order it answers, a load leaves index, edges and
      documents in agreement and no empty edge at the end. */
  lemma LoadEstablishesInv(docs: map<string, Channel>, order: seq<Channel>)
    requires Enumerates(order, ResetStates(docs))
    ensures Inv(Reload(docs, order))
  {
    LoadedBook(order);
    LoadedIndexIsDocs(order, ResetStates(docs));
  }

  /** Loading the saved documents, in any order, rebuilds the placement and the edge count. */
  lemma ReloadRebuilds(m: Master, order: seq<Channel>)
    requires Inv(m) && Enumerates(order, ResetStates(m.docs))
    ensures Inv(Reload(m.docs, order))
    ensures SamePlacement(Reload(m.docs, order).book, m.book)
  {
    LoadEstablishesInv(m.docs, order);
    LoadedIndexIsDocs(order, ResetStates(m.docs));
    IndexDeterminesPlacement(PutAll(EMPTY, order), m.book);
  }

  /** A load into fresh memory knows exactly the documents: each keeps its record, with the state
      unknown, in the database, in the index and on its edge. */
  lemma LoadResetsStates(docs: map<string, Channel>, limit: nat, order: seq<Channel>, id: string)
    requires Enumerates(order, ResetStates(docs))
    ensures var m := Apply(Master(EMPTY, docs), limit, Restarted(order));
      && (id in m.docs <==> id in docs) && (id in m.book.index <==> id in docs)
      && (id in docs ==>
        var c := docs[id].(state := Unknown);
        && m.docs[id] == c && m.book.index[id] == c
        && c.edgeNode < |m.book.edges| && id in m.book.edges[c.edgeNode] && m.book.edges[c.edgeNode][id] == c)
  {
    LoadEstablishesInv(docs, order);
    LoadedIndexIsDocs(order, ResetStates(docs));
  }

  // ---------------------------------------------------------------- reports

  /** What each report writes into the record it names; it touches no other record and no placement. */
  lemma ReportLaw(m: Master, limit: nat, id: string, report: Report, other: string)
    ensures var t := Apply(m, limit, Reported(id, report));
      && t.book == m.book && t.docs.Keys == m.docs.Keys
      && (other in m.docs && other != id ==> t.docs[other] == m.docs[other])
      && (id in m.docs ==>
        var c, d := m.docs[id], t.docs[id];
        && (report.BotBanned? ==> d == c.(botBanned := true))
        && (report.SuspendedChannel? ==> d == c.(state := Suspended))
        && (report.JoinedChannel? ==> d == c.(state := Joined, botBanned := report.botBanned))
        && (report.UnknownChannel? ==> d == c.(state := Unknown)))
  {
  }

  /** Two records that differ at most in what slaves report. */
  predicate SameButStatus(c: Channel, d: Channel) {
    c.(state := d.state, botBanned := d.botBanned) == d
  }

  /** Reports about any channels, in any number, change nothing in the database but states and ban
      flags, and nothing at all about channels they do not name. */
  lemma {:induction false} ReportsTouchOnlyStatus(m: Master, limit: nat, evs: seq<Event>, id: string)
    requires forall i :: 0 <= i < |evs| ==> evs[i].Reported?
    ensures var after := Run(m, limit, evs);
      && after.book == m.book
      && (id in after.docs <==> id in m.docs)
      && (id in m.docs ==> SameButStatus(m.docs[id], after.docs[id]))
      && (id in m.docs && (forall i :: 0 <= i < |evs| ==> evs[i].id != id) ==> after.docs[id] == m.docs[id])
  {
    if evs == [] {
    } else {
      ReportsTouchOnlyStatus(m, limit, evs[..|evs| - 1], id);
    }
  }

  // ---------------------------------------------------------------- runs

  lemma ApplyKeepsInv(m: Master, limit: nat, ev: Event)
    requires Inv(m) && Enabled(m, limit, ev)
    ensures Inv(Apply(m, limit, ev))
  {
    match ev
    case Allocated(directory, requests) =>
      var o := Batch(m.book, limit, directory, requests);
      SavedPartIsSound(m.book, limit, directory, requests, |o.placed|);
      BatchIsItsOwnSavedPart(m.book, limit, directory, requests);
      SavingKeepsDocsMatch(m, o.placed);
    case Reported(id, report) =>
    case Restarted(order) =>
      ReloadRebuilds(m, order);
    case Crashed(directory, requests, saved, order) =>
      var kept := KeptByCrash(m, limit, ev);
      ReloadRebuilds(kept, order);
  }

  /** The master as it would be if a crash only lost the unsaved part of the batch. */
  lemma KeptByCrash(m: Master, limit: nat, ev: Event) returns (kept: Master)
    requires Inv(m) && ev.Crashed?
    ensures Inv(kept) && kept.docs == SavedDocs(m, limit, ev)
    ensures var placed := Batch(m.book, limit, ev.directory, ev.requests).placed;
            kept.book == PutAll(m.book, if ev.saved < |placed| then placed[..ev.saved] else placed)
  {
    var placed := Batch(m.book, limit, ev.directory, ev.requests).placed;
    var cs := if ev.saved < |placed| then placed[..ev.saved] else placed;
    SavedPartIsSound(m.book, limit, ev.directory, ev.requests, ev.saved);
    SavingKeepsDocsMatch(m, cs);
    kept := Master(PutAll(m.book, cs), UpsertAll(m.docs, cs));
  }

  lemma PlaceSamePlacement(a: Book, b: Book, limit: nat, u: User, r: Request)
    requires Agrees(a) && Agrees(b) && SamePlacement(a, b)
    ensures NewRecord(a, limit, u, r) == NewRecord(b, limit, u, r)
    ensures SamePlacement(Place(a, limit, u, r), Place(b, limit, u, r))
  {
    SamePlacementSameEdge(a, b, limit, u.id);
    var c := NewRecord(a, limit, u, r);
    PutKeepsSamePlacement(a, b, c, c);
  }

  lemma {:induction false} PlaceAllSamePlacement(a: Book, b: Book, limit: nat, users: seq<User>,
                                                 asked: map<string, Request>)
    requires Agrees(a) && Agrees(b) && SamePlacement(a, b) && Covered(users, asked)
    ensures var x, y := PlaceAll(a, limit, users, asked), PlaceAll(b, limit, users, asked);
      && SamePlacement(x.book, y.book)
      && x.placed == y.placed
  {
    if users == [] {
    } else {
      var n := |users| - 1;
      PlaceAllSamePlacement(a, b, limit, users[..n], asked);
      PlaceAllKeepsInvariants(a, limit, users[..n], asked);
      PlaceAllKeepsInvariants(b, limit, users[..n], asked);
      var x, y := PlaceAll(a, limit, users[..n], asked).book, PlaceAll(b, limit, users[..n], asked).book;
      if users[n].id != "" {
        PlaceSamePlacement(x, y, limit, users[n], asked[users[n].id]);
      }
    }
  }

  lemma {:induction false} PutAllSamePlacement(a: Book, b: Book, cs: seq<Channel>)
    requires SamePlacement(a, b)
    ensures SamePlacement(PutAll(a, cs), PutAll(b, cs))
  {
    if cs == [] {
    } else {
      var n := |cs| - 1;
      PutAllSamePlacement(a, b, cs[..n]);
      PutKeepsSamePlacement(PutAll(a, cs[..n]), PutAll(b, cs[..n]), cs[n], cs[n]);
    }
  }

  /** Placing a batch in two books that are placed alike writes the same records and leaves them
      placed alike. */
  lemma BatchSamePlacement(a: Book, b: Book, limit: nat, directory: map<string, string>, requests: seq<Request>)
    requires Agrees(a) && Agrees(b) && SamePlacement(a, b)
    ensures var x, y := Batch(a, limit, directory, requests), Batch(b, limit, directory, requests);
      SamePlacement(x.book, y.book) && x.placed == y.placed
  {
    BatchIsCovered(directory, requests);
    PlaceAllSamePlacement(a, b, limit, Resolve(directory, FirstIds(requests)), LastRequests(requests));
  }

  /** Restarts, crashes and reports are invisible to the placement: after any run, the ids are on
      the same edges, and the edges are as many, as in an allocator that never lost its memory. */
  lemma {:induction false} RestartIsInvisible(m: Master, limit: nat, evs: seq<Event>)
    requires Inv(m) && ValidRun(m, limit, evs)
    ensures Inv(Run(m, limit, evs))
    ensures Agrees(Undisturbed(m.book, limit, evs))
    ensures SamePlacement(Run(m, limit, evs).book, Undisturbed(m.book, limit, evs))
  {
    if evs == [] {
    } else {
      var n := |evs| - 1;
      var ev := evs[n];
      RestartIsInvisible(m, limit, evs[..n]);
      var before := Run(m, limit, evs[..n]);
      var ideal := Undisturbed(m.book, limit, evs[..n]);
      ApplyKeepsInv(before, limit, ev);
      match ev
      case Allocated(directory, requests) =>
        BatchSamePlacement(before.book, ideal, limit, directory, requests);
        BatchIsItsOwnSavedPart(ideal, limit, directory, requests);
        SavedPartIsSound(ideal, limit, directory, requests, |Batch(ideal, limit, directory, requests).placed|);
      case Reported(_, _) =>
      case Restarted(order) =>
        ReloadRebuilds(before, order);
      case Crashed(directory, requests, saved, order) =>
        var kept := KeptByCrash(before, limit, ev);
        ReloadRebuilds(kept, order);
        BatchSamePlacement(before.book, ideal, limit, directory, requests);
        SavedPartIsSound(ideal, limit, directory, requests, saved);
        var placed := Batch(ideal, limit, directory, requests).placed;
        PutAllSamePlacement(before.book, ideal, if saved < |placed| then placed[..saved] else placed);
    }
  }

  lemma {:induction false} StoringNeverMoves(b: Book, limit: nat, users: seq<User>, asked: map<string,
                                             Request>, id: string)
    requires Covered(users, asked) && Agrees(b) && id in b.index
    ensures var after := PlaceAll(b, limit, users, asked).book;
            id in after.index && after.index[id].edgeNode == b.index[id].edgeNode
  {
    if users == [] {
    } else {
      StoringNeverMoves(b, limit, users[..|users| - 1], asked, id);
    }
  }

  lemma ApplyNeverMoves(m: Master, limit: nat, ev: Event, id: string)
    requires Inv(m) && Enabled(m, limit, ev) && id in m.book.index
    ensures var after := Apply(m, limit, ev).book;
            id in after.index && after.index[id].edgeNode == m.book.index[id].edgeNode
  {
    ApplyKeepsInv(m, limit, ev);
    match ev
    case Allocated(directory, requests) =>
      BatchIsCovered(directory, requests);
      StoringNeverMoves(m.book, limit, Resolve(directory, FirstIds(requests)), LastRequests(requests), id);
    case Reported(_, _) =>
    case Restarted(order) =>
      ReloadRebuilds(m, order);
      SamePlacementSameIndex(Reload(m.docs, order).book, m.book, id);
    case Crashed(directory, requests, saved, order) =>
      var users, asked := Resolve(directory, FirstIds(requests)), LastRequests(requests);
      BatchIsCovered(directory, requests);
      var placed := Batch(m.book, limit, directory, requests).placed;
      assert placed[..|placed|] == placed;
      var j := SavedIsAPrefix(m.book, limit, users, asked, if saved < |placed| then saved else |placed|);
      PlacedIsWhatWasStored(m.book, limit, users[..j], asked);
      StoringNeverMoves(m.book, limit, users[..j], asked, id);
      var kept := KeptByCrash(m, limit, ev);
      ReloadRebuilds(kept, order);
      SamePlacementSameIndex(Reload(kept.docs, order).book, kept.book, id);
  }

  lemma RunKeepsInv(m: Master, limit: nat, evs: seq<Event>)
    requires Inv(m) && ValidRun(m, limit, evs)
    ensures Inv(Run(m, limit, evs))
  {
    RestartIsInvisible(m, limit, evs);
  }

  /** An id that has an edge keeps it for the rest of the run, across restarts and crashes. */
  lemma {:induction false} IdsNeverMove(m: Master, limit: nat, evs: seq<Event>, k: nat, id: string)
    requires Inv(m) && ValidRun(m, limit, evs) && k <= |evs|
    ensures var early, late := Run(m, limit, evs[..k]).book, Run(m, limit, evs).book;
      id in early.index ==> id in late.index && late.index[id].edgeNode == early.index[id].edgeNode
  {
    if k == |evs| {
      assert evs[..k] == evs;
    } else {
      var n := |evs| - 1;
      var before := Run(m, limit, evs[..n]);
      assert evs[..n][..k] == evs[..k];
      IdsNeverMove(m, limit, evs[..n], k, id);
      RunKeepsInv(m, limit, evs[..n]);
      if id in before.book.index {
        ApplyNeverMoves(before, limit, evs[n], id);
      }
    }
  }
}
