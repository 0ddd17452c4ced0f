/**
 The slave's connections and their manager as objects that are updated in place. Every method is
 proved to compute the function of `SlaveState` that bears its name.
 */
module SlaveManager {
  import opened SlaveState

  class Connection {
    var channels: map<string, Entry>
    var length: int
    /** The goroutines of joins that have not ended. */
    var goroutines: multiset<Goroutine>
    var nextToken: nat
    const idx: nat
    const anon: bool

    ghost var joins: nat
    ghost var rejoins: nat
    ghost var dropped: nat
    ghost var vacated: nat

    ghost function State(): Conn
      reads this
    {
      Conn(channels, length, goroutines, nextToken, joins, rejoins, dropped, vacated)
    }

    constructor (idx: nat, anon: bool)
      ensures this.idx == idx && this.anon == anon && State() == NEW_CONN
    {
      this.idx, this.anon := idx, anon;
      channels, length, goroutines, nextToken := map[], 0, multiset{}, 0;
      joins, rejoins, dropped, vacated := 0, 0, 0, 0;
    }

    /** Store the state and the time of an entry, as `Channel.Update` does. */
    method Update(login: string, state: ChannelState, now: int)
      requires login in channels
      modifies this`channels
      ensures channels == old(channels)[login := old(channels)[login].(state := state, lastEvent := now)]
    {
      channels := channels[login := channels[login].(state := state, lastEvent := now)];
    }

    method JoinChannel(channel: Chan, io: Io)
      modifies this
      ensures State() == SlaveState.JoinChannel(old(State()), channel, io)
    {
      var login := channel.login;
      if login in channels {
        channels := channels[login := channels[login].(raw := channel)];
        if channels[login].state == Joined {
          return;
        }
      } else {
        channels := channels[login := Entry(WaitingLimits, io.now, channel, nextToken)];
        nextToken := nextToken + 1;
        length := length + 1;
        joins := joins + 1;
      }

      StartJoin(login, io);
    }

    /** The end of a join: note the time and start the goroutine, if the client is connected. */
    method StartJoin(login: string, io: Io)
      requires login in channels && channels[login].state != Joined
      modifies this`channels, this`goroutines
      ensures var e := old(channels)[login];
        && channels == old(channels)[login := e.(lastEvent := io.now)]
        && goroutines == old(goroutines) + Starts(e, login, io)
    {
      Update(login, channels[login].state, io.now);
      if io.connected {
        goroutines := goroutines + multiset{Goroutine(login, channels[login].token, Spawned)};
      }
    }

    /** Update the record a goroutine holds; it is visible only while it is still stored. */
    method UpdateHeld(g: Goroutine, state: ChannelState, now: int)
      modifies this`channels
      ensures channels == Touch(old(channels), g, state, now)
    {
      if g.login in channels && channels[g.login].token == g.token {
        Update(g.login, state, now);
      }
    }

    /** Run a goroutine from one point where it waits to the next. */
    method Resume(g: Goroutine, now: int, ok: bool)
      requires g in goroutines
      modifies this
      ensures State() == RunGoroutine(old(State()), anon, g, now, ok)
    {
      goroutines := goroutines - multiset{g};
      match g.stage
      case Spawned =>
        if !anon {
          UpdateHeld(g, WaitingLimits, now);
          goroutines := goroutines + multiset{g.(stage := InLimiter)};
        } else {
          UpdateHeld(g, JoinRequested, now);
          goroutines := goroutines + multiset{g.(stage := Writing)};
        }
      case InLimiter =>
        if ok {
          UpdateHeld(g, JoinRequested, now);
          goroutines := goroutines + multiset{g.(stage := Writing)};
        }
      case Writing =>
        if !ok {
          UpdateHeld(g, Parted, now);
        }
    }

    /** History only: the last join was for a channel that already had its seat here. */
    ghost method CountRejoin()
      modifies this`rejoins
      ensures rejoins == old(rejoins) + 1
    {
      rejoins := rejoins + 1;
    }

    method PartChannel(login: string)
      modifies this
      ensures State() == SlaveState.PartChannel(old(State()), login)
    {
      length := length - 1;
      if login !in channels {
        vacated := vacated + 1;
      }
      channels := channels - {login};
    }

    /** Join a channel again from the unknown state. */
    method RefreshEntry(key: string, io: Io)
      requires Keyed(State()) && key in channels
      modifies this
      ensures Keyed(State()) && State() == RefreshOne(old(State()), key, io)
    {
      var v := channels[key];
      channels := channels[key := v.(state := Unknown, lastEvent := io.now)];
      JoinChannel(v.raw, io);
    }

    /** What the sweep does with one entry. */
    method SweepEntry(key: string, io: Io)
      requires Keyed(State()) && key in channels
      modifies this
      ensures Keyed(State()) && State() == SweepOne(old(State()), key, io)
    {
      var v := channels[key];
      if (v.state == Joined || v.state == Suspended) && v.lastEvent < io.now - STALE_AFTER {
        RefreshEntry(key, io);
      } else if v.state == JoinRequested && v.lastEvent < io.now - JOIN_TIMEOUT {
        channels := channels - {key};
        dropped := dropped + 1;
      }
    }

    /** One tick of the sweep, over the entries in any order. */
    method Sweep(ios: string -> Io)
      requires Keyed(State())
      modifies this
      ensures Keyed(State())
      ensures State() == SlaveState.Sweep(old(State()), ios)
    {
      ghost var before := State();
      var logins, seen := channels.Keys, {};
      NothingVisited(before, ios);
      while seen != logins
        invariant Keyed(State()) && seen <= logins
        invariant State() == SweepSome(before, seen, ios)
        decreases logins - seen
      {
        var key :| key in logins && key !in seen;
        SweepOneMore(before, seen, key, ios);
        SweepEntry(key, ios(key));
        seen := seen + {key};
      }
      SweepAll(before, seen, ios);
    }

    /** The connection came up: join every channel again. */
    method OnConnect(ios: string -> Io)
      requires Keyed(State())
      modifies this
      ensures Keyed(State())
      ensures State() == SlaveState.Reconnect(old(State()), ios)
    {
      ghost var before := State();
      var logins, seen := channels.Keys, {};
      NothingVisited(before, ios);
      while seen != logins
        invariant Keyed(State()) && seen <= logins
        invariant State() == RefreshSome(before, seen, ios)
        decreases logins - seen
      {
        var key :| key in logins && key !in seen;
        RefreshOneMore(before, seen, key, ios);
        RefreshEntry(key, ios(key));
        seen := seen + {key};
      }
      RefreshAll(before, seen, ios);
    }

    method ConfirmJoined(login: string, now: int)
      requires login in channels
      modifies this`channels
      ensures channels == old(channels)[login := ConfirmJoin(old(channels)[login], anon, now)]
    {
      var e := channels[login];
      if e.state != Joined && e.raw.botBanned && !anon {
        channels := channels[login := e.(raw := e.raw.(botBanned := false))];
      }
      Update(login, Joined, now);
    }

    /** The server parted us: join again. */
    method Rejoin(login: string, io: Io)
      requires Keyed(State()) && login in channels
      modifies this
      ensures Keyed(State())
      ensures var e := old(channels)[login].(state := Parted);
        && channels == old(channels)[login := JoinEntry(e, e.raw, io)]
        && State() == old(State()).(entries := channels, goroutines := old(goroutines) + Starts(e, login, io))
    {
      Update(login, Parted, io.now);
      JoinChannel(channels[login].raw, io);
    }

    /** The bot is banned: from now on the channel is to be joined anonymously. */
    method MarkBanned(login: string, now: int) returns (raw: Chan)
      requires login in channels
      modifies this`channels
      ensures raw == old(channels)[login].raw.(botBanned := true, useAnonymous := true)
      ensures channels == old(channels)[login := old(channels)[login].(raw := raw, state := Banned, lastEvent := now)]
    {
      raw := channels[login].raw.(botBanned := true, useAnonymous := true);
      channels := channels[login := channels[login].(raw := raw)];
      Update(login, Banned, now);
    }

    /** React to a message for a channel that has an entry; `banned` is the channel the manager has
        to join anonymously, if any. */
    method React(login: string, m: Message, username: string, io: Io) returns (banned: seq<Chan>)
      requires Keyed(State()) && login in channels
      modifies this
      ensures channels == old(channels)[login := SlaveState.OnMessage(old(channels)[login], m, username, anon, io)]
      ensures State() == old(State()).(entries := channels, goroutines :=
        old(goroutines) + HeardGoroutines(old(channels)[login], login, m, username, io))
      ensures banned == if m.BannedNotice? then [channels[login].raw] else []
    {
      banned := [];
      Update(login, channels[login].state, io.now);
      match m
      case RoomState =>
        ConfirmJoined(login, io.now);
      case Join(user) =>
        if user == username || user == ANON_USER {
          ConfirmJoined(login, io.now);
        }
      case Part(user) =>
        if user == username {
          Rejoin(login, io);
        }
      case SuspendedNotice =>
        Update(login, Suspended, io.now);
      case BannedNotice =>
        var raw := MarkBanned(login, io.now);
        banned := [raw];
      case Other =>
    }

    method OnMessage(login: string, m: Message, username: string, io: Io) returns (banned: seq<Chan>)
      requires Keyed(State())
      modifies this
      ensures Keyed(State()) && State() == Hear(old(State()), login, m, username, anon, io)
      ensures banned == if login in channels && m.BannedNotice? then [channels[login].raw] else []
    {
      banned := [];
      if login in channels {
        banned := React(login, m, username, io);
      }
    }
  }

  /** One of the manager's two connection maps with its counter. */
  class ConnPool {
    const anon: bool
    var conns: map<nat, Connection>
    var next: nat

    ghost var Repr: set<Connection>
    ghost var States: seq<Conn>

    /** The keys are exactly the numbers below the counter, and every connection knows its own
        number and pool. */
    ghost predicate Valid()
      reads this, Repr
    {
      && |States| == next
      && (forall i: nat :: i in conns <==> i < next)
      && forall i: nat :: i in conns ==>
        && conns[i] in Repr && conns[i].idx == i && conns[i].anon == anon
        && conns[i].State() == States[i] && Keyed(States[i])
    }

    constructor (anon: bool)
      ensures Valid() && States == [] && this.anon == anon && Repr == {}
    {
      this.anon, conns, next, Repr, States := anon, map[], 0, {}, [];
    }

    /** Open a connection at the end of the pool. */
    method Open()
      requires Valid()
      modifies this
      ensures Valid() && fresh(Repr - old(Repr)) && States == old(States) + [NEW_CONN]
    {
      var conn := new Connection(next, anon);
      conns := conns[next := conn];
      next := next + 1;
      Repr, States := Repr + {conn}, States + [NEW_CONN];
    }

    /** The number of the last connection when it has room, otherwise of a new one. */
    method LastWithRoom(limit: nat) returns (i: nat)
      requires Valid()
      modifies this
      ensures Valid() && fresh(Repr - old(Repr))
      ensures States == PoolWithRoom(old(States), limit) && i == |States| - 1
    {
      if next == 0 {
        Open();
      } else if conns[next - 1].length >= limit {
        Open();
      }
      i := next - 1;
    }

    /** Join through one connection; a channel that has its seat there but no entry rejoins. */
    method JoinOn(i: nat, channel: Chan, io: Io, ghost again: bool)
      requires Valid() && i < next
      modifies this`States, Repr
      ensures Valid()
      ensures var c := old(States)[i];
        States == old(States)[i :=
          if again then JoinAgain(c, channel, io) else SlaveState.JoinChannel(c, channel, io)]
    {
      var conn := conns[i];
      ghost var c := conn.State();
      JoinStaysKeyed(c, channel, io);
      conn.JoinChannel(channel, io);
      ghost var joined := SlaveState.JoinChannel(c, channel, io);
      if again {
        joined := JoinAgain(c, channel, io);
        if channel.login !in c.entries {
          conn.CountRejoin();
        }
      }
      assert conn.State() == joined && Keyed(joined);
      States := States[i := joined];
    }

    method PartOn(i: nat, login: string)
      requires Valid() && i < next
      modifies this`States, Repr
      ensures Valid()
      ensures States == old(States)[i := SlaveState.PartChannel(old(States)[i], login)]
    {
      var conn := conns[i];
      conn.PartChannel(login);
      States := States[i := conn.State()];
    }

    method HearOn(i: nat, login: string, m: Message, username: string, io: Io) returns (banned: seq<Chan>)
      requires Valid() && i < next
      modifies this`States, Repr
      ensures Valid()
      ensures States == old(States)[i := Hear(old(States)[i], login, m, username, anon, io)]
      ensures banned ==
        if login in States[i].entries && m.BannedNotice? then [States[i].entries[login].raw] else []
    {
      var conn := conns[i];
      banned := conn.OnMessage(login, m, username, io);
      States := States[i := conn.State()];
    }

    method ResumeOn(i: nat, g: Goroutine, now: int, ok: bool)
      requires Valid() && i < next && g in States[i].goroutines
      modifies this`States, Repr
      ensures Valid()
      ensures States == old(States)[i := RunGoroutine(old(States)[i], anon, g, now, ok)]
    {
      var conn := conns[i];
      RunStaysKeyed(conn.State(), anon, g, now, ok);
      conn.Resume(g, now, ok);
      States := States[i := conn.State()];
    }

    method SweepOn(i: nat, ios: string -> Io)
      requires Valid() && i < next
      modifies this`States, Repr
      ensures Valid()
      ensures States == old(States)[i := SlaveState.Sweep(old(States)[i], ios)]
    {
      var conn := conns[i];
      conn.Sweep(ios);
      States := States[i := conn.State()];
    }

    method ConnectOn(i: nat, ios: string -> Io)
      requires Valid() && i < next
      modifies this`States, Repr
      ensures Valid()
      ensures States == old(States)[i := Reconnect(old(States)[i], ios)]
    {
      var conn := conns[i];
      conn.OnConnect(ios);
      States := States[i := conn.State()];
    }
  }

  class Manager {
    const limit: nat
    const ircConns: ConnPool
    const ircAnonConns: ConnPool
    var channels: map<string, Seat>

    ghost var Repr: set<object>

    function PoolFor(anon: bool): ConnPool {
      if anon then ircAnonConns else ircConns
    }

    ghost predicate Valid()
      reads this, Repr
    {
      && {ircConns, ircAnonConns} <= Repr && ircConns.Repr <= Repr && ircAnonConns.Repr <= Repr
      && ircConns.Valid() && !ircConns.anon
      && ircAnonConns.Valid() && ircAnonConns.anon
      && ircConns.Repr !! ircAnonConns.Repr
      && SeatsExist(View())
    }

    ghost function View(): Slave
      reads this, ircConns, ircAnonConns
    {
      Slave(channels, ircConns.States, ircAnonConns.States)
    }

    constructor (limit: nat)
      ensures Valid() && View() == NO_CHANNELS && SeatsExist(View()) && this.limit == limit && fresh(Repr)
    {
      this.limit := limit;
      ircConns := new ConnPool(false);
      ircAnonConns := new ConnPool(true);
      channels := map[];
      Repr := {ircConns, ircAnonConns};
    }

    /** The number of a connection of the pool that has room. */
    method ConnWithRoom(anon: bool) returns (idx: nat)
      requires Valid()
      modifies this`Repr, Repr
      ensures Valid() && fresh(Repr - old(Repr))
      ensures View() == WithPool(old(View()), anon, PoolWithRoom(Pool(old(View()), anon), limit))
      ensures idx == |Pool(View(), anon)| - 1
    {
      if anon {
        idx := ircAnonConns.LastWithRoom(limit);
      } else {
        idx := ircConns.LastWithRoom(limit);
      }
      Repr := Repr + PoolFor(anon).Repr;
    }

    /** Give a channel the last connection of its pool, opening one when it is full. */
    method Reserve(id: string, anon: bool) returns (seat: Seat)
      requires Valid()
      modifies this, Repr
      ensures Valid() && fresh(Repr - old(Repr))
      ensures View() == SlaveState.Reserve(old(View()), limit, id, anon)
      ensures seat == Seat(|Pool(View(), anon)| - 1, anon)
    {
      ghost var before := View();
      var idx := ConnWithRoom(anon);
      ghost var grown := View();
      seat := Seat(idx, anon);
      channels := channels[id := seat];
      assert View() == grown.(seats := grown.seats[id := seat]);
      SeatAfterGrowing(before, limit, id, anon);
      assert View() == SlaveState.Reserve(before, limit, id, anon);
    }

    /** Join a channel through the connection of its seat. */
    method JoinSeat(seat: Seat, channel: Chan, io: Io, ghost again: bool)
      requires Valid() && seat.conn < |Pool(View(), seat.anon)|
      modifies Repr
      ensures Valid() && Repr == old(Repr)
      ensures var c := Pool(old(View()), seat.anon)[seat.conn];
        View() == WithConn(old(View()), seat.anon, seat.conn,
          if again then JoinAgain(c, channel, io) else SlaveState.JoinChannel(c, channel, io))
    {
      PoolFor(seat.anon).JoinOn(seat.conn, channel, io, again);
    }

    method Allocate(channel: Chan, io: Io)
      requires Valid()
      modifies this, Repr
      ensures Valid() && fresh(Repr - old(Repr))
      ensures View() == SlaveState.Allocate(old(View()), limit, channel, io)
    {
      ghost var before := View();
      var seat := Reserve(channel.id, channel.useAnonymous);
      ghost var reserved := View();
      JoinSeat(seat, channel, io, false);
      JoinAfterReserving(before, reserved, View(), limit, seat, channel, io);
    }

    method Leave(channel: Chan)
      requires Valid() && channel.id in channels
      modifies this, Repr
      ensures Valid() && Repr == old(Repr)
      ensures View() == SlaveState.Leave(old(View()), channel)
    {
      var allocation := channels[channel.id];
      PoolFor(allocation.anon).PartOn(allocation.conn, channel.login);
      channels := channels - {channel.id};
    }

    method JoinChat(channel: Chan, io: Io)
      requires Valid()
      modifies this, Repr
      ensures Valid() && fresh(Repr - old(Repr))
      ensures View() == SlaveState.JoinChat(old(View()), limit, channel, io)
    {
      ghost var before := View();
      if channel.id in channels {
        var allocation := channels[channel.id];
        if allocation.anon == channel.useAnonymous {
          JoinSeat(allocation, channel, io, true);
          return;
        }
        Leave(channel);
      }
      ghost var left := View();
      Allocate(channel, io);
      JoinChatByAllocating(before, left, View(), limit, channel, io);
    }

    method HearOn(anon: bool, conn: nat, login: string, m: Message, username: string, io: Io)
      returns (banned: seq<Chan>)
      requires Valid() && conn < |Pool(View(), anon)|
      modifies Repr
      ensures Valid() && Repr == old(Repr)
      ensures View() == Receive(old(View()), anon, conn, login, m, username, io)
      ensures var entries := Pool(View(), anon)[conn].entries;
        banned == if login in entries && m.BannedNotice? then [entries[login].raw] else []
    {
      banned := PoolFor(anon).HearOn(conn, login, m, username, io);
    }

    /** A message arrives on a connection; after a ban the manager joins the channel again, now
        anonymously. */
    method OnMessage(anon: bool, conn: nat, login: string, m: Message, username: string, io: Io)
      requires Valid() && conn < |Pool(View(), anon)|
      modifies this, Repr
      ensures Valid() && fresh(Repr - old(Repr))
      ensures View() == Do(old(View()), limit, Received(anon, conn, login, m, username, io))
    {
      ghost var before := View();
      var banned := HearOn(anon, conn, login, m, username, io);
      BanIsHandedBack(before, limit, anon, conn, login, m, username, io);
      if banned != [] {
        JoinChat(banned[0], io);
      }
    }

    /** One stretch of a goroutine of a connection. */
    method Resume(anon: bool, conn: nat, g: Goroutine, now: int, ok: bool)
      requires Valid() && conn < |Pool(View(), anon)| && g in Pool(View(), anon)[conn].goroutines
      modifies Repr
      ensures Valid() && Repr == old(Repr)
      ensures View() == Do(old(View()), limit, Resumed(anon, conn, g, now, ok))
    {
      ghost var before := View();
      ResumeStep(before, limit, anon, conn, g, now, ok);
      PoolFor(anon).ResumeOn(conn, g, now, ok);
      assert View() == WithConn(before, anon, conn, RunGoroutine(Pool(before, anon)[conn], anon, g, now, ok));
    }

    /** One tick of a connection's sweep. */
    method Sweep(anon: bool, conn: nat, ios: string -> Io)
      requires Valid() && conn < |Pool(View(), anon)|
      modifies Repr
      ensures Valid() && Repr == old(Repr)
      ensures View() == Do(old(View()), limit, Swept(anon, conn, ios))
    {
      ghost var before := View();
      PoolFor(anon).SweepOn(conn, ios);
      OneConnSteps(before, limit, anon, conn, ios);
      assert View() == WithConn(before, anon, conn, SlaveState.Sweep(Pool(before, anon)[conn], ios));
    }

    method OnConnect(anon: bool, conn: nat, ios: string -> Io)
      requires Valid() && conn < |Pool(View(), anon)|
      modifies Repr
      ensures Valid() && Repr == old(Repr)
      ensures View() == Do(old(View()), limit, Reconnected(anon, conn, ios))
    {
      ghost var before := View();
      PoolFor(anon).ConnectOn(conn, ios);
      OneConnSteps(before, limit, anon, conn, ios);
      assert View() == WithConn(before, anon, conn, Reconnect(Pool(before, anon)[conn], ios));
    }
  }

  // ---------------------------------------------------------------- the loops over the entries

  /** The goroutine a refresh starts. */
  function Restarts(e: Entry, login: string, io: Io): multiset<Goroutine> {
    Starts(e.(state := Unknown), login, io)
  }

  function RefreshOne(c: Conn, key: string, io: Io): Conn
    requires key in c.entries
  {
    var e := c.entries[key];
    c.(entries := c.entries[key := Refresh(e, io)], goroutines := c.goroutines + Restarts(e, key, io))
  }

  function SweepOne(c: Conn, key: string, io: Io): Conn
    requires key in c.entries
  {
    if TimedOut(c.entries[key], io.now) then c.(entries := c.entries - {key}, dropped := c.dropped + 1)
    else if Stale(c.entries[key], io.now) then RefreshOne(c, key, io)
    else c
  }

  function RefreshEntries(entries: map<string, Entry>, seen: set<string>, ios: string -> Io): map<string, Entry> {
    map login | login in entries ::
      if login in seen then Refresh(entries[login], ios(login)) else entries[login]
  }

  function SweepEntries(entries: map<string, Entry>, seen: set<string>, ios: string -> Io): map<string, Entry> {
    map login | login in entries && !(login in seen && TimedOut(entries[login], ios(login).now)) ::
      if login in seen && Stale(entries[login], ios(login).now) then Refresh(entries[login], ios(login))
      else entries[login]
  }

  /** A connection whose entries under `seen` have been refreshed. */
  function RefreshSome(c: Conn, seen: set<string>, ios: string -> Io): Conn {
    c.(entries := RefreshEntries(c.entries, seen, ios),
       goroutines := c.goroutines + multiset(Refreshing(c.entries, seen, ios)))
  }

  /** A connection whose entries under `seen` have been swept. */
  function SweepSome(c: Conn, seen: set<string>, ios: string -> Io): Conn {
    c.(entries := SweepEntries(c.entries, seen, ios),
       goroutines := c.goroutines + multiset(Refreshing(c.entries, StaleLogins(c, ios) * seen, ios)),
       dropped := c.dropped + |Overdue(c, ios) * seen|)
  }

  lemma OneMoreRefreshing(entries: map<string, Entry>, seen: set<string>, key: string, ios: string -> Io)
    requires key in entries && key !in seen
    ensures multiset(Refreshing(entries, seen + {key}, ios))
      == multiset(Refreshing(entries, seen, ios)) + Restarts(entries[key], key, ios(key))
  {
    var g := Goroutine(key, entries[key].token, Spawned);
    var more := Refreshing(entries, seen, ios) + if ios(key).connected then {g} else {};
    assert Refreshing(entries, seen + {key}, ios) == more;
    assert g !in Refreshing(entries, seen, ios);
  }

  lemma RefreshOneMore(c: Conn, seen: set<string>, key: string, ios: string -> Io)
    requires key in c.entries && key !in seen
    ensures key in RefreshSome(c, seen, ios).entries
    ensures RefreshOne(RefreshSome(c, seen, ios), key, ios(key)) == RefreshSome(c, seen + {key}, ios)
  {
    OneMoreRefreshing(c.entries, seen, key, ios);
    RefreshEntriesOneMore(c.entries, seen, key, ios);
  }

  lemma RefreshEntriesOneMore(entries: map<string, Entry>, seen: set<string>, key: string, ios: string -> Io)
    requires key in entries && key !in seen
    ensures var some := RefreshEntries(entries, seen, ios);
      && key in some && some[key] == entries[key]
      && RefreshEntries(entries, seen + {key}, ios) == some[key := Refresh(entries[key], ios(key))]
  {
  }

  /** What one more visited entry adds to the goroutines and the dropped entries. */
  lemma SweepCountsOneMore(c: Conn, seen: set<string>, key: string, ios: string -> Io)
    requires key in c.entries && key !in seen
    ensures var e := c.entries[key];
      && multiset(Refreshing(c.entries, StaleLogins(c, ios) * (seen + {key}), ios))
         == multiset(Refreshing(c.entries, StaleLogins(c, ios) * seen, ios))
            + (if Stale(e, ios(key).now) then Restarts(e, key, ios(key)) else multiset{})
      && |Overdue(c, ios) * (seen + {key})|
         == |Overdue(c, ios) * seen| + if TimedOut(e, ios(key).now) then 1 else 0
  {
    var stale, overdue := StaleLogins(c, ios), Overdue(c, ios);
    if key in stale {
      assert stale * (seen + {key}) == stale * seen + {key};
      OneMoreRefreshing(c.entries, stale * seen, key, ios);
    } else {
      assert stale * (seen + {key}) == stale * seen;
    }
    if key in overdue {
      assert overdue * (seen + {key}) == overdue * seen + {key};
    } else {
      assert overdue * (seen + {key}) == overdue * seen;
    }
  }

  lemma SweepEntriesOneMore(entries: map<string, Entry>, seen: set<string>, key: string, ios: string -> Io)
    requires key in entries && key !in seen
    ensures var some := SweepEntries(entries, seen, ios);
      var e := entries[key];
      && key in some && some[key] == e
      && SweepEntries(entries, seen + {key}, ios) ==
         if TimedOut(e, ios(key).now) then some - {key}
         else if Stale(e, ios(key).now) then some[key := Refresh(e, ios(key))]
         else some
  {
  }

  lemma SweepOneMore(c: Conn, seen: set<string>, key: string, ios: string -> Io)
    requires key in c.entries && key !in seen
    ensures key in SweepSome(c, seen, ios).entries
    ensures SweepOne(SweepSome(c, seen, ios), key, ios(key)) == SweepSome(c, seen + {key}, ios)
  {
    SweepCountsOneMore(c, seen, key, ios);
    SweepEntriesOneMore(c.entries, seen, key, ios);
    var some, more := SweepSome(c, seen, ios), SweepSome(c, seen + {key}, ios);
    var e := c.entries[key];
    assert more == some.(entries := more.entries, goroutines := more.goroutines, dropped := more.dropped);
    if TimedOut(e, ios(key).now) {
      assert more.goroutines == some.goroutines;
    } else if Stale(e, ios(key).now) {
      assert more.dropped == some.dropped;
    } else {
      assert more.goroutines == some.goroutines && more.dropped == some.dropped;
    }
  }

  lemma NothingVisited(c: Conn, ios: string -> Io)
    ensures SweepSome(c, {}, ios) == c && RefreshSome(c, {}, ios) == c
  {
    assert Refreshing(c.entries, {}, ios) == {};
    assert StaleLogins(c, ios) * {} == {} && Overdue(c, ios) * {} == {};
    assert SweepEntries(c.entries, {}, ios) == c.entries;
    assert RefreshEntries(c.entries, {}, ios) == c.entries;
  }

  lemma SweepAll(c: Conn, seen: set<string>, ios: string -> Io)
    requires seen == c.entries.Keys
    ensures SweepSome(c, seen, ios) == SlaveState.Sweep(c, ios)
  {
    assert StaleLogins(c, ios) * seen == StaleLogins(c, ios) && Overdue(c, ios) * seen == Overdue(c, ios);
    assert SweepSome(c, seen, ios).entries == SlaveState.Sweep(c, ios).entries;
  }

  lemma RefreshAll(c: Conn, seen: set<string>, ios: string -> Io)
    requires seen == c.entries.Keys
    ensures RefreshSome(c, seen, ios) == Reconnect(c, ios)
  {
    assert RefreshSome(c, seen, ios).entries == Reconnect(c, ios).entries;
  }

  // ---------------------------------------------------------------- the manager on values

  lemma JoinStaysKeyed(c: Conn, ch: Chan, io: Io)
    requires Keyed(c)
    ensures Keyed(SlaveState.JoinChannel(c, ch, io)) && Keyed(JoinAgain(c, ch, io))
  {
  }

  lemma RunStaysKeyed(c: Conn, anon: bool, g: Goroutine, now: int, ok: bool)
    requires Keyed(c)
    ensures Keyed(RunGoroutine(c, anon, g, now, ok))
  {
    GoroutinesOnlyTouch(c, anon, g, now, ok);
  }

  /** What the steps of a single connection do to the slave. */
  lemma ResumeStep(s: Slave, limit: nat, anon: bool, i: nat, g: Goroutine, now: int, ok: bool)
    requires SeatsExist(s) && i < |Pool(s, anon)| && g in Pool(s, anon)[i].goroutines
    ensures Do(s, limit, Resumed(anon, i, g, now, ok))
      == WithConn(s, anon, i, RunGoroutine(Pool(s, anon)[i], anon, g, now, ok))
  {
  }

  lemma OneConnSteps(s: Slave, limit: nat, anon: bool, i: nat, ios: string -> Io)
    requires SeatsExist(s) && i < |Pool(s, anon)|
    ensures Do(s, limit, Swept(anon, i, ios)) == WithConn(s, anon, i, SlaveState.Sweep(Pool(s, anon)[i], ios))
    ensures Do(s, limit, Reconnected(anon, i, ios)) == WithConn(s, anon, i, Reconnect(Pool(s, anon)[i], ios))
  {
  }

  /** Reserving is growing the pool, then storing the seat. */
  lemma SeatAfterGrowing(s: Slave, limit: nat, id: string, anon: bool)
    requires SeatsExist(s)
    ensures var grown := WithPool(s, anon, PoolWithRoom(Pool(s, anon), limit));
      SlaveState.Reserve(s, limit, id, anon)
      == grown.(seats := grown.seats[id := Seat(|Pool(grown, anon)| - 1, anon)])
    ensures SeatsExist(SlaveState.Reserve(s, limit, id, anon))
  {
  }

  /** Allocating is reserving, then joining on the reserved connection. */
  lemma JoinAfterReserving(s: Slave, reserved: Slave, t: Slave, limit: nat, seat: Seat, ch: Chan, io: Io)
    requires reserved == SlaveState.Reserve(s, limit, ch.id, ch.useAnonymous)
    requires seat == Seat(|Pool(reserved, ch.useAnonymous)| - 1, ch.useAnonymous)
    requires t == WithConn(reserved, seat.anon, seat.conn,
      SlaveState.JoinChannel(Pool(reserved, seat.anon)[seat.conn], ch, io))
    ensures t == SlaveState.Allocate(s, limit, ch, io)
  {
  }

  /** A channel that does not stay in its pool leaves its seat, if it has one, and is allocated. */
  lemma JoinChatByAllocating(s: Slave, left: Slave, t: Slave, limit: nat, ch: Chan, io: Io)
    requires SeatsExist(s)
    requires ch.id in s.seats ==> s.seats[ch.id].anon != ch.useAnonymous
    requires left == if ch.id in s.seats then SlaveState.Leave(s, ch) else s
    requires t == SlaveState.Allocate(left, limit, ch, io)
    ensures t == SlaveState.JoinChat(s, limit, ch, io)
  {
  }
}
