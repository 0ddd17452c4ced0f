/**
 A slave's channels spread over IRC connections, as values: two pools of connections, the seat the
 manager gives each channel id, and per connection a map of entries with a separately kept length.
 `SlaveManager` holds the classes that are proved to compute these functions.
 */
module SlaveState {

  datatype ChannelState = WaitingLimits | JoinRequested | Joined | Parted | Suspended | Banned | Unknown

  /** The protobuf channel a slave is told to join. */
  datatype Chan = Chan(id: string, login: string, priority: int, useAnonymous: bool, botBanned: bool)

  /** `token` is the identity of the stored record: goroutines hold on to it. */
  datatype Entry = Entry(state: ChannelState, lastEvent: int, raw: Chan, token: nat)

  /** Where the goroutine of a join is: about to start, in the join limiter, or in the socket. */
  datatype Stage = Spawned | InLimiter | Writing

  datatype Goroutine = Goroutine(login: string, token: nat, stage: Stage)

  /** A connection. `nextToken` numbers the stored records. The last four are history: how often
      the length was incremented, how often that was for a channel that already had its seat here,
      how many entries a sweep has dropped, and how many parts found no entry. */
  datatype Conn = Conn(
    entries: map<string, Entry>,
    length: int,
    goroutines: multiset<Goroutine>,
    nextToken: nat,
    joins: nat,
    rejoins: nat,
    dropped: nat,
    vacated: nat)

  const NEW_CONN := Conn(map[], 0, multiset{}, 0, 0, 0, 0, 0)

  /** The manager's allocation of a channel: a connection number in one of the pools. */
  datatype Seat = Seat(conn: nat, anon: bool)

  datatype Slave = Slave(seats: map<string, Seat>, auth: seq<Conn>, anon: seq<Conn>)

  const NO_CHANNELS := Slave(map[], [], [])

  /** What a call reads from the outside: the clock and the connected flag. */
  datatype Io = Io(now: int, connected: bool)

  /** The parts of an IRC message the slave reacts to. */
  datatype Message =
    | RoomState
    | Join(user: string)
    | Part(user: string)
    | SuspendedNotice
    | BannedNotice
    | Other

  const HOUR := 3600
  const STALE_AFTER := 24 * HOUR
  const JOIN_TIMEOUT := 20 * 60
  const ANON_USER := "justinfan123123"

  // ---------------------------------------------------------------- one connection

  /** Joining through an entry that exists. */
  function JoinEntry(e: Entry, ch: Chan, io: Io): Entry {
    if e.state == Joined then e.(raw := ch) else e.(raw := ch, lastEvent := io.now)
  }

  /** A join that is not already done starts a goroutine, if the client is connected. */
  function Starts(e: Entry, login: string, io: Io): multiset<Goroutine> {
    if e.state != Joined && io.connected then multiset{Goroutine(login, e.token, Spawned)} else multiset{}
  }

  function JoinChannel(c: Conn, ch: Chan, io: Io): Conn {
    if ch.login in c.entries then
      var e := c.entries[ch.login];
      c.(entries := c.entries[ch.login := JoinEntry(e, ch, io)],
         goroutines := c.goroutines + Starts(e, ch.login, io))
    else
      var e := Entry(WaitingLimits, io.now, ch, c.nextToken);
      c.(entries := c.entries[ch.login := e],
         goroutines := c.goroutines + Starts(e, ch.login, io),
         nextToken := c.nextToken + 1, length := c.length + 1, joins := c.joins + 1)
  }

  /** A goroutine updates the record it holds, which may have left the map or been replaced. */
  function Touch(entries: map<string, Entry>, g: Goroutine, state: ChannelState, now: int): map<string, Entry> {
    if g.login in entries && entries[g.login].token == g.token then
      entries[g.login := entries[g.login].(state := state, lastEvent := now)]
    else entries
  }

  /** A goroutine stores a state and goes on to its next stage. */
  function GoOn(c: Conn, g: Goroutine, state: ChannelState, stage: Stage, now: int): Conn {
    c.(entries := Touch(c.entries, g, state, now),
       goroutines := c.goroutines - multiset{g} + multiset{g.(stage := stage)})
  }

  function End(c: Conn, g: Goroutine): Conn {
    c.(goroutines := c.goroutines - multiset{g})
  }

  /** One stretch of a goroutine, up to the next point where it waits; `ok` is what it waited for,
      the answer of the limiter or of the write. */
  function RunGoroutine(c: Conn, anon: bool, g: Goroutine, now: int, ok: bool): Conn {
    match g.stage
    case Spawned =>
      if anon then GoOn(c, g, JoinRequested, Writing, now) else GoOn(c, g, WaitingLimits, InLimiter, now)
    case InLimiter => if ok then GoOn(c, g, JoinRequested, Writing, now) else End(c, g)
    case Writing => End(if ok then c else c.(entries := Touch(c.entries, g, Parted, now)), g)
  }

  function PartChannel(c: Conn, login: string): Conn {
    c.(entries := c.entries - {login}, length := c.length - 1,
       vacated := if login in c.entries then c.vacated else c.vacated + 1)
  }

  predicate TimedOut(e: Entry, now: int) {
    e.state == JoinRequested && e.lastEvent < now - JOIN_TIMEOUT
  }

  predicate Stale(e: Entry, now: int) {
    (e.state == Joined || e.state == Suspended) && e.lastEvent < now - STALE_AFTER
  }

  /** Rejoin an entry from the unknown state. */
  function Refresh(e: Entry, io: Io): Entry {
    JoinEntry(e.(state := Unknown), e.raw, io)
  }

  /** The goroutines started by refreshing these entries, each under its own answers. */
  function Refreshing(entries: map<string, Entry>, logins: set<string>, ios: string -> Io): set<Goroutine> {
    set login | login in logins && login in entries && ios(login).connected ::
      Goroutine(login, entries[login].token, Spawned)
  }

  function StaleLogins(c: Conn, ios: string -> Io): set<string> {
    set login | login in c.entries && Stale(c.entries[login], ios(login).now)
  }

  function Overdue(c: Conn, ios: string -> Io): set<string> {
    set login | login in c.entries && TimedOut(c.entries[login], ios(login).now)
  }

  /** The sweep drops timed-out requests, without touching the length, and refreshes stale
      entries. */
  function Sweep(c: Conn, ios: string -> Io): Conn {
    c.(entries := map login | login in c.entries && !TimedOut(c.entries[login], ios(login).now) ::
         if Stale(c.entries[login], ios(login).now) then Refresh(c.entries[login], ios(login)) else c.entries[login],
       goroutines := c.goroutines + multiset(Refreshing(c.entries, StaleLogins(c, ios), ios)),
       dropped := c.dropped + |Overdue(c, ios)|)
  }

  /** Every channel is joined again when the connection comes up. */
  function Reconnect(c: Conn, ios: string -> Io): Conn {
    c.(entries := map login | login in c.entries :: Refresh(c.entries[login], ios(login)),
       goroutines := c.goroutines + multiset(Refreshing(c.entries, c.entries.Keys, ios)))
  }

  function ConfirmJoin(e: Entry, anon: bool, now: int): Entry {
    var raw := if e.state != Joined && e.raw.botBanned && !anon then e.raw.(botBanned := false) else e.raw;
    e.(state := Joined, lastEvent := now, raw := raw)
  }

  /** The server parted us. */
  predicate IsOwnPart(m: Message, username: string) {
    m.Part? && m.user == username
  }

  /** A message for a channel that has an entry; a ban switches the channel to anonymous. */
  function OnMessage(e: Entry, m: Message, username: string, anon: bool, io: Io): Entry {
    var e := e.(lastEvent := io.now);
    match m
    case RoomState => ConfirmJoin(e, anon, io.now)
    case Join(user) =>
      if user == username || user == ANON_USER then ConfirmJoin(e, anon, io.now) else e
    case Part(user) =>
      if user == username then JoinEntry(e.(state := Parted), e.raw, io) else e
    case SuspendedNotice => e.(state := Suspended)
    case BannedNotice => e.(state := Banned, raw := e.raw.(botBanned := true, useAnonymous := true))
    case Other => e
  }

  function HeardGoroutines(e: Entry, login: string, m: Message, username: string, io: Io): multiset<Goroutine> {
    if IsOwnPart(m, username) then Starts(e.(state := Parted), login, io) else multiset{}
  }

  /** A connection hears a message: only a channel that has an entry reacts, and our own part starts
      a join. */
  function Hear(c: Conn, login: string, m: Message, username: string, anon: bool, io: Io): Conn {
    if login !in c.entries then c
    else
      var e := c.entries[login];
      c.(entries := c.entries[login := OnMessage(e, m, username, anon, io)],
         goroutines := c.goroutines + HeardGoroutines(e, login, m, username, io))
  }

  /** Every entry is stored under its own login. */
  ghost predicate Keyed(c: Conn) {
    forall login :: login in c.entries ==> c.entries[login].raw.login == login
  }

  // ---------------------------------------------------------------- the manager

  function Pool(s: Slave, anon: bool): seq<Conn> {
    if anon then s.anon else s.auth
  }

  function WithPool(s: Slave, anon: bool, pool: seq<Conn>): Slave {
    if anon then s.(anon := pool) else s.(auth := pool)
  }

  function WithConn(s: Slave, anon: bool, i: nat, c: Conn): Slave
    requires i < |Pool(s, anon)|
  {
    WithPool(s, anon, Pool(s, anon)[i := c])
  }

  /** The pool with a connection that has room at its end. */
  function PoolWithRoom(pool: seq<Conn>, limit: nat): (r: seq<Conn>)
    ensures r != [] && pool <= r
  {
    if pool == [] || pool[|pool| - 1].length >= limit then pool + [NEW_CONN] else pool
  }

  /** Give a channel the last connection of its pool, opening one when it is full. */
  function Reserve(s: Slave, limit: nat, id: string, anon: bool): (r: Slave)
    ensures Pool(r, anon) == PoolWithRoom(Pool(s, anon), limit)
  {
    var pool := PoolWithRoom(Pool(s, anon), limit);
    WithPool(s.(seats := s.seats[id := Seat(|pool| - 1, anon)]), anon, pool)
  }

  /** Seat a channel and join it there. */
  function Allocate(s: Slave, limit: nat, ch: Chan, io: Io): Slave {
    var anon := ch.useAnonymous;
    var r := Reserve(s, limit, ch.id, anon);
    var i := |Pool(r, anon)| - 1;
    WithConn(r, anon, i, JoinChannel(Pool(r, anon)[i], ch, io))
  }

  /** A channel that has its seat here is joined again; a lost entry counts as a rejoin. */
  function JoinAgain(c: Conn, ch: Chan, io: Io): Conn {
    var j := JoinChannel(c, ch, io);
    if ch.login in c.entries then j else j.(rejoins := c.rejoins + 1)
  }

  ghost predicate SeatsExist(s: Slave) {
    forall id :: id in s.seats ==> s.seats[id].conn < |Pool(s, s.seats[id].anon)|
  }

  function Leave(s: Slave, ch: Chan): Slave
    requires SeatsExist(s) && ch.id in s.seats
  {
    var seat := s.seats[ch.id];
    var left := WithConn(s, seat.anon, seat.conn, PartChannel(Pool(s, seat.anon)[seat.conn], ch.login));
    left.(seats := s.seats - {ch.id})
  }

  function JoinChat(s: Slave, limit: nat, ch: Chan, io: Io): Slave
    requires SeatsExist(s)
  {
    if ch.id in s.seats then
      var seat := s.seats[ch.id];
      if seat.anon == ch.useAnonymous then
        WithConn(s, seat.anon, seat.conn, JoinAgain(Pool(s, seat.anon)[seat.conn], ch, io))
      else
        Allocate(Leave(s, ch), limit, ch, io)
    else
      Allocate(s, limit, ch, io)
  }

  // ---------------------------------------------------------------- runs

  datatype Step =
    | Command(ch: Chan, io: Io)
    | Received(anon: bool, conn: nat, login: string, m: Message, username: string, io: Io)
    | Resumed(anon: bool, conn: nat, g: Goroutine, now: int, ok: bool)
    | Swept(anon: bool, conn: nat, ios: string -> Io)
    | Reconnected(anon: bool, conn: nat, ios: string -> Io)

  predicate Can(s: Slave, st: Step) {
    match st
    case Command(_, _) => true
    case Received(anon, conn, _, _, _, _) => conn < |Pool(s, anon)|
    case Resumed(anon, conn, g, _, _) => conn < |Pool(s, anon)| && g in Pool(s, anon)[conn].goroutines
    case Swept(anon, conn, _) => conn < |Pool(s, anon)|
    case Reconnected(anon, conn, _) => conn < |Pool(s, anon)|
  }

  function Receive(s: Slave, anon: bool, i: nat, login: string, m: Message, username: string, io: Io): Slave
    requires i < |Pool(s, anon)|
  {
    WithConn(s, anon, i, Hear(Pool(s, anon)[i], login, m, username, anon, io))
  }

  function Do(s: Slave, limit: nat, st: Step): Slave
    requires SeatsExist(s) && Can(s, st)
  {
    match st
    case Command(ch, io) => JoinChat(s, limit, ch, io)
    case Received(anon, i, login, m, username, io) =>
      var t := Receive(s, anon, i, login, m, username, io);
      // a ban hands the channel back to the manager
      if login in Pool(s, anon)[i].entries && m.BannedNotice? then
        JoinChat(t, limit, Pool(t, anon)[i].entries[login].raw, io)
      else t
    case Resumed(anon, i, g, now, ok) => WithConn(s, anon, i, RunGoroutine(Pool(s, anon)[i], anon, g, now, ok))
    case Swept(anon, i, ios) => WithConn(s, anon, i, Sweep(Pool(s, anon)[i], ios))
    case Reconnected(anon, i, ios) => WithConn(s, anon, i, Reconnect(Pool(s, anon)[i], ios))
  }

  /** What a received message does once the connection has reacted to it. */
  lemma BanIsHandedBack(s: Slave, limit: nat, anon: bool, i: nat, login: string, m: Message, username: string, io: Io)
    requires SeatsExist(s) && i < |Pool(s, anon)|
    ensures var t := Receive(s, anon, i, login, m, username, io);
      var entries := Pool(t, anon)[i].entries;
      SeatsExist(t)
      && Do(s, limit, Received(anon, i, login, m, username, io))
         == if login in entries && m.BannedNotice? then JoinChat(t, limit, entries[login].raw, io) else t
  {
  }

  /** A goroutine changes at most the state and the time of the record it holds, and never to
      joined. */
  lemma GoroutinesOnlyTouch(c: Conn, anon: bool, g: Goroutine, now: int, ok: bool)
    ensures var d := RunGoroutine(c, anon, g, now, ok);
      && d.entries.Keys == c.entries.Keys
      && (forall login :: login in c.entries ==>
        && d.entries[login].raw == c.entries[login].raw
        && d.entries[login].token == c.entries[login].token
        && (d.entries[login].state == Joined ==> c.entries[login].state == Joined)
        && (login != g.login || c.entries[login].token != g.token ==> d.entries[login] == c.entries[login]))
      && d == c.(entries := d.entries, goroutines := d.goroutines)
  {
  }
}
