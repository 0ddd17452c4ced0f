/** What the operations on a connection do, told from its entries and goroutines. */
module SlaveLaws {
  import opened SlaveState
  import opened SlaveEntries
  import SlaveRuns

  // ---------------------------------------------------------------- joining

  /** A join leaves the channel with an entry that holds what was asked for, and touches no other
      channel. Only a new entry counts; only a channel that is not joined yet is attempted, once,
      and only while the client is connected. */
  lemma JoinLaw(c: Conn, ch: Chan, io: Io, other: string)
    ensures var d := JoinChannel(c, ch, io);
      var known := ch.login in c.entries;
      var joined := IsJoined(c, ch.login);
      && ch.login in d.entries && d.entries[ch.login].raw == ch
      && d.entries[ch.login].state == (if known then c.entries[ch.login].state else WaitingLimits)
      && d.entries[ch.login].lastEvent == (if joined then c.entries[ch.login].lastEvent else io.now)
      && d.entries[ch.login].token == (if known then c.entries[ch.login].token else c.nextToken)
      && d.nextToken == c.nextToken + (if known then 0 else 1)
      && (other != ch.login ==> (other in d.entries <==> other in c.entries))
      && (other != ch.login && other in c.entries ==> d.entries[other] == c.entries[other])
      && d.length == c.length + (if known then 0 else 1)
      && d.joins == c.joins + (if known then 0 else 1)
      && d.goroutines == c.goroutines +
           if io.connected && !joined then multiset{Goroutine(ch.login, d.entries[ch.login].token, Spawned)}
           else multiset{}
  {
  }

  /** After a join the channel has an entry with what was asked for on the connection of its seat. */
  lemma JoinedChannelHasItsEntry(s: Slave, limit: nat, ch: Chan, io: Io)
    requires SeatsExist(s)
    ensures var t := JoinChat(s, limit, ch, io);
      && ch.id in t.seats && t.seats[ch.id].anon == ch.useAnonymous
      && t.seats[ch.id].conn < |Pool(t, ch.useAnonymous)|
      && var entries := Pool(t, ch.useAnonymous)[t.seats[ch.id].conn].entries;
      ch.login in entries && entries[ch.login].raw == ch
  {
    if ch.id in s.seats && s.seats[ch.id].anon == ch.useAnonymous {
      var seat := s.seats[ch.id];
      JoinLaw(Pool(s, seat.anon)[seat.conn], ch, io, "");
    } else {
      var left := if ch.id in s.seats then Leave(s, ch) else s;
      var r := Reserve(left, limit, ch.id, ch.useAnonymous);
      JoinLaw(Pool(r, ch.useAnonymous)[|Pool(r, ch.useAnonymous)| - 1], ch, io, "");
    }
  }

  // ---------------------------------------------------------------- the goroutine of a join

  /** The record stored under a login is this one. */
  predicate Stored(c: Conn, login: string, token: nat) {
    login in c.entries && c.entries[login].token == token
  }

  /** The goroutine runs, and the record it holds is the one stored. */
  predicate Holds(c: Conn, g: Goroutine) {
    Stored(c, g.login, g.token) && g in c.goroutines
  }

  /** The goroutine has moved to `stage` and stored `state` in its record, at this time. */
  predicate MovedTo(c: Conn, d: Conn, g: Goroutine, stage: Stage, state: ChannelState, now: int) {
    && Holds(d, g.(stage := stage)) && d.entries[g.login].state == state && d.entries[g.login].lastEvent == now
    && d.goroutines - multiset{g.(stage := stage)} == c.goroutines - multiset{g}
  }

  /** The goroutine has ended, leaving its record in `state`. */
  predicate Ended(c: Conn, d: Conn, g: Goroutine, state: ChannelState) {
    && Stored(d, g.login, g.token) && d.entries[g.login].state == state
    && d.goroutines == c.goroutines - multiset{g}
  }

  /** Starting: an authenticated join goes to the limiter, an anonymous one straight to the write. */
  lemma StartLaw(c: Conn, anon: bool, g: Goroutine, now: int, ok: bool)
    requires Holds(c, g) && g.stage == Spawned
    ensures var d := RunGoroutine(c, anon, g, now, ok);
      if anon then MovedTo(c, d, g, Writing, JoinRequested, now)
      else MovedTo(c, d, g, InLimiter, WaitingLimits, now)
  {
  }

  /** The limiter's answer: only when it allows the join goes on to the write. */
  lemma LimiterLaw(c: Conn, g: Goroutine, now: int, allowed: bool)
    requires Holds(c, g) && g.stage == InLimiter
    ensures var d := RunGoroutine(c, false, g, now, allowed);
      if allowed then MovedTo(c, d, g, Writing, JoinRequested, now) else Ended(c, d, g, c.entries[g.login].state)
  {
  }

  /** The write: a join that could not be written is parted. */
  lemma WriteLaw(c: Conn, anon: bool, g: Goroutine, now: int, written: bool)
    requires Holds(c, g) && g.stage == Writing
    ensures var d := RunGoroutine(c, anon, g, now, written);
      && Ended(c, d, g, if written then c.entries[g.login].state else Parted)
      && d.entries[g.login].lastEvent == if written then c.entries[g.login].lastEvent else now
  {
  }

  /** Run a goroutine to its end with nothing in between. */
  function RunToTheEnd(c: Conn, anon: bool, g: Goroutine, now: int, allowed: bool, written: bool): Conn {
    var waiting, writing := g.(stage := InLimiter), g.(stage := Writing);
    var started := RunGoroutine(c, anon, g, now, true);
    if anon then RunGoroutine(started, anon, writing, now, written)
    else
      var answered := RunGoroutine(started, anon, waiting, now, allowed);
      if allowed then RunGoroutine(answered, anon, writing, now, written) else answered
  }

  /** Left alone, the goroutine of a join ends. On an authenticated connection the limiter has the
      first word: when it refuses, nothing is written and the channel keeps waiting. Otherwise the
      channel ends requested when the line was written, and parted when it was not. */
  lemma AttemptEnds(c: Conn, anon: bool, g: Goroutine, now: int, allowed: bool, written: bool)
    requires Holds(c, g) && g.stage == Spawned
    ensures Ended(c, RunToTheEnd(c, anon, g, now, allowed, written), g,
                  if !anon && !allowed then WaitingLimits else if written then JoinRequested else Parted)
  {
    StartLaw(c, anon, g, now, true);
    var d := RunGoroutine(c, anon, g, now, true);
    if !anon {
      LimiterLaw(d, g.(stage := InLimiter), now, allowed);
      d := RunGoroutine(d, anon, g.(stage := InLimiter), now, allowed);
    }
    if anon || allowed {
      WriteLaw(d, anon, g.(stage := Writing), now, written);
    }
  }

  /** A goroutine about to write on an authenticated connection was there before, or the limiter
      has just allowed it. */
  lemma WritingNeedsTheLimiter(c: Conn, g: Goroutine, now: int, ok: bool, w: Goroutine)
    requires g in c.goroutines && w.stage == Writing && w in RunGoroutine(c, false, g, now, ok).goroutines
    ensures w in c.goroutines || (g == w.(stage := InLimiter) && ok)
  {
  }

  /** The limiter's permission for this goroutine. */
  predicate Allows(st: Step, i: nat, w: Goroutine) {
    st.Resumed? && !st.anon && st.conn == i && st.g == w.(stage := InLimiter) && st.ok
  }

  predicate AboutToWrite(s: Slave, i: nat, w: Goroutine) {
    i < |s.auth| && w.stage == Writing && w in s.auth[i].goroutines
  }

  lemma JoiningWritesNothing(s: Slave, limit: nat, ch: Chan, io: Io, i: nat, w: Goroutine)
    requires SeatsExist(s) && AboutToWrite(JoinChat(s, limit, ch, io), i, w)
    ensures AboutToWrite(s, i, w)
  {
    if ch.id in s.seats && s.seats[ch.id].anon == ch.useAnonymous {
      var seat := s.seats[ch.id];
      if seat == Seat(i, false) {
        JoinStartsSpawned(s.auth[i], ch, io, w);
      }
    } else if ch.id in s.seats {
      AllocatingWritesNothing(Leave(s, ch), limit, ch, io, i, w);
    } else {
      AllocatingWritesNothing(s, limit, ch, io, i, w);
    }
  }

  lemma AllocatingWritesNothing(s: Slave, limit: nat, ch: Chan, io: Io, i: nat, w: Goroutine)
    requires AboutToWrite(Allocate(s, limit, ch, io), i, w)
    ensures AboutToWrite(s, i, w)
  {
    var r := Reserve(s, limit, ch.id, ch.useAnonymous);
    if !ch.useAnonymous && i == |r.auth| - 1 {
      JoinStartsSpawned(r.auth[i], ch, io, w);
    }
  }

  lemma JoinStartsSpawned(c: Conn, ch: Chan, io: Io, w: Goroutine)
    requires w.stage == Writing && w in JoinChannel(c, ch, io).goroutines
    ensures w in c.goroutines
  {
    JoinLaw(c, ch, io, "");
  }

  lemma StepWritesOnlyAllowed(s: Slave, limit: nat, st: Step, i: nat, w: Goroutine)
    requires SeatsExist(s) && Can(s, st) && AboutToWrite(Do(s, limit, st), i, w)
    ensures AboutToWrite(s, i, w) || Allows(st, i, w)
  {
    match st
    case Command(ch, io) => JoiningWritesNothing(s, limit, ch, io, i, w);
    case Received(anon, j, login, m, username, io) =>
      BanIsHandedBack(s, limit, anon, j, login, m, username, io);
      var t := Receive(s, anon, j, login, m, username, io);
      var entries := Pool(t, anon)[j].entries;
      if login in entries && m.BannedNotice? {
        JoiningWritesNothing(t, limit, entries[login].raw, io, i, w);
      }
      HearingWritesNothing(s, anon, j, login, m, username, io, i, w);
    case Resumed(anon, j, g, now, ok) =>
      if !anon && j == i {
        WritingNeedsTheLimiter(s.auth[i], g, now, ok, w);
      }
    case Swept(anon, j, ios) => RefreshingWritesNothing(Pool(s, anon)[j], ios, w);
    case Reconnected(anon, j, ios) => RefreshingWritesNothing(Pool(s, anon)[j], ios, w);
  }

  lemma HearingWritesNothing(s: Slave, anon: bool, j: nat, login: string, m: Message, username: string, io: Io,
                             i: nat, w: Goroutine)
    requires j < |Pool(s, anon)| && AboutToWrite(Receive(s, anon, j, login, m, username, io), i, w)
    ensures AboutToWrite(s, i, w)
  {
  }

  lemma RefreshingWritesNothing(c: Conn, ios: string -> Io, w: Goroutine)
    requires w.stage == Writing
    ensures w in Sweep(c, ios).goroutines ==> w in c.goroutines
    ensures w in Reconnect(c, ios).goroutines ==> w in c.goroutines
  {
  }

  /** Over any run: on an authenticated connection nothing is about to be written that was not at
      the start, unless the limiter allowed this very goroutine. */
  lemma {:induction false} WritesWereAllowed(s: Slave, names: string -> string, limit: nat, steps: seq<Step>,
                                             i: nat, w: Goroutine)
    requires SlaveRuns.Possible(s, names, limit, steps)
    requires AboutToWrite(SlaveRuns.After(s, names, limit, steps), i, w)
    ensures AboutToWrite(s, i, w) || exists k :: 0 <= k < |steps| && Allows(steps[k], i, w)
    decreases |steps|
  {
    if steps == [] {
    } else {
      var t := Do(s, limit, steps[0]);
      WritesWereAllowed(t, names, limit, steps[1..], i, w);
      if AboutToWrite(t, i, w) {
        StepWritesOnlyAllowed(s, limit, steps[0], i, w);
      } else {
        var k :| 0 <= k < |steps[1..]| && Allows(steps[1..][k], i, w);
        assert steps[k + 1] == steps[1..][k];
      }
    }
  }

  // ---------------------------------------------------------------- what the server says

  /** What each message leaves of the entry of its channel: the time of the message, a state, and the
      flags a confirmation clears or a ban sets. Only our own part starts a join, once. */
  lemma HeardLaw(c: Conn, login: string, m: Message, username: string, anon: bool, io: Io)
    requires login in c.entries
    ensures var e := c.entries[login];
      var d := Hear(c, login, m, username, anon, io);
      && login in d.entries
      && var f := d.entries[login];
      var ours := m.Part? && m.user == username;
      && f.lastEvent == io.now && f.token == e.token
      && (Confirms(m, username) ==> f.state == Joined)
      && (m.SuspendedNotice? ==> f.state == Suspended)
      && (m.BannedNotice? ==> f.state == Banned && f.raw == e.raw.(botBanned := true, useAnonymous := true))
      && (ours ==> f.state == Parted)
      && (!Confirms(m, username) && !m.SuspendedNotice? && !m.BannedNotice? && !ours ==> f.state == e.state)
      && (Confirms(m, username) && e.state != Joined && !anon ==> f.raw == e.raw.(botBanned := false))
      && (!m.BannedNotice? && (!Confirms(m, username) || e.state == Joined || anon) ==> f.raw == e.raw)
      && d.goroutines == c.goroutines +
           if ours && io.connected then multiset{Goroutine(login, e.token, Spawned)} else multiset{}
  {
  }

  /** Hearing about one channel leaves the others and the counters alone. */
  lemma HeardElsewhere(c: Conn, login: string, m: Message, username: string, anon: bool, io: Io, other: string)
    requires other != login
    ensures var d := Hear(c, login, m, username, anon, io);
      && (other in d.entries <==> other in c.entries)
      && (other in c.entries ==> d.entries[other] == c.entries[other])
      && d.length == c.length
      && (login !in c.entries ==> d == c)
  {
  }

  /** A confirmation makes the channel joined, on the connection where it arrived. */
  lemma ConfirmationJoins(s: Slave, limit: nat, st: Step, anon: bool, i: nat, login: string)
    requires SeatsExist(s) && Can(s, st) && ConfirmsAt(st, anon, i, login) && login in Pool(s, anon)[i].entries
    ensures JoinedAt(Do(s, limit, st), anon, i, login)
  {
  }

  /** After a message that is no ban a channel is joined exactly when the message confirms it here,
      or it was joined and the message is not its suspension or our own part. */
  lemma JoinedExactlyByMessages(s: Slave, limit: nat, st: Step, anon: bool, i: nat, login: string)
    requires SeatsExist(s) && Can(s, st) && i < |Pool(s, anon)|
    requires st.Received? && !st.m.BannedNotice?
    ensures JoinedAt(Do(s, limit, st), anon, i, login) <==>
      || (ConfirmsAt(st, anon, i, login) && login in Pool(s, anon)[i].entries)
      || (JoinedAt(s, anon, i, login) &&
          !(st.anon == anon && st.conn == i && st.login == login &&
            (st.m.SuspendedNotice? || (st.m.Part? && st.m.user == st.username))))
  {
    var c := Pool(s, st.anon)[st.conn];
    if st.login in c.entries {
      HeardLaw(c, st.login, st.m, st.username, st.anon, st.io);
    }
    if st.login != login {
      HeardElsewhere(c, st.login, st.m, st.username, st.anon, st.io, login);
    }
    OnOneConn(s, st.anon, st.conn, Hear(c, st.login, st.m, st.username, st.anon, st.io), anon, i, login);
  }

  /** After a ban the channel is in the anonymous pool, with an entry that is marked banned and
      anonymous there. */
  lemma BannedChannelIsAnonymous(s: Slave, names: string -> string, limit: nat, anon: bool, i: nat, login: string,
                                 username: string, io: Io)
    requires limit >= 1 && SlaveRuns.OneToOne(names) && SlaveRuns.Inv(s, names, limit)
    requires i < |Pool(s, anon)| && login in Pool(s, anon)[i].entries
    ensures var raw := Pool(s, anon)[i].entries[login].raw;
      var t := Do(s, limit, Received(anon, i, login, BannedNotice, username, io));
      && raw.id in t.seats && t.seats[raw.id].anon && t.seats[raw.id].conn < |t.anon|
      && var entries := t.anon[t.seats[raw.id].conn].entries;
      login in entries && entries[login].raw == raw.(botBanned := true, useAnonymous := true)
  {
    var raw := Pool(s, anon)[i].entries[login].raw;
    assert SlaveRuns.ConnOk(s, names, limit, anon, i);
    assert SlaveRuns.EntryOk(s, names, anon, i, login, raw);
    if anon {
      SlaveRuns.BanWhileAnonymous(s, limit, i, login, username, io);
      var t := Receive(s, true, i, login, BannedNotice, username, io);
      JoinedChannelHasItsEntry(t, limit, SlaveRuns.BannedRaw(raw), io);
    } else {
      SlaveRuns.BanIsAnonymousJoin(s, names, limit, i, login, username, io);
      JoinedChannelHasItsEntry(s, limit, SlaveRuns.BannedRaw(raw), io);
    }
  }

  // ---------------------------------------------------------------- sweeping and reconnecting

  /** Twenty minutes without an answer. */
  predicate Unanswered(e: Entry, now: int) {
    e.state == JoinRequested && e.lastEvent < now - 1200
  }

  /** A day without a word. */
  predicate Silent(e: Entry, now: int) {
    (e.state == Joined || e.state == Suspended) && e.lastEvent < now - 86400
  }

  /** A refreshed entry is of unknown state and seen just now, and is the same record. */
  predicate Refreshed(e: Entry, f: Entry, now: int) {
    f == Entry(Unknown, now, e.raw, e.token)
  }

  /** A sweep drops exactly the channels whose request went unanswered for twenty minutes, refreshes
      exactly those that were silent for a day, and leaves the rest as they are; nothing it leaves is
      overdue or silent. The length does not change. */
  lemma SweepLaw(c: Conn, ios: string -> Io, login: string)
    ensures var d := Sweep(c, ios);
      var now := ios(login).now;
      && (login in d.entries <==> login in c.entries && !Unanswered(c.entries[login], now))
      && (login in d.entries ==>
        && !Unanswered(d.entries[login], now) && !Silent(d.entries[login], now)
        && (if Silent(c.entries[login], now) then Refreshed(c.entries[login], d.entries[login], now)
            else d.entries[login] == c.entries[login]))
      && d.length == c.length
  {
    SweepLeavesNothingOld(c, ios, login);
  }

  /** A new connection refreshes every channel and drops none. */
  lemma ReconnectLaw(c: Conn, ios: string -> Io, login: string)
    ensures var d := Reconnect(c, ios);
      && (login in d.entries <==> login in c.entries)
      && (login in c.entries ==> Refreshed(c.entries[login], d.entries[login], ios(login).now))
      && d.length == c.length
  {
  }

  /** Every refresh starts one join, if the client is connected, and nothing else does. */
  lemma RefreshesStartJoins(c: Conn, ios: string -> Io, g: Goroutine)
    ensures var held := g.stage == Spawned && g.login in c.entries && g.token == c.entries[g.login].token
                        && ios(g.login).connected;
      && Sweep(c, ios).goroutines[g] == c.goroutines[g]
           + (if held && Silent(c.entries[g.login], ios(g.login).now) then 1 else 0)
      && Reconnect(c, ios).goroutines[g] == c.goroutines[g] + if held then 1 else 0
  {
    var silent, all := Refreshing(c.entries, StaleLogins(c, ios), ios), Refreshing(c.entries, c.entries.Keys, ios);
    assert multiset(silent)[g] == if g in silent then 1 else 0;
    assert multiset(all)[g] == if g in all then 1 else 0;
  }

  // ---------------------------------------------------------------- records

  /** Nothing that is stored after was not stored before, among the records issued so far. */
  predicate NoneReturns(c: Conn, d: Conn, login: string, token: nat) {
    token < c.nextToken ==> token < d.nextToken && (Stored(d, login, token) ==> Stored(c, login, token))
  }

  /** Every stored record has been issued. */
  ghost predicate Issued(c: Conn) {
    forall login :: login in c.entries ==> c.entries[login].token < c.nextToken
  }

  ghost predicate AllIssued(s: Slave) {
    && (forall i :: 0 <= i < |s.auth| ==> Issued(s.auth[i]))
    && (forall i :: 0 <= i < |s.anon| ==> Issued(s.anon[i]))
  }

  lemma JoinIssues(c: Conn, ch: Chan, io: Io, login: string, token: nat)
    ensures NoneReturns(c, JoinChannel(c, ch, io), login, token)
    ensures Issued(c) ==> Issued(JoinChannel(c, ch, io)) && Issued(JoinAgain(c, ch, io))
  {
    JoinLaw(c, ch, io, login);
    forall other | Issued(c) && other in JoinChannel(c, ch, io).entries
      ensures JoinChannel(c, ch, io).entries[other].token < JoinChannel(c, ch, io).nextToken
    {
      JoinLaw(c, ch, io, other);
    }
  }

  /** What a step does to the connections it finds: it brings no record back, and keeps every stored
      record issued. */
  ghost predicate KeepsRecords(s: Slave, t: Slave, anon: bool, i: nat, login: string, token: nat) {
    && (i < |Pool(s, anon)| ==>
      i < |Pool(t, anon)| && NoneReturns(Pool(s, anon)[i], Pool(t, anon)[i], login, token))
    && (AllIssued(s) ==> AllIssued(t))
  }

  lemma OneConnKeepsRecords(s: Slave, b: bool, j: nat, d: Conn, anon: bool, i: nat, login: string, token: nat)
    requires j < |Pool(s, b)| && NoneReturns(Pool(s, b)[j], d, login, token)
    requires Issued(Pool(s, b)[j]) ==> Issued(d)
    ensures KeepsRecords(s, WithConn(s, b, j, d), anon, i, login, token)
  {
  }

  lemma AllocateKeepsRecords(s: Slave, limit: nat, ch: Chan, io: Io, anon: bool, i: nat, login: string, token: nat)
    ensures KeepsRecords(s, Allocate(s, limit, ch, io), anon, i, login, token)
  {
    var r := Reserve(s, limit, ch.id, ch.useAnonymous);
    assert Issued(NEW_CONN);
    assert KeepsRecords(s, r, anon, i, login, token);
    var last := |Pool(r, ch.useAnonymous)| - 1;
    var c := Pool(r, ch.useAnonymous)[last];
    JoinIssues(c, ch, io, login, token);
    OneConnKeepsRecords(r, ch.useAnonymous, last, JoinChannel(c, ch, io), anon, i, login, token);
  }

  lemma LeaveKeepsRecords(s: Slave, ch: Chan, anon: bool, i: nat, login: string, token: nat)
    requires SeatsExist(s) && ch.id in s.seats
    ensures KeepsRecords(s, Leave(s, ch), anon, i, login, token)
  {
    var seat := s.seats[ch.id];
    var c := Pool(s, seat.anon)[seat.conn];
    OneConnKeepsRecords(s, seat.anon, seat.conn, PartChannel(c, ch.login), anon, i, login, token);
  }

  lemma JoinChatKeepsRecords(s: Slave, limit: nat, ch: Chan, io: Io, anon: bool, i: nat, login: string, token: nat)
    requires SeatsExist(s)
    ensures KeepsRecords(s, JoinChat(s, limit, ch, io), anon, i, login, token)
  {
    if ch.id !in s.seats {
      AllocateKeepsRecords(s, limit, ch, io, anon, i, login, token);
    } else {
      var seat := s.seats[ch.id];
      if seat.anon == ch.useAnonymous {
        var c := Pool(s, seat.anon)[seat.conn];
        JoinIssues(c, ch, io, login, token);
        OneConnKeepsRecords(s, seat.anon, seat.conn, JoinAgain(c, ch, io), anon, i, login, token);
      } else {
        LeaveKeepsRecords(s, ch, anon, i, login, token);
        AllocateKeepsRecords(Leave(s, ch), limit, ch, io, anon, i, login, token);
      }
    }
  }

  lemma HearingKeepsRecords(c: Conn, l: string, m: Message, username: string, anon: bool, io: Io,
                            login: string, token: nat)
    ensures var d := Hear(c, l, m, username, anon, io);
      NoneReturns(c, d, login, token) && (Issued(c) ==> Issued(d))
  {
    var d := Hear(c, l, m, username, anon, io);
    if l in c.entries {
      HeardLaw(c, l, m, username, anon, io);
    }
    assert forall other :: other in d.entries ==>
      other in c.entries && d.entries[other].token == c.entries[other].token;
  }

  lemma SweepingKeepsRecords(c: Conn, ios: string -> Io, login: string, token: nat)
    ensures NoneReturns(c, Sweep(c, ios), login, token) && (Issued(c) ==> Issued(Sweep(c, ios)))
    ensures NoneReturns(c, Reconnect(c, ios), login, token) && (Issued(c) ==> Issued(Reconnect(c, ios)))
  {
  }

  lemma StepKeepsRecords(s: Slave, limit: nat, st: Step, anon: bool, i: nat, login: string, token: nat)
    requires SeatsExist(s) && Can(s, st)
    ensures KeepsRecords(s, Do(s, limit, st), anon, i, login, token)
  {
    match st
    case Command(ch, io) => JoinChatKeepsRecords(s, limit, ch, io, anon, i, login, token);
    case Received(b, j, l, m, username, io) =>
      var d := Hear(Pool(s, b)[j], l, m, username, b, io);
      HearingKeepsRecords(Pool(s, b)[j], l, m, username, b, io, login, token);
      OneConnKeepsRecords(s, b, j, d, anon, i, login, token);
      BanIsHandedBack(s, limit, b, j, l, m, username, io);
      if l in d.entries && m.BannedNotice? {
        JoinChatKeepsRecords(Receive(s, b, j, l, m, username, io), limit, d.entries[l].raw, io, anon, i, login, token);
      }
    case Resumed(b, j, g, now, ok) =>
      GoroutinesOnlyTouch(Pool(s, b)[j], b, g, now, ok);
      OneConnKeepsRecords(s, b, j, RunGoroutine(Pool(s, b)[j], b, g, now, ok), anon, i, login, token);
    case Swept(b, j, ios) =>
      SweepingKeepsRecords(Pool(s, b)[j], ios, login, token);
      OneConnKeepsRecords(s, b, j, Sweep(Pool(s, b)[j], ios), anon, i, login, token);
    case Reconnected(b, j, ios) =>
      SweepingKeepsRecords(Pool(s, b)[j], ios, login, token);
      OneConnKeepsRecords(s, b, j, Reconnect(Pool(s, b)[j], ios), anon, i, login, token);
  }

  lemma {:induction false} RunsKeepRecords(s: Slave, names: string -> string, limit: nat, steps: seq<Step>,
                                           anon: bool, i: nat, login: string, token: nat)
    requires SlaveRuns.Possible(s, names, limit, steps)
    ensures KeepsRecords(s, SlaveRuns.After(s, names, limit, steps), anon, i, login, token)
    decreases |steps|
  {
    if steps == [] {
    } else {
      StepKeepsRecords(s, limit, steps[0], anon, i, login, token);
      RunsKeepRecords(Do(s, limit, steps[0]), names, limit, steps[1..], anon, i, login, token);
    }
  }

  /** Once a record has left its connection it never comes back, in any run: a goroutine that still
      holds it touches nothing any more, even when the same channel has joined there again. */
  lemma RecordsNeverReturn(names: string -> string, limit: nat, early: seq<Step>, middle: seq<Step>, late: seq<Step>,
                           anon: bool, i: nat, login: string, token: nat)
    requires SlaveRuns.Possible(NO_CHANNELS, names, limit, early)
    requires var s := SlaveRuns.After(NO_CHANNELS, names, limit, early);
      && SlaveRuns.Possible(s, names, limit, middle)
      && SlaveRuns.Possible(SlaveRuns.After(s, names, limit, middle), names, limit, late)
    ensures var s := SlaveRuns.After(NO_CHANNELS, names, limit, early);
      var t := SlaveRuns.After(s, names, limit, middle);
      var u := SlaveRuns.After(t, names, limit, late);
      i < |Pool(s, anon)| && Stored(Pool(s, anon)[i], login, token) ==>
        && i < |Pool(t, anon)| && i < |Pool(u, anon)|
        && (!Stored(Pool(t, anon)[i], login, token) ==> !Stored(Pool(u, anon)[i], login, token))
  {
    var s := SlaveRuns.After(NO_CHANNELS, names, limit, early);
    var t := SlaveRuns.After(s, names, limit, middle);
    RunsKeepRecords(NO_CHANNELS, names, limit, early, anon, i, login, token);
    RunsKeepRecords(s, names, limit, middle, anon, i, login, token);
    RunsKeepRecords(t, names, limit, late, anon, i, login, token);
    assert AllIssued(NO_CHANNELS);
  }
}
