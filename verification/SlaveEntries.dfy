/** The state machine of one channel's entry: what confirms it, and what keeps it from getting old. */
module SlaveEntries {
  import opened SlaveState
  import SlaveRuns

  predicate IsJoined(c: Conn, login: string) {
    login in c.entries && c.entries[login].state == Joined
  }

  predicate JoinedAt(s: Slave, anon: bool, i: nat, login: string) {
    i < |Pool(s, anon)| && IsJoined(Pool(s, anon)[i], login)
  }

  /** The server confirms the join: a room state, or our own join. */
  predicate Confirms(m: Message, username: string) {
    m.RoomState? || (m.Join? && (m.user == username || m.user == ANON_USER))
  }

  /** The step is the server confirming this channel on this connection. */
  predicate ConfirmsAt(st: Step, anon: bool, i: nat, login: string) {
    st.Received? && st.anon == anon && st.conn == i && st.login == login && Confirms(st.m, st.username)
  }

  // ---------------------------------------------------------------- joined means confirmed

  lemma JoiningConfirmsNothing(c: Conn, ch: Chan, io: Io, login: string)
    requires IsJoined(JoinChannel(c, ch, io), login)
    ensures IsJoined(c, login)
  {
  }

  lemma HearingConfirms(c: Conn, login: string, m: Message, username: string, anon: bool, io: Io, other: string)
    requires IsJoined(Hear(c, login, m, username, anon, io), other)
    ensures IsJoined(c, other) || (other == login && Confirms(m, username))
  {
  }

  lemma AllocatingConfirmsNothing(s: Slave, limit: nat, ch: Chan, io: Io, anon: bool, i: nat, login: string)
    requires JoinedAt(Allocate(s, limit, ch, io), anon, i, login)
    ensures JoinedAt(s, anon, i, login)
  {
    var r := Reserve(s, limit, ch.id, ch.useAnonymous);
    var last := |Pool(r, ch.useAnonymous)| - 1;
    if anon == ch.useAnonymous && i == last {
      JoiningConfirmsNothing(Pool(r, anon)[last], ch, io, login);
    }
  }

  lemma LeavingConfirmsNothing(s: Slave, ch: Chan, anon: bool, i: nat, login: string)
    requires SeatsExist(s) && ch.id in s.seats && JoinedAt(Leave(s, ch), anon, i, login)
    ensures JoinedAt(s, anon, i, login)
  {
  }

  lemma JoinChatConfirmsNothing(s: Slave, limit: nat, ch: Chan, io: Io, anon: bool, i: nat, login: string)
    requires SeatsExist(s) && JoinedAt(JoinChat(s, limit, ch, io), anon, i, login)
    ensures JoinedAt(s, anon, i, login)
  {
    if ch.id !in s.seats {
      AllocatingConfirmsNothing(s, limit, ch, io, anon, i, login);
    } else {
      var seat := s.seats[ch.id];
      if seat.anon != ch.useAnonymous {
        AllocatingConfirmsNothing(Leave(s, ch), limit, ch, io, anon, i, login);
        LeavingConfirmsNothing(s, ch, anon, i, login);
      } else if seat == Seat(i, anon) {
        JoiningConfirmsNothing(Pool(s, anon)[i], ch, io, login);
      }
    }
  }

  lemma SweepingConfirmsNothing(c: Conn, ios: string -> Io, login: string)
    ensures IsJoined(Sweep(c, ios), login) ==> IsJoined(c, login)
    ensures !IsJoined(Reconnect(c, ios), login)
  {
  }

  lemma RunningConfirmsNothing(c: Conn, anon: bool, g: Goroutine, now: int, ok: bool, login: string)
    ensures IsJoined(RunGoroutine(c, anon, g, now, ok), login) ==> IsJoined(c, login)
  {
    GoroutinesOnlyTouch(c, anon, g, now, ok);
  }

  lemma OnOneConn(s: Slave, b: bool, j: nat, d: Conn, anon: bool, i: nat, login: string)
    requires j < |Pool(s, b)|
    ensures JoinedAt(WithConn(s, b, j, d), anon, i, login) <==>
      if b == anon && j == i then IsJoined(d, login) else JoinedAt(s, anon, i, login)
  {
  }

  lemma ReceivingConfirms(s: Slave, limit: nat, st: Step, anon: bool, i: nat, login: string)
    requires st.Received? && SeatsExist(s) && Can(s, st) && JoinedAt(Do(s, limit, st), anon, i, login)
    ensures JoinedAt(s, anon, i, login) || ConfirmsAt(st, anon, i, login)
  {
    var Received(b, j, l, m, username, io) := st;
    var c := Pool(s, b)[j];
    var d := Hear(c, l, m, username, b, io);
    BanIsHandedBack(s, limit, b, j, l, m, username, io);
    var t := Receive(s, b, j, l, m, username, io);
    if l in d.entries && m.BannedNotice? {
      JoinChatConfirmsNothing(t, limit, d.entries[l].raw, io, anon, i, login);
    }
    OnOneConn(s, b, j, d, anon, i, login);
    if b == anon && j == i {
      HearingConfirms(c, l, m, username, b, io, login);
    }
  }

  /** Whatever happens to a slave, a channel is joined only when it was before or the server has
      just confirmed it on this very connection. */
  lemma JoinedMeansConfirmed(s: Slave, limit: nat, st: Step, anon: bool, i: nat, login: string)
    requires SeatsExist(s) && Can(s, st) && JoinedAt(Do(s, limit, st), anon, i, login)
    ensures JoinedAt(s, anon, i, login) || ConfirmsAt(st, anon, i, login)
  {
    match st
    case Command(ch, io) => JoinChatConfirmsNothing(s, limit, ch, io, anon, i, login);
    case Received(_, _, _, _, _, _) => ReceivingConfirms(s, limit, st, anon, i, login);
    case Resumed(b, j, g, now, ok) =>
      OnOneConn(s, b, j, RunGoroutine(Pool(s, b)[j], b, g, now, ok), anon, i, login);
      RunningConfirmsNothing(Pool(s, b)[j], b, g, now, ok, login);
    case Swept(b, j, ios) =>
      OnOneConn(s, b, j, Sweep(Pool(s, b)[j], ios), anon, i, login);
      SweepingConfirmsNothing(Pool(s, b)[j], ios, login);
    case Reconnected(b, j, ios) =>
      OnOneConn(s, b, j, Reconnect(Pool(s, b)[j], ios), anon, i, login);
      SweepingConfirmsNothing(Pool(s, b)[j], ios, login);
  }

  /** Over a whole run: a channel is joined on a connection only if it was at the start, or some
      step of the run was the server confirming it there. */
  lemma {:induction false} JoinedWasConfirmed(s: Slave, names: string -> string, limit: nat, steps: seq<Step>,
                                              anon: bool, i: nat, login: string)
    requires SlaveRuns.Possible(s, names, limit, steps)
    requires JoinedAt(SlaveRuns.After(s, names, limit, steps), anon, i, login)
    ensures JoinedAt(s, anon, i, login)
         || exists k :: 0 <= k < |steps| && ConfirmsAt(steps[k], anon, i, login)
    decreases |steps|
  {
    if steps == [] {
    } else {
      var t := Do(s, limit, steps[0]);
      JoinedWasConfirmed(t, names, limit, steps[1..], anon, i, login);
      if JoinedAt(t, anon, i, login) {
        JoinedMeansConfirmed(s, limit, steps[0], anon, i, login);
      } else {
        var k :| 0 <= k < |steps[1..]| && ConfirmsAt(steps[1..][k], anon, i, login);
        assert steps[k + 1] == steps[1..][k];
      }
    }
  }

  // ---------------------------------------------------------------- nothing gets old

  /** After a sweep no request is overdue and no joined or suspended channel has been silent for a
      day; what is missing had an overdue request. */
  lemma SweepLeavesNothingOld(c: Conn, ios: string -> Io, login: string)
    ensures var swept := Sweep(c, ios);
      var now := ios(login).now;
      && (login in swept.entries ==> !TimedOut(swept.entries[login], now) && !Stale(swept.entries[login], now))
      && (login in swept.entries <==> login in c.entries && !TimedOut(c.entries[login], now))
      && swept.length == c.length
  {
  }
}
