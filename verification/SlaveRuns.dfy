/** What every run of a slave keeps: seats, limits, counters and pools. */
module SlaveRuns {
  import opened SlaveState
  import opened Multiples

  /** The assumed naming: every id has one login and no two ids share one. */
  ghost predicate OneToOne(names: string -> string) {
    forall a, b :: names(a) == names(b) ==> a == b
  }

  ghost function SeatedOn(s: Slave, anon: bool, i: nat): set<string> {
    set id | id in s.seats && s.seats[id] == Seat(i, anon)
  }

  /** An entry belongs to the channel whose seat is this connection. */
  ghost predicate EntryOk(s: Slave, names: string -> string, anon: bool, i: nat, login: string, raw: Chan) {
    && raw.login == login == names(raw.id)
    && raw.useAnonymous == anon
    && raw.id in s.seats && s.seats[raw.id] == Seat(i, anon)
  }

  ghost predicate EntriesOk(s: Slave, names: string -> string, anon: bool, i: nat, c: Conn) {
    forall login :: login in c.entries ==> EntryOk(s, names, anon, i, login, c.entries[login].raw)
  }

  /** The counters of one connection that holds `seated` ids. */
  ghost predicate CountsOk(c: Conn, seated: nat, limit: nat, last: bool) {
    && seated <= limit
    && c.length == seated + c.rejoins
    && c.joins >= c.length
    && (!last ==> c.joins >= limit)
  }

  ghost predicate ConnOk(s: Slave, names: string -> string, limit: nat, anon: bool, i: nat)
    requires i < |Pool(s, anon)|
  {
    && EntriesOk(s, names, anon, i, Pool(s, anon)[i])
    && CountsOk(Pool(s, anon)[i], |SeatedOn(s, anon, i)|, limit, i == |Pool(s, anon)| - 1)
  }

  ghost predicate Inv(s: Slave, names: string -> string, limit: nat) {
    && SeatsExist(s)
    && forall anon, i: nat :: i < |Pool(s, anon)| ==> ConnOk(s, names, limit, anon, i)
  }

  ghost predicate StepOk(s: Slave, names: string -> string, st: Step) {
    Can(s, st) && (st.Command? ==> st.ch.login == names(st.ch.id))
  }

  // ---------------------------------------------------------------- one connection changes

  /** Replacing the entries of one connection by entries for the same or fewer channels, with the
      counters untouched. */
  lemma EntriesOnly(s: Slave, names: string -> string, limit: nat, anon: bool, i: nat, c: Conn)
    requires Inv(s, names, limit) && i < |Pool(s, anon)|
    requires var d := Pool(s, anon)[i]; c.length == d.length && c.joins == d.joins && c.rejoins == d.rejoins
    requires EntriesOk(s, names, anon, i, c)
    ensures Inv(WithConn(s, anon, i, c), names, limit)
  {
    var t := WithConn(s, anon, i, c);
    forall b, j: nat | j < |Pool(t, b)|
      ensures ConnOk(t, names, limit, b, j)
    {
      assert ConnOk(s, names, limit, b, j);
      assert SeatedOn(t, b, j) == SeatedOn(s, b, j);
    }
  }

  /** A channel leaving its seat: the connection it leaves, and the others. */
  lemma LeaveHere(s: Slave, names: string -> string, limit: nat, ch: Chan)
    requires OneToOne(names) && Inv(s, names, limit) && ch.id in s.seats && ch.login == names(ch.id)
    ensures var seat := s.seats[ch.id]; ConnOk(Leave(s, ch), names, limit, seat.anon, seat.conn)
  {
    var seat := s.seats[ch.id];
    var t := Leave(s, ch);
    assert ConnOk(s, names, limit, seat.anon, seat.conn);
    assert SeatedOn(t, seat.anon, seat.conn) == SeatedOn(s, seat.anon, seat.conn) - {ch.id};
    assert ch.id in SeatedOn(s, seat.anon, seat.conn);
    var c, d := Pool(s, seat.anon)[seat.conn], Pool(t, seat.anon)[seat.conn];
    assert d == PartChannel(c, ch.login);
    forall login | login in d.entries
      ensures EntryOk(t, names, seat.anon, seat.conn, login, d.entries[login].raw)
    {
      assert EntryOk(s, names, seat.anon, seat.conn, login, c.entries[login].raw);
    }
  }

  lemma LeaveElsewhere(s: Slave, names: string -> string, limit: nat, ch: Chan, anon: bool, i: nat)
    requires Inv(s, names, limit) && ch.id in s.seats
    requires i < |Pool(s, anon)| && s.seats[ch.id] != Seat(i, anon)
    ensures ConnOk(Leave(s, ch), names, limit, anon, i)
  {
    var t := Leave(s, ch);
    assert ConnOk(s, names, limit, anon, i);
    assert SeatedOn(t, anon, i) == SeatedOn(s, anon, i);
    var c := Pool(s, anon)[i];
    assert Pool(t, anon)[i] == c;
    forall login | login in c.entries
      ensures EntryOk(t, names, anon, i, login, c.entries[login].raw)
    {
      assert EntryOk(s, names, anon, i, login, c.entries[login].raw);
    }
  }

  lemma LeaveKeepsInv(s: Slave, names: string -> string, limit: nat, ch: Chan)
    requires OneToOne(names) && Inv(s, names, limit) && ch.id in s.seats && ch.login == names(ch.id)
    ensures Inv(Leave(s, ch), names, limit)
  {
    var t := Leave(s, ch);
    forall b, j: nat | j < |Pool(t, b)|
      ensures ConnOk(t, names, limit, b, j)
    {
      if s.seats[ch.id] == Seat(j, b) {
        LeaveHere(s, names, limit, ch);
      } else {
        LeaveElsewhere(s, names, limit, ch, b, j);
      }
    }
  }

  /** The pool after making sure its last connection has room: the invariant, with room at the
      end. */
  lemma RoomKeepsInv(s: Slave, names: string -> string, limit: nat, anon: bool)
    requires limit >= 1 && Inv(s, names, limit)
    ensures var t := WithPool(s, anon, PoolWithRoom(Pool(s, anon), limit));
      && Inv(t, names, limit)
      && Pool(t, anon)[|Pool(t, anon)| - 1].length < limit
  {
    var t := WithPool(s, anon, PoolWithRoom(Pool(s, anon), limit));
    forall b, j: nat | j < |Pool(t, b)|
      ensures ConnOk(t, names, limit, b, j)
    {
      assert SeatedOn(t, b, j) == SeatedOn(s, b, j);
      if j < |Pool(s, b)| {
        assert ConnOk(s, names, limit, b, j);
      } else {
        assert SeatedOn(s, b, j) == {};
      }
    }
  }

  /** Seat a new channel on the last connection of its pool, which has room. */
  function SeatLast(s: Slave, ch: Chan, io: Io): Slave
    requires Pool(s, ch.useAnonymous) != []
  {
    var i := |Pool(s, ch.useAnonymous)| - 1;
    WithConn(s.(seats := s.seats[ch.id := Seat(i, ch.useAnonymous)]), ch.useAnonymous, i,
             JoinChannel(Pool(s, ch.useAnonymous)[i], ch, io))
  }

  lemma UnseatedHasNoEntry(s: Slave, names: string -> string, limit: nat, ch: Chan, anon: bool, i: nat)
    requires OneToOne(names) && Inv(s, names, limit) && ch.login == names(ch.id) && ch.id !in s.seats
    requires i < |Pool(s, anon)|
    ensures ch.login !in Pool(s, anon)[i].entries
  {
    assert ConnOk(s, names, limit, anon, i);
    if ch.login in Pool(s, anon)[i].entries {
      assert false;
    }
  }

  lemma OneMoreSeated(s: Slave, t: Slave, id: string, anon: bool, i: nat)
    requires id !in s.seats && t.seats == s.seats[id := Seat(i, anon)]
    ensures |SeatedOn(t, anon, i)| == |SeatedOn(s, anon, i)| + 1
  {
    assert SeatedOn(t, anon, i) == SeatedOn(s, anon, i) + {id};
  }

  lemma SeatHere(s: Slave, names: string -> string, limit: nat, ch: Chan, io: Io)
    requires OneToOne(names) && Inv(s, names, limit) && ch.login == names(ch.id) && ch.id !in s.seats
    requires var pool := Pool(s, ch.useAnonymous); pool != [] && pool[|pool| - 1].length < limit
    ensures ConnOk(SeatLast(s, ch, io), names, limit, ch.useAnonymous, |Pool(s, ch.useAnonymous)| - 1)
  {
    var anon := ch.useAnonymous;
    var i := |Pool(s, anon)| - 1;
    var t := SeatLast(s, ch, io);
    assert ConnOk(s, names, limit, anon, i);
    OneMoreSeated(s, t, ch.id, anon, i);
    var c, d := Pool(s, anon)[i], Pool(t, anon)[i];
    UnseatedHasNoEntry(s, names, limit, ch, anon, i);
    assert d == JoinChannel(c, ch, io);
    forall login | login in d.entries
      ensures EntryOk(t, names, anon, i, login, d.entries[login].raw)
    {
      if login != ch.login {
        assert EntryOk(s, names, anon, i, login, c.entries[login].raw);
      }
    }
  }

  lemma SeatElsewhere(s: Slave, names: string -> string, limit: nat, ch: Chan, io: Io, anon: bool, i: nat)
    requires Inv(s, names, limit) && ch.id !in s.seats && Pool(s, ch.useAnonymous) != []
    requires i < |Pool(s, anon)| && !(anon == ch.useAnonymous && i == |Pool(s, anon)| - 1)
    ensures ConnOk(SeatLast(s, ch, io), names, limit, anon, i)
  {
    var t := SeatLast(s, ch, io);
    assert ConnOk(s, names, limit, anon, i);
    assert SeatedOn(t, anon, i) == SeatedOn(s, anon, i);
    var c := Pool(s, anon)[i];
    assert Pool(t, anon)[i] == c;
    forall login | login in c.entries
      ensures EntryOk(t, names, anon, i, login, c.entries[login].raw)
    {
      assert EntryOk(s, names, anon, i, login, c.entries[login].raw);
    }
  }

  lemma SeatLastKeepsInv(s: Slave, names: string -> string, limit: nat, ch: Chan, io: Io)
    requires OneToOne(names) && Inv(s, names, limit) && ch.login == names(ch.id) && ch.id !in s.seats
    requires var pool := Pool(s, ch.useAnonymous); pool != [] && pool[|pool| - 1].length < limit
    ensures Inv(SeatLast(s, ch, io), names, limit)
  {
    var t := SeatLast(s, ch, io);
    forall b, j: nat | j < |Pool(t, b)|
      ensures ConnOk(t, names, limit, b, j)
    {
      if b == ch.useAnonymous && j == |Pool(s, b)| - 1 {
        SeatHere(s, names, limit, ch, io);
      } else {
        SeatElsewhere(s, names, limit, ch, io, b, j);
      }
    }
  }

  lemma AllocateKeepsInv(s: Slave, names: string -> string, limit: nat, ch: Chan, io: Io)
    requires limit >= 1 && OneToOne(names) && Inv(s, names, limit) && ch.login == names(ch.id) && ch.id !in s.seats
    ensures Inv(Allocate(s, limit, ch, io), names, limit)
  {
    var anon := ch.useAnonymous;
    RoomKeepsInv(s, names, limit, anon);
    var r := WithPool(s, anon, PoolWithRoom(Pool(s, anon), limit));
    SeatLastKeepsInv(r, names, limit, ch, io);
    assert SeatLast(r, ch, io) == Allocate(s, limit, ch, io);
  }

  /** Joining again on the seat the channel has. */
  lemma JoinAgainKeepsInv(s: Slave, names: string -> string, limit: nat, ch: Chan, io: Io)
    requires Inv(s, names, limit) && ch.login == names(ch.id) && ch.id in s.seats
    requires s.seats[ch.id].anon == ch.useAnonymous
    ensures Inv(JoinChat(s, limit, ch, io), names, limit)
  {
    var seat := s.seats[ch.id];
    var t := JoinChat(s, limit, ch, io);
    forall b, j: nat | j < |Pool(t, b)|
      ensures ConnOk(t, names, limit, b, j)
    {
      assert ConnOk(s, names, limit, b, j);
      assert SeatedOn(t, b, j) == SeatedOn(s, b, j);
    }
  }

  lemma JoinChatKeepsInv(s: Slave, names: string -> string, limit: nat, ch: Chan, io: Io)
    requires limit >= 1 && OneToOne(names) && Inv(s, names, limit) && ch.login == names(ch.id)
    ensures Inv(JoinChat(s, limit, ch, io), names, limit)
  {
    if ch.id in s.seats {
      if s.seats[ch.id].anon == ch.useAnonymous {
        JoinAgainKeepsInv(s, names, limit, ch, io);
      } else {
        LeaveKeepsInv(s, names, limit, ch);
        AllocateKeepsInv(Leave(s, ch), names, limit, ch, io);
      }
    } else {
      AllocateKeepsInv(s, names, limit, ch, io);
    }
  }

  // ---------------------------------------------------------------- runs

  lemma SweptKeepsInv(s: Slave, names: string -> string, limit: nat, anon: bool, i: nat, ios: string -> Io)
    requires Inv(s, names, limit) && i < |Pool(s, anon)|
    ensures Inv(WithConn(s, anon, i, Sweep(Pool(s, anon)[i], ios)), names, limit)
    ensures Inv(WithConn(s, anon, i, Reconnect(Pool(s, anon)[i], ios)), names, limit)
  {
    assert ConnOk(s, names, limit, anon, i);
    EntriesOnly(s, names, limit, anon, i, Sweep(Pool(s, anon)[i], ios));
    EntriesOnly(s, names, limit, anon, i, Reconnect(Pool(s, anon)[i], ios));
  }

  lemma ResumedKeepsInv(s: Slave, names: string -> string, limit: nat, anon: bool, i: nat, g: Goroutine,
                        now: int, ok: bool)
    requires Inv(s, names, limit) && i < |Pool(s, anon)|
    ensures Inv(WithConn(s, anon, i, RunGoroutine(Pool(s, anon)[i], anon, g, now, ok)), names, limit)
  {
    assert ConnOk(s, names, limit, anon, i);
    var c := Pool(s, anon)[i];
    var d := RunGoroutine(c, anon, g, now, ok);
    GoroutinesOnlyTouch(c, anon, g, now, ok);
    forall login | login in d.entries
      ensures EntryOk(s, names, anon, i, login, d.entries[login].raw)
    {
      assert EntryOk(s, names, anon, i, login, c.entries[login].raw);
    }
    EntriesOnly(s, names, limit, anon, i, d);
  }

  /** A message that is no ban leaves the channel where it is. */
  lemma ReceiveKeepsInv(s: Slave, names: string -> string, limit: nat, anon: bool, i: nat, login: string,
                        m: Message, username: string, io: Io)
    requires Inv(s, names, limit) && i < |Pool(s, anon)| && (!m.BannedNotice? || anon)
    ensures Inv(Receive(s, anon, i, login, m, username, io), names, limit)
  {
    var c := Pool(s, anon)[i];
    assert ConnOk(s, names, limit, anon, i);
    if login in c.entries {
      assert EntryOk(s, names, anon, i, login, c.entries[login].raw);
    }
    EntriesOnly(s, names, limit, anon, i, Hear(c, login, m, username, anon, io));
  }

  /** The channel record a ban hands to the manager. */
  function BannedRaw(raw: Chan): Chan {
    raw.(botBanned := true, useAnonymous := true)
  }

  /** A ban on an authenticated connection is the manager joining the channel anonymously: the
      entry the ban marked is dropped with the seat. */
  lemma BanIsAnonymousJoin(s: Slave, names: string -> string, limit: nat, i: nat, login: string,
                           username: string, io: Io)
    requires Inv(s, names, limit) && i < |s.auth| && login in s.auth[i].entries
    ensures Do(s, limit, Received(false, i, login, BannedNotice, username, io))
         == JoinChat(s, limit, BannedRaw(s.auth[i].entries[login].raw), io)
  {
    var c := s.auth[i];
    assert ConnOk(s, names, limit, false, i);
    assert EntryOk(s, names, false, i, login, c.entries[login].raw);
    var t := Receive(s, false, i, login, BannedNotice, username, io);
    var ch := BannedRaw(c.entries[login].raw);
    assert t.auth[i].entries[login].raw == ch;
    var d := t.auth[i];
    assert d.entries - {login} == c.entries - {login};
    assert PartChannel(d, login) == PartChannel(c, login);
    assert Leave(t, ch).auth == Leave(s, ch).auth;
    assert Leave(t, ch) == Leave(s, ch);
  }

  lemma StepKeepsInv(s: Slave, names: string -> string, limit: nat, st: Step)
    requires limit >= 1 && OneToOne(names) && Inv(s, names, limit) && StepOk(s, names, st)
    ensures Inv(Do(s, limit, st), names, limit)
  {
    match st
    case Command(ch, io) => JoinChatKeepsInv(s, names, limit, ch, io);
    case Received(anon, i, login, m, username, io) =>
      assert ConnOk(s, names, limit, anon, i);
      if login in Pool(s, anon)[i].entries && m.BannedNotice? {
        BanKeepsInv(s, names, limit, anon, i, login, username, io);
      } else {
        if m.BannedNotice? {
          assert Do(s, limit, st) == s;
        } else {
          ReceiveKeepsInv(s, names, limit, anon, i, login, m, username, io);
        }
      }
    case Resumed(anon, i, g, now, ok) => ResumedKeepsInv(s, names, limit, anon, i, g, now, ok);
    case Swept(anon, i, ios) => SweptKeepsInv(s, names, limit, anon, i, ios);
    case Reconnected(anon, i, ios) => SweptKeepsInv(s, names, limit, anon, i, ios);
  }

  /** A ban on an anonymous connection marks the entry and joins the channel again where it is. */
  lemma BanWhileAnonymous(s: Slave, limit: nat, i: nat, login: string, username: string, io: Io)
    requires SeatsExist(s) && i < |s.anon| && login in s.anon[i].entries
    ensures var t := Receive(s, true, i, login, BannedNotice, username, io);
      && SeatsExist(t)
      && Do(s, limit, Received(true, i, login, BannedNotice, username, io))
         == JoinChat(t, limit, BannedRaw(s.anon[i].entries[login].raw), io)
  {
    BanIsHandedBack(s, limit, true, i, login, BannedNotice, username, io);
    var t := Receive(s, true, i, login, BannedNotice, username, io);
    assert t.anon[i].entries[login].raw == BannedRaw(s.anon[i].entries[login].raw);
  }

  lemma BanKeepsInv(s: Slave, names: string -> string, limit: nat, anon: bool, i: nat, login: string,
                    username: string, io: Io)
    requires limit >= 1 && OneToOne(names) && Inv(s, names, limit)
    requires i < |Pool(s, anon)| && login in Pool(s, anon)[i].entries
    ensures Inv(Do(s, limit, Received(anon, i, login, BannedNotice, username, io)), names, limit)
  {
    var raw := Pool(s, anon)[i].entries[login].raw;
    assert ConnOk(s, names, limit, anon, i);
    assert EntryOk(s, names, anon, i, login, raw);
    if anon {
      BanWhileAnonymous(s, limit, i, login, username, io);
      ReceiveKeepsInv(s, names, limit, anon, i, login, BannedNotice, username, io);
      JoinChatKeepsInv(Receive(s, anon, i, login, BannedNotice, username, io), names, limit, BannedRaw(raw), io);
    } else {
      BanIsAnonymousJoin(s, names, limit, i, login, username, io);
      JoinChatKeepsInv(s, names, limit, BannedRaw(raw), io);
    }
  }

  /** Steps that can be taken one after the other. */
  ghost predicate Possible(s: Slave, names: string -> string, limit: nat, steps: seq<Step>)
    decreases |steps|
  {
    steps != [] ==>
      && SeatsExist(s) && StepOk(s, names, steps[0])
      && Possible(Do(s, limit, steps[0]), names, limit, steps[1..])
  }

  ghost function After(s: Slave, names: string -> string, limit: nat, steps: seq<Step>): Slave
    requires Possible(s, names, limit, steps)
    decreases |steps|
  {
    if steps == [] then s else After(Do(s, limit, steps[0]), names, limit, steps[1..])
  }

  lemma {:induction false} RunsKeepInv(s: Slave, names: string -> string, limit: nat, steps: seq<Step>)
    requires limit >= 1 && OneToOne(names) && Inv(s, names, limit) && Possible(s, names, limit, steps)
    ensures Inv(After(s, names, limit, steps), names, limit)
    decreases |steps|
  {
    if steps == [] {
    } else {
      StepKeepsInv(s, names, limit, steps[0]);
      RunsKeepInv(Do(s, limit, steps[0]), names, limit, steps[1..]);
    }
  }

  // ---------------------------------------------------------------- the accounting

  lemma {:induction false} LoginsFit(logins: set<string>, ids: set<string>, names: string -> string)
    requires forall l :: l in logins ==> exists id :: id in ids && names(id) == l
    ensures |logins| <= |ids|
    decreases |logins|
  {
    if logins == {} {
    } else {
      var l :| l in logins;
      var id :| id in ids && names(id) == l;
      forall k | k in logins - {l}
        ensures exists j :: j in ids - {id} && names(j) == k
      {
        var j :| j in ids && names(j) == k;
        assert j in ids - {id};
      }
      LoginsFit(logins - {l}, ids - {id}, names);
    }
  }

  /** On each connection: map entries <= ids seated <= the limit, and the length counter is the
      ids seated plus the rejoins after a timed-out request was swept. */
  lemma AccountingChain(names: string -> string, limit: nat, steps: seq<Step>, anon: bool, i: nat)
    requires limit >= 1 && OneToOne(names) && Possible(NO_CHANNELS, names, limit, steps)
    requires i < |Pool(After(NO_CHANNELS, names, limit, steps), anon)|
    ensures var s := After(NO_CHANNELS, names, limit, steps);
      var c := Pool(s, anon)[i];
      && |c.entries| <= |SeatedOn(s, anon, i)| <= limit
      && c.length == |SeatedOn(s, anon, i)| + c.rejoins
  {
    RunsKeepInv(NO_CHANNELS, names, limit, steps);
    var s := After(NO_CHANNELS, names, limit, steps);
    var c := Pool(s, anon)[i];
    assert ConnOk(s, names, limit, anon, i);
    forall l | l in c.entries.Keys
      ensures exists id :: id in SeatedOn(s, anon, i) && names(id) == l
    {
      assert EntryOk(s, names, anon, i, l, c.entries[l].raw);
    }
    LoginsFit(c.entries.Keys, SeatedOn(s, anon, i), names);
  }

  /** A login has an entry on at most one connection of either pool: the one its seat names. */
  lemma OneConnectionPerLogin(names: string -> string, limit: nat, steps: seq<Step>, id: string, anon: bool, i: nat)
    requires limit >= 1 && OneToOne(names) && Possible(NO_CHANNELS, names, limit, steps)
    ensures var s := After(NO_CHANNELS, names, limit, steps);
      i < |Pool(s, anon)| && names(id) in Pool(s, anon)[i].entries ==>
        && id in s.seats && s.seats[id] == Seat(i, anon)
        && Pool(s, anon)[i].entries[names(id)].raw.id == id
        && Pool(s, anon)[i].entries[names(id)].raw.useAnonymous == anon
  {
    RunsKeepInv(NO_CHANNELS, names, limit, steps);
    var s := After(NO_CHANNELS, names, limit, steps);
    if i < |Pool(s, anon)| && names(id) in Pool(s, anon)[i].entries {
      assert ConnOk(s, names, limit, anon, i);
      assert EntryOk(s, names, anon, i, names(id), Pool(s, anon)[i].entries[names(id)].raw);
    }
  }

  function TotalJoins(pool: seq<Conn>): nat {
    if pool == [] then 0 else TotalJoins(pool[..|pool| - 1]) + pool[|pool| - 1].joins
  }

  lemma {:induction false} FullConnsJoined(pool: seq<Conn>, limit: nat)
    requires forall i :: 0 <= i < |pool| ==> pool[i].joins >= limit
    ensures TotalJoins(pool) >= |pool| * limit
  {
    if pool == [] {
    } else {
      FullConnsJoined(pool[..|pool| - 1], limit);
      assert |pool| * limit == (|pool| - 1) * limit + limit;
    }
  }

  /** A pool holds at most one connection more than its length increments fill. */
  lemma PoolGrowthIsBounded(names: string -> string, limit: nat, steps: seq<Step>, anon: bool)
    requires limit >= 1 && OneToOne(names) && Possible(NO_CHANNELS, names, limit, steps)
    ensures var pool := Pool(After(NO_CHANNELS, names, limit, steps), anon);
      |pool| <= 1 + TotalJoins(pool) / limit
  {
    RunsKeepInv(NO_CHANNELS, names, limit, steps);
    var s := After(NO_CHANNELS, names, limit, steps);
    var pool := Pool(s, anon);
    if pool != [] {
      var n := |pool| - 1;
      forall i: nat | i < n
        ensures pool[i].joins >= limit
      {
        assert ConnOk(s, names, limit, anon, i);
      }
      FullConnsJoined(pool[..n], limit);
      QuotientAtLeast(TotalJoins(pool), n, limit);
    }
  }

  // ---------------------------------------------------------------- migration

  ghost predicate IsCommandFor(st: Step, id: string) {
    st.Command? && st.ch.id == id
  }

  /** Joining a channel leaves every other seat alone, seats the channel in the pool it asks for,
      and keeps its seat when it is already there. */
  lemma JoinChatSeats(s: Slave, limit: nat, ch: Chan, io: Io)
    requires SeatsExist(s)
    ensures var t := JoinChat(s, limit, ch, io);
      && t.seats.Keys == s.seats.Keys + {ch.id}
      && (forall id :: id in s.seats && id != ch.id ==> t.seats[id] == s.seats[id])
      && t.seats[ch.id].anon == ch.useAnonymous
      && (ch.id in s.seats && s.seats[ch.id].anon == ch.useAnonymous ==> t.seats[ch.id] == s.seats[ch.id])
  {
  }

  /** No step but a command for the channel takes its seat away, and the only pool change it can
      make is to the anonymous pool. */
  lemma StepMovesOnlyToAnonymous(s: Slave, names: string -> string, limit: nat, st: Step, id: string)
    requires limit >= 1 && OneToOne(names) && Inv(s, names, limit) && StepOk(s, names, st)
    requires id in s.seats && !IsCommandFor(st, id)
    ensures var t := Do(s, limit, st);
      id in t.seats && (t.seats[id] == s.seats[id] || (!s.seats[id].anon && t.seats[id].anon))
  {
    match st
    case Command(ch, io) => JoinChatSeats(s, limit, ch, io);
    case Received(anon, i, login, m, username, io) =>
      assert ConnOk(s, names, limit, anon, i);
      if login in Pool(s, anon)[i].entries && m.BannedNotice? {
        var raw := Pool(s, anon)[i].entries[login].raw;
        assert EntryOk(s, names, anon, i, login, raw);
        BanSeats(s, names, limit, anon, i, login, username, io);
      }
    case Resumed(_, _, _, _, _) =>
    case Swept(_, _, _) =>
    case Reconnected(_, _, _) =>
  }

  /** A ban seats the banned channel anonymously and leaves every other seat alone. */
  lemma BanSeats(s: Slave, names: string -> string, limit: nat, anon: bool, i: nat, login: string,
                 username: string, io: Io)
    requires limit >= 1 && OneToOne(names) && Inv(s, names, limit)
    requires i < |Pool(s, anon)| && login in Pool(s, anon)[i].entries
    ensures var t := Do(s, limit, Received(anon, i, login, BannedNotice, username, io));
      var banned := Pool(s, anon)[i].entries[login].raw.id;
      && t.seats.Keys == s.seats.Keys
      && (forall id :: id in s.seats && id != banned ==> t.seats[id] == s.seats[id])
      && banned in t.seats && t.seats[banned].anon
      && (anon ==> t.seats[banned] == s.seats[banned])
  {
    var raw := Pool(s, anon)[i].entries[login].raw;
    assert ConnOk(s, names, limit, anon, i);
    assert EntryOk(s, names, anon, i, login, raw);
    if anon {
      BanWhileAnonymous(s, limit, i, login, username, io);
      JoinChatSeats(Receive(s, anon, i, login, BannedNotice, username, io), limit, BannedRaw(raw), io);
    } else {
      BanIsAnonymousJoin(s, names, limit, i, login, username, io);
      JoinChatSeats(s, limit, BannedRaw(raw), io);
    }
  }

  /** How often a run moves a channel between the pools. */
  ghost function Moves(s: Slave, names: string -> string, limit: nat, steps: seq<Step>, id: string): nat
    requires Possible(s, names, limit, steps)
    decreases |steps|
  {
    if steps == [] then 0
    else
      var t := Do(s, limit, steps[0]);
      var moved := id in s.seats && id in t.seats && s.seats[id].anon != t.seats[id].anon;
      (if moved then 1 else 0) + Moves(t, names, limit, steps[1..], id)
  }

  /** Between two commands for a channel, any number of bans, parts, reconnects and sweeps moves
      it between the pools at most once, and never out of the anonymous pool. */
  lemma {:induction false} AtMostOneMigration(s: Slave, names: string -> string, limit: nat, steps: seq<Step>,
                                              id: string)
    requires limit >= 1 && OneToOne(names) && Inv(s, names, limit) && Possible(s, names, limit, steps)
    requires id in s.seats && forall i :: 0 <= i < |steps| ==> !IsCommandFor(steps[i], id)
    ensures id in After(s, names, limit, steps).seats
    ensures Moves(s, names, limit, steps, id) <= if s.seats[id].anon then 0 else 1
    decreases |steps|
  {
    if steps == [] {
    } else {
      StepKeepsInv(s, names, limit, steps[0]);
      StepMovesOnlyToAnonymous(s, names, limit, steps[0], id);
      assert forall i :: 0 <= i < |steps[1..]| ==> steps[1..][i] == steps[i + 1];
      AtMostOneMigration(Do(s, limit, steps[0]), names, limit, steps[1..], id);
    }
  }
}
