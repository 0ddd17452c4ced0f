/** The length counter of a connection against the entries it holds. */
module SlaveLengths {
  import opened SlaveState
  import opened SlaveRuns

  /** Every increment stored an entry and every decrement found one, except for the entries a sweep
      dropped and the parts that found none. */
  predicate Counted(c: Conn) {
    c.length == |c.entries| + c.dropped - c.vacated
  }

  ghost predicate AllCounted(s: Slave) {
    && (forall i :: 0 <= i < |s.auth| ==> Counted(s.auth[i]))
    && (forall i :: 0 <= i < |s.anon| ==> Counted(s.anon[i]))
  }

  lemma JoinCounts(c: Conn, ch: Chan, io: Io)
    requires Counted(c)
    ensures Counted(JoinChannel(c, ch, io)) && Counted(JoinAgain(c, ch, io))
  {
    var entries := JoinChannel(c, ch, io).entries;
    assert entries.Keys == c.entries.Keys + {ch.login};
    assert |entries| == |entries.Keys| && |c.entries| == |c.entries.Keys|;
  }

  lemma PartCounts(c: Conn, login: string)
    requires Counted(c)
    ensures Counted(PartChannel(c, login))
  {
    var entries := c.entries - {login};
    assert entries.Keys == c.entries.Keys - {login};
    assert |entries| == |entries.Keys| && |c.entries| == |c.entries.Keys|;
  }

  lemma SweepCounts(c: Conn, ios: string -> Io)
    requires Counted(c)
    ensures Counted(Sweep(c, ios)) && Counted(Reconnect(c, ios))
  {
    var swept, joined := Sweep(c, ios).entries, Reconnect(c, ios).entries;
    assert joined.Keys == c.entries.Keys;
    assert swept.Keys == c.entries.Keys - Overdue(c, ios);
    assert Overdue(c, ios) <= c.entries.Keys;
    assert |swept| == |swept.Keys| && |joined| == |joined.Keys| && |c.entries| == |c.entries.Keys|;
  }

  lemma SameLoginsCount(c: Conn, d: Conn)
    requires Counted(c) && d.entries.Keys == c.entries.Keys
    requires d.length == c.length && d.dropped == c.dropped && d.vacated == c.vacated
    ensures Counted(d)
  {
    assert |d.entries| == |d.entries.Keys| && |c.entries| == |c.entries.Keys|;
  }

  lemma OneConnCounts(s: Slave, anon: bool, i: nat, c: Conn)
    requires AllCounted(s) && i < |Pool(s, anon)| && Counted(c)
    ensures AllCounted(WithConn(s, anon, i, c))
  {
  }

  lemma ReserveCounts(s: Slave, limit: nat, id: string, anon: bool)
    requires AllCounted(s)
    ensures AllCounted(Reserve(s, limit, id, anon))
  {
    assert Counted(NEW_CONN);
  }

  lemma AllocateCounts(s: Slave, limit: nat, ch: Chan, io: Io)
    requires AllCounted(s)
    ensures AllCounted(Allocate(s, limit, ch, io))
  {
    var r := Reserve(s, limit, ch.id, ch.useAnonymous);
    ReserveCounts(s, limit, ch.id, ch.useAnonymous);
    var i := |Pool(r, ch.useAnonymous)| - 1;
    JoinCounts(Pool(r, ch.useAnonymous)[i], ch, io);
    OneConnCounts(r, ch.useAnonymous, i, JoinChannel(Pool(r, ch.useAnonymous)[i], ch, io));
  }

  lemma LeaveCounts(s: Slave, ch: Chan)
    requires AllCounted(s) && SeatsExist(s) && ch.id in s.seats
    ensures AllCounted(Leave(s, ch))
  {
    var seat := s.seats[ch.id];
    var c := PartChannel(Pool(s, seat.anon)[seat.conn], ch.login);
    PartCounts(Pool(s, seat.anon)[seat.conn], ch.login);
    OneConnCounts(s, seat.anon, seat.conn, c);
  }

  lemma JoinChatCounts(s: Slave, limit: nat, ch: Chan, io: Io)
    requires AllCounted(s) && SeatsExist(s)
    ensures AllCounted(JoinChat(s, limit, ch, io))
  {
    if ch.id !in s.seats {
      AllocateCounts(s, limit, ch, io);
    } else {
      var seat := s.seats[ch.id];
      if seat.anon == ch.useAnonymous {
        JoinCounts(Pool(s, seat.anon)[seat.conn], ch, io);
        OneConnCounts(s, seat.anon, seat.conn, JoinAgain(Pool(s, seat.anon)[seat.conn], ch, io));
      } else {
        LeaveCounts(s, ch);
        AllocateCounts(Leave(s, ch), limit, ch, io);
      }
    }
  }

  lemma ReceiveCounts(s: Slave, limit: nat, st: Step)
    requires st.Received? && AllCounted(s) && SeatsExist(s) && Can(s, st)
    ensures AllCounted(Do(s, limit, st))
  {
    var Received(anon, i, login, m, username, io) := st;
    var c := Pool(s, anon)[i];
    var d := Hear(c, login, m, username, anon, io);
    SameLoginsCount(c, d);
    OneConnCounts(s, anon, i, d);
    BanIsHandedBack(s, limit, anon, i, login, m, username, io);
    if login in d.entries && m.BannedNotice? {
      JoinChatCounts(Receive(s, anon, i, login, m, username, io), limit, d.entries[login].raw, io);
    }
  }

  lemma StepCounts(s: Slave, limit: nat, st: Step)
    requires AllCounted(s) && SeatsExist(s) && Can(s, st)
    ensures AllCounted(Do(s, limit, st))
  {
    match st
    case Command(ch, io) => JoinChatCounts(s, limit, ch, io);
    case Received(_, _, _, _, _, _) => ReceiveCounts(s, limit, st);
    case Resumed(anon, i, g, now, ok) =>
      GoroutinesOnlyTouch(Pool(s, anon)[i], anon, g, now, ok);
      var d := RunGoroutine(Pool(s, anon)[i], anon, g, now, ok);
      SameLoginsCount(Pool(s, anon)[i], d);
      OneConnCounts(s, anon, i, d);
    case Swept(anon, i, ios) =>
      SweepCounts(Pool(s, anon)[i], ios);
      OneConnCounts(s, anon, i, Sweep(Pool(s, anon)[i], ios));
    case Reconnected(anon, i, ios) =>
      SweepCounts(Pool(s, anon)[i], ios);
      OneConnCounts(s, anon, i, Reconnect(Pool(s, anon)[i], ios));
  }

  lemma {:induction false} RunsCount(s: Slave, names: string -> string, limit: nat, steps: seq<Step>)
    requires AllCounted(s) && Possible(s, names, limit, steps)
    ensures AllCounted(After(s, names, limit, steps))
    decreases |steps|
  {
    if steps == [] {
    } else {
      StepCounts(s, limit, steps[0]);
      RunsCount(Do(s, limit, steps[0]), names, limit, steps[1..]);
    }
  }

  /** After any run the length counter exceeds the number of entries by the entries the sweeps
      dropped, less the parts that found no entry. The two agree exactly when as many parts found
      no entry as sweeps dropped entries; and a rejoin or such a part needs a dropped entry of its
      own. */
  lemma LengthIsEntriesExactly(names: string -> string, limit: nat, steps: seq<Step>, anon: bool, i: nat)
    requires limit >= 1 && OneToOne(names) && Possible(NO_CHANNELS, names, limit, steps)
    ensures var pool := Pool(After(NO_CHANNELS, names, limit, steps), anon);
      i < |pool| ==>
        && pool[i].length == |pool[i].entries| + pool[i].dropped - pool[i].vacated
        && (pool[i].length == |pool[i].entries| <==> pool[i].dropped == pool[i].vacated)
        && pool[i].rejoins + pool[i].vacated <= pool[i].dropped
  {
    RunsCount(NO_CHANNELS, names, limit, steps);
    var pool := Pool(After(NO_CHANNELS, names, limit, steps), anon);
    if i < |pool| {
      AccountingChain(names, limit, steps, anon, i);
      assert Counted(pool[i]);
    }
  }

  // ---------------------------------------------------------------- a run where they differ

  const LONE := Chan("id", "id", 0, true, false)
  const LATER := JOIN_TIMEOUT + 1

  function Same(x: string): string {
    x
  }

  const JOIN := Command(LONE, Io(0, true))
  const START := Resumed(true, 0, Goroutine("id", 0, Spawned), 0, true)
  const SWEEP := Swept(true, 0, login => Io(LATER, true))
  const AGAIN := Command(LONE, Io(LATER, true))

  /** One join, its request unanswered until the sweep drops it, and the same join again. */
  function LostAndRejoined(): seq<Step> {
    [JOIN] + ([START] + ([SWEEP] + ([AGAIN] + [])))
  }

  lemma Then(s: Slave, limit: nat, st: Step, rest: seq<Step>)
    requires SeatsExist(s) && StepOk(s, Same, st) && Possible(Do(s, limit, st), Same, limit, rest)
    ensures Possible(s, Same, limit, [st] + rest)
    ensures After(s, Same, limit, [st] + rest) == After(Do(s, limit, st), Same, limit, rest)
  {
    assert ([st] + rest)[1..] == rest;
  }

  function OnlyConn(c: Conn): Slave {
    Slave(map["id" := Seat(0, true)], [], [c])
  }

  function Requested(): Conn {
    Conn(map["id" := Entry(JoinRequested, 0, LONE, 0)], 1, multiset{Goroutine("id", 0, Writing)}, 1, 1, 0, 0, 0)
  }

  lemma JoinedAndRequested(limit: nat)
    requires limit >= 1
    ensures var s := Do(NO_CHANNELS, limit, JOIN);
      Can(s, START) && SeatsExist(s) && Do(s, limit, START) == OnlyConn(Requested())
  {
    var g := Goroutine("id", 0, Spawned);
    var c := Conn(map["id" := Entry(WaitingLimits, 0, LONE, 0)], 1, multiset{g}, 1, 1, 0, 0, 0);
    var s := Do(NO_CHANNELS, limit, JOIN);
    assert JoinChannel(NEW_CONN, LONE, Io(0, true)) == c;
    assert s == OnlyConn(c);
    assert RunGoroutine(c, true, g, 0, true) == Requested();
  }

  lemma SweptAway(ios: string -> Io)
    requires ios("id").now == LATER
    ensures Sweep(Requested(), ios) == Requested().(entries := map[], dropped := 1)
  {
    var c := Requested();
    assert TimedOut(c.entries["id"], LATER) && !Stale(c.entries["id"], LATER);
    assert Overdue(c, ios) == {"id"};
    assert StaleLogins(c, ios) == {};
    assert Refreshing(c.entries, {}, ios) == {};
    assert Sweep(c, ios).entries == map[];
  }

  lemma SweptAndRejoined(limit: nat)
    ensures var swept := Do(OnlyConn(Requested()), limit, SWEEP);
      && SeatsExist(swept)
      && var c := Do(swept, limit, AGAIN).anon;
      |c| == 1 && c[0].length == 2 && |c[0].entries| == 1 && c[0].rejoins == 1
  {
    SweptAway(SWEEP.ios);
    var swept := Do(OnlyConn(Requested()), limit, SWEEP);
    assert swept == OnlyConn(Requested().(entries := map[], dropped := 1));
  }

  /** A run after which one connection counts two channels and holds one. */
  lemma LengthCanDiffer(limit: nat)
    requires limit >= 1
    ensures Possible(NO_CHANNELS, Same, limit, LostAndRejoined())
    ensures var c := After(NO_CHANNELS, Same, limit, LostAndRejoined()).anon;
      |c| == 1 && c[0].length == 2 && |c[0].entries| == 1 && c[0].rejoins == 1
  {
    JoinedAndRequested(limit);
    SweptAndRejoined(limit);
    var joined := Do(NO_CHANNELS, limit, JOIN);
    var requested := Do(joined, limit, START);
    var swept := Do(requested, limit, SWEEP);
    Then(swept, limit, AGAIN, []);
    Then(requested, limit, SWEEP, [AGAIN] + []);
    Then(joined, limit, START, [SWEEP] + ([AGAIN] + []));
    Then(NO_CHANNELS, limit, JOIN, [START] + ([SWEEP] + ([AGAIN] + [])));
  }
}
