/** A join that runs alone through the steps of `JoinRace` does what `SlaveState.JoinChat` does. */
module JoinRaceAlone {
  import opened SlaveState
  import SlaveRuns
  import R = JoinRace

  /** The race's seats, connection counters, lengths and entries are those of the slave. */
  ghost predicate Mirrors(r: R.Race, s: Slave, names: string -> string) {
    && r.seats == s.seats
    && r.auth == |s.auth| && r.anonymous == |s.anon|
    && forall c: Seat :: MirrorsAt(r, s, names, c)
  }

  ghost predicate MirrorsAt(r: R.Race, s: Slave, names: string -> string, c: Seat) {
    if c.conn < |Pool(s, c.anon)| then
      && R.Length(r, c) == Pool(s, c.anon)[c.conn].length
      && forall id :: (c, id) in r.entries <==> names(id) in Pool(s, c.anon)[c.conn].entries
    else
      forall id :: (c, id) !in r.entries
  }

  function Rank(pc: R.Pc): nat {
    match pc
    case Begun => 6
    case Parting(_) => 5
    case Parted(_) => 4
    case Unseated => 3
    case Allocated(_) => 2
    case Rejoining(_) => 2
    case Stored(_, _, _) => 1
  }

  /** Run the call for `id` to its end, with nothing in between. */
  function RunAlone(r: R.Race, limit: nat, id: string): R.Race
    requires id in r.calls
    decreases Rank(r.calls[id].pc)
  {
    var t := R.Next(r, limit, id);
    if id in t.calls then RunAlone(t, limit, id) else t
  }

  // ---------------------------------------------------------------- the parts of a join

  lemma LeavingMirrors(r: R.Race, s: Slave, names: string -> string, limit: nat, ch: Chan)
    requires SlaveRuns.OneToOne(names) && ch.login == names(ch.id) && Mirrors(r, s, names)
    requires SeatsExist(s) && ch.id in s.seats
    requires ch.id in r.calls && r.calls[ch.id].pc == R.Parting(s.seats[ch.id])
    ensures var t := R.Next(R.Next(r, limit, ch.id), limit, ch.id);
      Mirrors(t, Leave(s, ch), names)
      && t.calls == r.calls[ch.id := R.Call(r.calls[ch.id].anon, R.Unseated)]
  {
    var t := R.Next(R.Next(r, limit, ch.id), limit, ch.id);
    var u := Leave(s, ch);
    var seat := s.seats[ch.id];
    forall c: Seat
      ensures MirrorsAt(t, u, names, c)
    {
      assert MirrorsAt(r, s, names, c);
      if c == seat {
        assert Pool(u, c.anon)[c.conn] == PartChannel(Pool(s, c.anon)[c.conn], ch.login);
        assert forall id :: names(id) == ch.login ==> id == ch.id;
      } else if c.conn < |Pool(s, c.anon)| {
        assert Pool(u, c.anon)[c.conn] == Pool(s, c.anon)[c.conn];
      }
    }
  }

  lemma AllocatingMirrors(r: R.Race, s: Slave, names: string -> string, limit: nat, id: string, anon: bool)
    requires Mirrors(r, s, names) && id in r.calls && r.calls[id] == R.Call(anon, R.Unseated)
    ensures var t := R.Next(r, limit, id);
      var u := Reserve(s, limit, id, anon);
      var seat := Seat(|Pool(u, anon)| - 1, anon);
      Mirrors(t, u, names) && t.calls == r.calls[id := R.Call(anon, R.Allocated(seat))]
  {
    var t := R.Next(r, limit, id);
    var u := Reserve(s, limit, id, anon);
    var n := |Pool(s, anon)|;
    if n > 0 {
      assert MirrorsAt(r, s, names, Seat(n - 1, anon));
    }
    assert R.NeedsNewConn(r, limit, anon) <==> |Pool(u, anon)| == n + 1;
    forall c: Seat
      ensures MirrorsAt(t, u, names, c)
    {
      assert MirrorsAt(r, s, names, c);
      if c.conn < |Pool(s, c.anon)| {
        assert Pool(u, c.anon)[c.conn] == Pool(s, c.anon)[c.conn];
      }
    }
  }

  lemma StoringMirrorsHere(r: R.Race, c: Conn, names: string -> string, limit: nat, ch: Chan, io: Io, seat: Seat)
    requires SlaveRuns.OneToOne(names) && ch.login == names(ch.id) && ch.id in r.calls
    requires r.calls[ch.id].pc == R.Allocated(seat) || r.calls[ch.id].pc == R.Rejoining(seat)
    requires R.Length(r, seat) == c.length
    requires forall id :: (seat, id) in r.entries <==> names(id) in c.entries
    ensures ch.id in R.Next(r, limit, ch.id).calls
    ensures var t := R.Next(R.Next(r, limit, ch.id), limit, ch.id);
      var joined := JoinChannel(c, ch, io);
      && R.Length(t, seat) == joined.length
      && forall id :: (seat, id) in t.entries <==> names(id) in joined.entries
  {
    assert forall id :: names(id) == ch.login ==> id == ch.id;
  }

  /** Storing the entry and counting it is the connection's join. */
  lemma StoringMirrors(r: R.Race, s: Slave, names: string -> string, limit: nat, ch: Chan, io: Io, seat: Seat, d: Conn)
    requires SlaveRuns.OneToOne(names) && ch.login == names(ch.id) && Mirrors(r, s, names)
    requires seat.conn < |Pool(s, seat.anon)| && ch.id in r.calls
    requires r.calls[ch.id].pc == R.Allocated(seat) || r.calls[ch.id].pc == R.Rejoining(seat)
    requires var joined := JoinChannel(Pool(s, seat.anon)[seat.conn], ch, io);
      d.entries == joined.entries && d.length == joined.length
    ensures ch.id in R.Next(r, limit, ch.id).calls
    ensures var t := R.Next(R.Next(r, limit, ch.id), limit, ch.id);
      Mirrors(t, WithConn(s, seat.anon, seat.conn, d), names) && t.calls == r.calls - {ch.id}
  {
    var t := R.Next(R.Next(r, limit, ch.id), limit, ch.id);
    var u := WithConn(s, seat.anon, seat.conn, d);
    forall c: Seat
      ensures MirrorsAt(t, u, names, c)
    {
      assert MirrorsAt(r, s, names, c);
      if c == seat {
        assert Pool(u, c.anon)[c.conn] == d;
        StoringMirrorsHere(r, Pool(s, c.anon)[c.conn], names, limit, ch, io, c);
      } else if c.conn < |Pool(s, c.anon)| {
        assert Pool(u, c.anon)[c.conn] == Pool(s, c.anon)[c.conn];
      }
    }
    assert t.calls == r.calls - {ch.id};
  }

  // ---------------------------------------------------------------- the whole join

  lemma LastTwoSteps(r: R.Race, limit: nat, id: string)
    requires id in r.calls && (r.calls[id].pc.Allocated? || r.calls[id].pc.Rejoining?)
    ensures id in R.Next(r, limit, id).calls
    ensures RunAlone(r, limit, id) == R.Next(R.Next(r, limit, id), limit, id)
  {
    var t := R.Next(r, limit, id);
    assert t.calls[id].pc.Stored?;
    assert RunAlone(t, limit, id) == R.Next(t, limit, id);
  }

  lemma OneStepOn(r: R.Race, limit: nat, id: string)
    requires id in r.calls && id in R.Next(r, limit, id).calls
    ensures RunAlone(r, limit, id) == RunAlone(R.Next(r, limit, id), limit, id)
  {
  }

  lemma AllocateParts(s: Slave, limit: nat, ch: Chan, io: Io)
    ensures var u := Reserve(s, limit, ch.id, ch.useAnonymous);
      var i := |Pool(u, ch.useAnonymous)| - 1;
      Allocate(s, limit, ch, io) == WithConn(u, ch.useAnonymous, i, JoinChannel(Pool(u, ch.useAnonymous)[i], ch, io))
  {
  }

  lemma AllocateAlone(r: R.Race, s: Slave, names: string -> string, limit: nat, ch: Chan, io: Io)
    requires SlaveRuns.OneToOne(names) && ch.login == names(ch.id) && Mirrors(r, s, names)
    requires ch.id in r.calls && r.calls[ch.id] == R.Call(ch.useAnonymous, R.Unseated)
    ensures var t := RunAlone(r, limit, ch.id);
      Mirrors(t, Allocate(s, limit, ch, io), names) && t.calls == r.calls - {ch.id}
  {
    var anon := ch.useAnonymous;
    AllocatingMirrors(r, s, names, limit, ch.id, anon);
    var reserved, after := Reserve(s, limit, ch.id, anon), R.Next(r, limit, ch.id);
    var seat := Seat(|Pool(reserved, anon)| - 1, anon);
    var d := JoinChannel(Pool(reserved, anon)[seat.conn], ch, io);
    LastTwoSteps(after, limit, ch.id);
    StoringMirrors(after, reserved, names, limit, ch, io, seat, d);
    OneStepOn(r, limit, ch.id);
    AllocateParts(s, limit, ch, io);
    assert after.calls - {ch.id} == r.calls - {ch.id};
  }

  lemma MigrateAlone(r: R.Race, s: Slave, names: string -> string, limit: nat, ch: Chan, io: Io)
    requires SlaveRuns.OneToOne(names) && ch.login == names(ch.id) && Mirrors(r, s, names)
    requires SeatsExist(s) && ch.id in s.seats
    requires ch.id in r.calls && r.calls[ch.id] == R.Call(ch.useAnonymous, R.Parting(s.seats[ch.id]))
    ensures var t := RunAlone(r, limit, ch.id);
      Mirrors(t, Allocate(Leave(s, ch), limit, ch, io), names) && t.calls == r.calls - {ch.id}
  {
    LeavingMirrors(r, s, names, limit, ch);
    var parted := R.Next(r, limit, ch.id);
    var left := R.Next(parted, limit, ch.id);
    AllocateAlone(left, Leave(s, ch), names, limit, ch, io);
    OneStepOn(r, limit, ch.id);
    OneStepOn(parted, limit, ch.id);
    assert left.calls - {ch.id} == r.calls - {ch.id};
  }

  /** One call, run alone from its start to its end, leaves the seats, connections, lengths and
      entries of `JoinChat`. */
  lemma AloneIsJoinChat(r: R.Race, s: Slave, names: string -> string, limit: nat, ch: Chan, io: Io)
    requires SlaveRuns.OneToOne(names) && ch.login == names(ch.id)
    requires SeatsExist(s) && Mirrors(r, s, names)
    requires ch.id in r.calls && r.calls[ch.id] == R.Call(ch.useAnonymous, R.Begun)
    ensures var t := RunAlone(r, limit, ch.id);
      Mirrors(t, JoinChat(s, limit, ch, io), names) && t.calls == r.calls - {ch.id}
  {
    var begun := R.Next(r, limit, ch.id);
    OneStepOn(r, limit, ch.id);
    assert begun.calls - {ch.id} == r.calls - {ch.id};
    forall c: Seat
      ensures MirrorsAt(begun, s, names, c)
    {
      assert MirrorsAt(r, s, names, c);
    }
    if ch.id !in s.seats {
      AllocateAlone(begun, s, names, limit, ch, io);
    } else if s.seats[ch.id].anon != ch.useAnonymous {
      MigrateAlone(begun, s, names, limit, ch, io);
    } else {
      var seat := s.seats[ch.id];
      LastTwoSteps(begun, limit, ch.id);
      StoringMirrors(begun, s, names, limit, ch, io, seat, JoinAgain(Pool(s, seat.anon)[seat.conn], ch, io));
    }
  }
}
