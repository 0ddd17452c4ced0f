/** How a walk over a tag block can fail or run out, told from the text alone: the lists of tags it
    has read until then, and what stands behind them. */
module IrcTagEnds {
  import opened IrcTags

  /** What a line starts with when these tags are read and another one follows. */
  function Opening(ts: seq<Tag>): string {
    if ts == [] then "@" else "@" + Join(ts) + ";"
  }

  /** Only behind a semicolon is the first character of a key not inspected. */
  function Lead(ts: seq<Tag>): nat {
    if ts == [] then 0 else 1
  }

  /** The tag that starts at `p` meets its first delimiter at `k`. */
  ghost predicate KeyEndsAt(msg: string, p: nat, lead: nat, k: nat) {
    p + lead <= k < |msg| && PlainFrom(msg, p + lead, k) && msg[k] in {'=', ';', ' '}
  }

  /** It has no equals sign, or nothing in front of it. */
  ghost predicate NoKey(msg: string, p: nat, lead: nat, k: nat) {
    KeyEndsAt(msg, p, lead, k) && (msg[k] == '=' ==> k == p)
  }

  ghost predicate HasKey(msg: string, p: nat, lead: nat, k: nat) {
    KeyEndsAt(msg, p, lead, k) && msg[k] == '=' && k > p
  }

  /** Its value holds an equals sign. */
  ghost predicate SecondEquals(msg: string, p: nat, lead: nat, k: nat, j: nat) {
    HasKey(msg, p, lead, k) && k < j < |msg| && PlainFrom(msg, k + 1, j) && msg[j] == '='
  }

  /** The tag that starts at `p` is no tag. */
  ghost predicate BrokenTag(msg: string, p: nat, lead: nat) {
    (exists k: nat :: NoKey(msg, p, lead, k)) || (exists k: nat, j: nat :: SecondEquals(msg, p, lead, k, j))
  }

  /** The line ends within the tag that starts at `p`. */
  ghost predicate CutTag(msg: string, p: nat, lead: nat) {
    PlainFrom(msg, p + lead, |msg|) || (exists k: nat :: HasKey(msg, p, lead, k) && PlainFrom(msg, k + 1, |msg|))
  }

  // ---------------------------------------------------------------- one tag

  lemma BrokenTagIsMalformed(msg: string, p: nat, lead: nat, tags: map<string, string>)
    requires p + lead <= |msg| && BrokenTag(msg, p, lead)
    ensures Scan(msg, p + lead, p, "", tags).Malformed?
  {
    if k: nat :| NoKey(msg, p, lead, k) {
      SkipPlain(msg, p + lead, k, p, "", tags);
    } else {
      var k: nat, j: nat :| SecondEquals(msg, p, lead, k, j);
      SkipPlain(msg, p + lead, k, p, "", tags);
      SkipPlain(msg, k + 1, j, k + 1, msg[p..k], tags);
    }
  }

  lemma CutTagRunsOut(msg: string, p: nat, lead: nat, tags: map<string, string>)
    requires p + lead <= |msg| && CutTag(msg, p, lead)
    ensures Scan(msg, p + lead, p, "", tags) == RanOut(tags, |msg|)
  {
    if PlainFrom(msg, p + lead, |msg|) {
      SkipPlain(msg, p + lead, |msg|, p, "", tags);
    } else {
      var k: nat :| HasKey(msg, p, lead, k) && PlainFrom(msg, k + 1, |msg|);
      SkipPlain(msg, p + lead, k, p, "", tags);
      SkipPlain(msg, k + 1, |msg|, k + 1, msg[p..k], tags);
    }
  }

  lemma {:induction false} NextDelimiter(msg: string, i: nat) returns (j: nat)
    requires i <= |msg|
    ensures i <= j && PlainFrom(msg, i, j)
    ensures j < |msg| ==> msg[j] in {'=', ';', ' '}
    decreases |msg| - i
  {
    if i == |msg| || msg[i] in {'=', ';', ' '} {
      j := i;
    } else {
      j := NextDelimiter(msg, i + 1);
    }
  }

  /** How the tag at the start of a walk ends: at a semicolon at `j`, or not. */
  datatype TagEnd = Broken | Cut | AtSpace | AtSemicolon(t: Tag, j: nat)

  lemma ReadOneTag(msg: string, p: nat, lead: nat, tags: map<string, string>) returns (end: TagEnd)
    requires p + lead <= |msg| && lead <= 1
    ensures end.Broken? ==> BrokenTag(msg, p, lead)
    ensures end.Cut? ==> CutTag(msg, p, lead)
    ensures end.AtSpace? ==> Scan(msg, p + lead, p, "", tags).Terminated?
    ensures end.AtSemicolon? ==>
      && p < end.j < |msg| && msg[end.j] == ';' && TagOk(end.t, lead) && msg[p..end.j] == Text(end.t)
      && Scan(msg, p + lead, p, "", tags) == Scan(msg, end.j + 2, end.j + 1, "", tags[end.t.key := end.t.value])
  {
    var k := NextDelimiter(msg, p + lead);
    if k == |msg| {
      end := Cut;
    } else if msg[k] != '=' || k == p {
      assert NoKey(msg, p, lead, k);
      end := Broken;
    } else {
      end := ReadValue(msg, p, lead, k, tags);
    }
  }

  lemma ReadValue(msg: string, p: nat, lead: nat, k: nat, tags: map<string, string>) returns (end: TagEnd)
    requires lead <= 1 && HasKey(msg, p, lead, k)
    ensures end.Broken? ==> BrokenTag(msg, p, lead)
    ensures end.Cut? ==> CutTag(msg, p, lead)
    ensures end.AtSpace? ==> Scan(msg, p + lead, p, "", tags).Terminated?
    ensures end.AtSemicolon? ==>
      && p < end.j < |msg| && msg[end.j] == ';' && TagOk(end.t, lead) && msg[p..end.j] == Text(end.t)
      && Scan(msg, p + lead, p, "", tags) == Scan(msg, end.j + 2, end.j + 1, "", tags[end.t.key := end.t.value])
  {
    var j := NextDelimiter(msg, k + 1);
    SkipPlain(msg, p + lead, k, p, "", tags);
    SkipPlain(msg, k + 1, j, k + 1, msg[p..k], tags);
    if j == |msg| {
      end := Cut;
    } else if msg[j] == '=' {
      assert SecondEquals(msg, p, lead, k, j);
      end := Broken;
    } else if msg[j] == ' ' {
      end := AtSpace;
    } else {
      var t := Tag(msg[p..k], msg[k + 1..j]);
      PlainSlice(msg, p + lead, k);
      PlainSlice(msg, k + 1, j);
      assert t.key[lead..] == msg[p + lead..k];
      SliceAt(msg, p, k, j);
      end := AtSemicolon(t, j);
    }
  }

  // ---------------------------------------------------------------- the whole block

  /** `msg` holds, from `p` on, tags that are read and the semicolon behind them. */
  ghost predicate ReadFrom(msg: string, p: nat, ts: seq<Tag>, q: nat) {
    if ts == [] then q == p <= |msg|
    else HoldsList(msg, p, ts) && q == p + |Join(ts)| + 1 <= |msg| && msg[q - 1] == ';'
  }

  lemma Glued(msg: string, p: nat, j: nat, e: nat, head: string, tail: string, joined: string)
    requires p <= j < e <= |msg| && msg[p..j] == head && msg[j] == ';' && msg[j + 1..e] == tail
    requires joined == head + ";" + tail
    ensures p + |joined| == e && msg[p..p + |joined|] == joined
  {
    SliceAt(msg, p, j, e);
  }

  lemma JoinCons(t: Tag, rest: seq<Tag>)
    ensures Join([t] + rest) == if rest == [] then Text(t) else Text(t) + ";" + Join(rest)
  {
    assert ([t] + rest)[1..] == rest;
  }

  lemma ReadFromCons(msg: string, p: nat, t: Tag, j: nat, rest: seq<Tag>, q: nat)
    requires p <= j < |msg| && msg[p..j] == Text(t) && msg[j] == ';' && ReadFrom(msg, j + 1, rest, q)
    ensures ReadFrom(msg, p, [t] + rest, q)
  {
    JoinCons(t, rest);
    if rest != [] {
      Glued(msg, p, j, q - 1, Text(t), Join(rest), Join([t] + rest));
    }
  }

  /** The tags a walk reads before it fails or is cut short, and where the next one would start. */
  lemma {:induction false} ReadUntilTheEnd(msg: string, p: nat, lead: nat, tags: map<string, string>)
    returns (ts: seq<Tag>, q: nat)
    requires p + lead <= |msg| && lead <= 1
    ensures var w := Scan(msg, p + lead, p, "", tags);
      w.Malformed? || (w.RanOut? && w.next == |msg|) ==>
        && ReadFrom(msg, p, ts, q) && Readable(ts, lead)
        && (w.Malformed? ==> BrokenTag(msg, q, if ts == [] then lead else 1))
        && (w.RanOut? ==> CutTag(msg, q, if ts == [] then lead else 1))
    decreases |msg| - p
  {
    ts, q := [], p;
    var end := ReadOneTag(msg, p, lead, tags);
    match end
    case Broken => BrokenTagIsMalformed(msg, p, lead, tags);
    case Cut => CutTagRunsOut(msg, p, lead, tags);
    case AtSpace =>
    case AtSemicolon(t, j) =>
      if j + 2 <= |msg| {
        var rest: seq<Tag>;
        rest, q := ReadUntilTheEnd(msg, j + 1, 1, tags[t.key := t.value]);
        ts := [t] + rest;
        var w := Scan(msg, p + lead, p, "", tags);
        if w.Malformed? || (w.RanOut? && w.next == |msg|) {
          ReadFromCons(msg, p, t, j, rest, q);
          assert ts[1..] == rest;
        }
      }
  }

  lemma OpeningIsReadFrom(msg: string, ts: seq<Tag>)
    requires msg != "" && msg[0] == '@'
    ensures Opening(ts) <= msg <==> ReadFrom(msg, 1, ts, |Opening(ts)|)
  {
    var o := Opening(ts);
    if ts != [] {
      var n := |Join(ts)|;
      if o <= msg {
        assert o[1..1 + n] == Join(ts) && o[1 + n] == ';';
        assert msg[..|o|] == o;
        assert msg[1..1 + n] == msg[..|o|][1..1 + n];
      }
      if ReadFrom(msg, 1, ts, |o|) {
        assert msg[..|o|] == [msg[0]] + msg[1..1 + n] + [msg[1 + n]];
      }
    }
  }

  /** Walking over an opening. */
  lemma WalkOpening(msg: string, ts: seq<Tag>)
    requires msg != "" && msg[0] == '@' && Readable(ts, 0) && ReadFrom(msg, 1, ts, |Opening(ts)|)
    ensures var p := |Opening(ts)|;
      WalkTags(msg) == Scan(msg, p + Lead(ts), p, "", LastWins(map[], ts))
  {
    if ts != [] {
      WalkList(msg, 1, ts, 0, map[]);
    } else {
      assert LastWins(map[], ts) == map[];
    }
  }

  /** Behind these tags stands something that is no tag: without a key, or with a second equals
      sign. */
  ghost predicate BreaksAfter(msg: string, ts: seq<Tag>) {
    && Readable(ts, 0) && Opening(ts) <= msg && |Opening(ts)| + Lead(ts) <= |msg|
    && BrokenTag(msg, |Opening(ts)|, Lead(ts))
  }

  /** Behind these tags the line ends in the middle of another one. */
  ghost predicate CutAfter(msg: string, ts: seq<Tag>) {
    && Readable(ts, 0) && Opening(ts) <= msg && |Opening(ts)| + Lead(ts) <= |msg|
    && CutTag(msg, |Opening(ts)|, Lead(ts))
  }

  lemma FailingReadsAList(msg: string) returns (ts: seq<Tag>)
    requires msg != "" && msg[0] == '@' && WalkTags(msg).Malformed?
    ensures BreaksAfter(msg, ts)
  {
    var q;
    ts, q := ReadUntilTheEnd(msg, 1, 0, map[]);
    BrokenFits(msg, q, Lead(ts));
    OpeningIsReadFrom(msg, ts);
  }

  lemma BrokenFits(msg: string, p: nat, lead: nat)
    requires BrokenTag(msg, p, lead)
    ensures p + lead <= |msg|
  {
  }

  /** The tag block is rejected exactly when it breaks after some readable list of tags. */
  lemma InvalidExactly(msg: string)
    requires msg != "" && msg[0] == '@'
    ensures TagsOf(msg).InvalidTags? <==> exists ts :: BreaksAfter(msg, ts)
  {
    if WalkTags(msg).Malformed? {
      var ts := FailingReadsAList(msg);
    }
    if ts :| BreaksAfter(msg, ts) {
      OpeningIsReadFrom(msg, ts);
      WalkOpening(msg, ts);
      BrokenTagIsMalformed(msg, |Opening(ts)|, Lead(ts), LastWins(map[], ts));
    }
  }

  lemma CutFits(msg: string, p: nat, lead: nat)
    requires CutTag(msg, p, lead)
    ensures p + lead <= |msg|
  {
  }

  lemma CutListRunsOut(msg: string, ts: seq<Tag>)
    requires msg != "" && msg[0] == '@' && CutAfter(msg, ts)
    ensures WalkTags(msg) == RanOut(LastWins(map[], ts), |msg|)
  {
    OpeningIsReadFrom(msg, ts);
    WalkOpening(msg, ts);
    CutTagRunsOut(msg, |Opening(ts)|, Lead(ts), LastWins(map[], ts));
  }

  lemma RunningOutReadsAList(msg: string) returns (ts: seq<Tag>)
    requires msg != "" && msg[0] == '@' && WalkTags(msg).RanOut? && WalkTags(msg).next == |msg|
    ensures CutAfter(msg, ts)
  {
    var q;
    ts, q := ReadUntilTheEnd(msg, 1, 0, map[]);
    CutFits(msg, q, Lead(ts));
    OpeningIsReadFrom(msg, ts);
  }

  /** The walk ends with the line, and the tag it was in is dropped, exactly when the line is cut
      after a readable list of tags; the result is what that list says. */
  lemma CutShortExactly(msg: string, tags: map<string, string>)
    requires msg != "" && msg[0] == '@'
    ensures WalkTags(msg) == RanOut(tags, |msg|) <==> exists ts :: CutAfter(msg, ts) && tags == LastWins(map[], ts)
  {
    if WalkTags(msg) == RanOut(tags, |msg|) {
      var ts := RunningOutReadsAList(msg);
      CutListRunsOut(msg, ts);
    }
    if ts :| CutAfter(msg, ts) && tags == LastWins(map[], ts) {
      CutListRunsOut(msg, ts);
    }
  }
}
