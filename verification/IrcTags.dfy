/**
 The tag block of an IRC line: the index-walking parser, and what it accepts, stated as the lists of
 tags whose rendering it reads back.
 */
module IrcTags {

  /** `next` is the index at which the rest of the line starts. */
  datatype TagsResult = NoTags | InvalidTags | Tags(tags: map<string, string>, next: nat)

  /** How the walk over the block ends: at a space, or at the end of the line, where an unfinished
      tag is dropped. The caller cannot tell the two apart. */
  datatype Walk =
    | Malformed
    | Terminated(tags: map<string, string>, next: nat)
    | RanOut(tags: map<string, string>, next: nat)

  datatype Tag = Tag(key: string, value: string)

  // ---------------------------------------------------------------- the walk

  /** The walk from index `i`; the current key or value started at `s`. */
  function Scan(msg: string, i: nat, s: nat, key: string, tags: map<string, string>): Walk
    requires s <= i && s <= |msg|
    decreases |msg| - i
  {
    if i >= |msg| then RanOut(tags, i)
    else
      match msg[i]
      case '=' =>
        if key != "" || s == i then Malformed else Scan(msg, i + 1, i + 1, msg[s..i], tags)
      case ';' =>
        // the index advances twice: the first character of the next key is not inspected
        if key == "" then Malformed else Scan(msg, i + 2, i + 1, "", tags[key := msg[s..i]])
      case ' ' =>
        if key == "" then Malformed else Terminated(tags[key := msg[s..i]], i + 1)
      case _ => Scan(msg, i + 1, s, key, tags)
  }

  function Visible(w: Walk): TagsResult {
    match w
    case Malformed => InvalidTags
    case Terminated(tags, next) => Tags(tags, next)
    case RanOut(tags, next) => Tags(tags, next)
  }

  function WalkTags(msg: string): Walk
    requires msg != ""
  {
    Scan(msg, 1, 1, "", map[])
  }

  function TagsOf(msg: string): TagsResult
    requires msg != ""
  {
    if msg[0] != '@' then NoTags else Visible(WalkTags(msg))
  }

  method ParseTags(msg: string) returns (r: TagsResult)
    requires msg != ""
    ensures r == TagsOf(msg)
  {
    var i := 0;
    if msg[i] != '@' {
      return NoTags;
    }

    i := i + 1;
    var s := i;

    var tags: map<string, string> := map[];
    var key := "";

    while i < |msg|
      invariant 1 <= s <= i && s <= |msg|
      invariant Scan(msg, i, s, key, tags) == WalkTags(msg)
      decreases |msg| - i
    {
      match msg[i] {
        case '=' =>
          if key != "" || s == i {
            return InvalidTags;
          }
          key := msg[s..i];
          s := i + 1;
        case ';' =>
          if key == "" {
            return InvalidTags;
          }
          tags := tags[key := msg[s..i]];
          key := "";
          i := i + 1;
          s := i;
        case ' ' =>
          if key == "" {
            return InvalidTags;
          }
          tags := tags[key := msg[s..i]];
          return Tags(tags, i + 1);
        case _ =>
      }
      i := i + 1;
    }

    return Tags(tags, i);
  }

  // ---------------------------------------------------------------- tag lists

  predicate Plain(s: string) {
    '=' !in s && ';' !in s && ' ' !in s
  }

  function Text(t: Tag): string {
    t.key + "=" + t.value
  }

  function Join(ts: seq<Tag>): string {
    if ts == [] then "" else if |ts| == 1 then Text(ts[0]) else Text(ts[0]) + ";" + Join(ts[1..])
  }

  /** A tag block as it stands at the start of a line. */
  function Render(ts: seq<Tag>): string {
    "@" + Join(ts) + " "
  }

  /** The value of a repeated key is its last one. */
  function LastWins(tags: map<string, string>, ts: seq<Tag>): map<string, string>
    decreases |ts|
  {
    if ts == [] then tags else LastWins(tags[ts[0].key := ts[0].value], ts[1..])
  }

  /** `j` is the last tag of the list with this key. */
  ghost predicate LastTagFor(ts: seq<Tag>, key: string, j: nat) {
    j < |ts| && ts[j].key == key && forall k :: j < k < |ts| ==> ts[k].key != key
  }

  lemma {:induction false} LastWinsMeaning(tags: map<string, string>, ts: seq<Tag>, key: string)
    ensures var r := LastWins(tags, ts);
      if exists i :: 0 <= i < |ts| && ts[i].key == key then
        exists j: nat :: LastTagFor(ts, key, j) && key in r && r[key] == ts[j].value
      else
        (key in r <==> key in tags) && (key in r ==> r[key] == tags[key])
    decreases |ts|
  {
    if ts == [] {
    } else {
      var t := ts[0];
      var more := tags[t.key := t.value];
      LastWinsMeaning(more, ts[1..], key);
      assert forall i :: 0 <= i < |ts[1..]| ==> ts[1..][i] == ts[i + 1];
      if j: nat :| LastTagFor(ts[1..], key, j) {
        assert ts[j + 1].key == key;
        assert LastTagFor(ts, key, j + 1);
      } else if t.key == key {
        assert LastTagFor(ts, key, 0);
      }
    }
  }

  /** A tag whose key is not empty and whose delimiters are only its own; the first `lead`
      characters of the key are free. */
  predicate TagOk(t: Tag, lead: nat) {
    t.key != "" && lead <= |t.key| && Plain(t.key[lead..]) && Plain(t.value)
  }

  /** The lists the parser reads: the first character of every key but the first is free. */
  predicate Readable(ts: seq<Tag>, lead: nat)
    decreases |ts|
  {
    ts != [] ==> TagOk(ts[0], lead) && Readable(ts[1..], 1)
  }

  /** The lists of the strict format: nothing but the separators is a separator. */
  predicate Strict(ts: seq<Tag>) {
    forall i :: 0 <= i < |ts| ==> TagOk(ts[i], 0)
  }

  lemma {:induction false} StrictIsReadable(ts: seq<Tag>, lead: nat)
    requires Strict(ts) && lead <= 1
    ensures Readable(ts, lead)
    decreases |ts|
  {
    if ts == [] {
    } else {
      var t := ts[0];
      assert TagOk(t, 0);
      assert t.key[0..] == t.key;
      assert forall c :: c in t.key[lead..] ==> c in t.key;
      StrictIsReadable(ts[1..], 1);
    }
  }

  // ---------------------------------------------------------------- reading a rendering

  ghost predicate PlainFrom(msg: string, i: nat, j: nat) {
    i <= j <= |msg| && forall k :: i <= k < j ==> msg[k] != '=' && msg[k] != ';' && msg[k] != ' '
  }

  lemma {:induction false} SkipPlain(msg: string, i: nat, j: nat, s: nat, key: string, tags: map<string, string>)
    requires s <= i && PlainFrom(msg, i, j)
    ensures Scan(msg, i, s, key, tags) == Scan(msg, j, s, key, tags)
    decreases j - i
  {
    if i < j {
      SkipPlain(msg, i + 1, j, s, key, tags);
    }
  }

  /** `msg` holds the text of `t` at `s`. */
  ghost predicate HoldsAt(msg: string, s: nat, t: Tag) {
    s + |Text(t)| <= |msg| && msg[s..s + |Text(t)|] == Text(t)
  }

  lemma TextPositions(msg: string, s: nat, t: Tag, lead: nat)
    requires HoldsAt(msg, s, t) && TagOk(t, lead)
    ensures var e := s + |t.key|; var f := s + |Text(t)|;
      && s < e < f <= |msg| && msg[e] == '='
      && msg[s..e] == t.key && msg[e + 1..f] == t.value
      && PlainFrom(msg, s + lead, e) && PlainFrom(msg, e + 1, f)
  {
    var e, f := s + |t.key|, s + |Text(t)|;
    var text := Text(t);
    assert forall k :: s <= k < f ==> msg[k] == text[k - s];
    assert text[|t.key|] == '=';
    assert text[..|t.key|] == t.key && text[|t.key| + 1..] == t.value;
    forall k | s + lead <= k < e
      ensures msg[k] != '=' && msg[k] != ';' && msg[k] != ' '
    {
      assert msg[k] == t.key[lead..][k - s - lead];
    }
    forall k | e + 1 <= k < f
      ensures msg[k] != '=' && msg[k] != ';' && msg[k] != ' '
    {
      assert msg[k] == t.value[k - e - 1];
    }
  }

  /** Walking over one tag up to the delimiter behind it. */
  lemma WalkOneTag(msg: string, s: nat, t: Tag, lead: nat, tags: map<string, string>)
    requires HoldsAt(msg, s, t) && TagOk(t, lead)
    ensures var e := s + |t.key|; var f := s + |Text(t)|;
      e < f && msg[e + 1..f] == t.value
      && Scan(msg, s + lead, s, "", tags) == Scan(msg, f, e + 1, t.key, tags)
  {
    var e, f := s + |t.key|, s + |Text(t)|;
    TextPositions(msg, s, t, lead);
    SkipPlain(msg, s + lead, e, s, "", tags);
    SkipPlain(msg, e + 1, f, e + 1, t.key, tags);
  }

  lemma PartsOfSlice(msg: string, s: nat, head: string, tail: string, joined: string)
    requires joined == head + ";" + tail && s + |joined| <= |msg| && msg[s..s + |joined|] == joined
    ensures |joined| == |head| + 1 + |tail|
    ensures msg[s..s + |head|] == head && msg[s + |head|] == ';'
    ensures msg[s + |head| + 1..s + |head| + 1 + |tail|] == tail
  {
    var held := msg[s..s + |joined|];
    assert joined[..|head|] == head && joined[|head|] == ';' && joined[|head| + 1..] == tail;
    assert held[..|head|] == msg[s..s + |head|] && held[|head|] == msg[s + |head|];
    assert held[|head| + 1..] == msg[s + |head| + 1..s + |joined|];
  }

  /** `msg` holds the joined tags at `s`. */
  ghost predicate HoldsList(msg: string, s: nat, ts: seq<Tag>) {
    s + |Join(ts)| <= |msg| && msg[s..s + |Join(ts)|] == Join(ts)
  }

  lemma JoinMore(ts: seq<Tag>)
    requires |ts| > 1
    ensures Join(ts) == Text(ts[0]) + ";" + Join(ts[1..])
    ensures |Join(ts)| == |Text(ts[0])| + 1 + |Join(ts[1..])|
  {
  }

  lemma FirstTagHeld(msg: string, s: nat, ts: seq<Tag>)
    requires ts != [] && HoldsList(msg, s, ts)
    ensures HoldsAt(msg, s, ts[0])
  {
    if |ts| == 1 {
      assert Join(ts) == Text(ts[0]);
    } else {
      JoinMore(ts);
      PartsOfSlice(msg, s, Text(ts[0]), Join(ts[1..]), Join(ts));
    }
  }

  lemma OtherTagsHeld(msg: string, s: nat, ts: seq<Tag>)
    requires |ts| > 1 && HoldsList(msg, s, ts)
    ensures s + |Text(ts[0])| < |msg| && msg[s + |Text(ts[0])|] == ';'
    ensures HoldsList(msg, s + |Text(ts[0])| + 1, ts[1..])
  {
    JoinMore(ts);
    PartsOfSlice(msg, s, Text(ts[0]), Join(ts[1..]), Join(ts));
  }

  /** The walk behind a value: a space ends it, a semicolon starts the next key. */
  function PastValue(msg: string, f: nat, tags: map<string, string>): Walk
    requires f < |msg|
  {
    if msg[f] == ' ' then Terminated(tags, f + 1) else Scan(msg, f + 2, f + 1, "", tags)
  }

  predicate EndsValue(c: char) {
    c == ' ' || c == ';'
  }

  /** Walking over one tag and the delimiter behind it. */
  lemma WalkTagAndDelimiter(msg: string, s: nat, t: Tag, lead: nat, tags: map<string, string>)
    requires HoldsAt(msg, s, t) && TagOk(t, lead)
    requires s + |Text(t)| < |msg| && EndsValue(msg[s + |Text(t)|])
    ensures Scan(msg, s + lead, s, "", tags) == PastValue(msg, s + |Text(t)|, tags[t.key := t.value])
  {
    WalkOneTag(msg, s, t, lead, tags);
  }

  /** The first of several tags is read, and the walk goes on at the second. */
  lemma WalkFirst(msg: string, s: nat, ts: seq<Tag>, lead: nat, tags: map<string, string>)
    requires |ts| > 1 && TagOk(ts[0], lead) && HoldsList(msg, s, ts)
    ensures var p := s + |Text(ts[0])| + 1;
      && HoldsList(msg, p, ts[1..]) && p + |Join(ts[1..])| == s + |Join(ts)|
      && Scan(msg, s + lead, s, "", tags) == Scan(msg, p + 1, p, "", tags[ts[0].key := ts[0].value])
  {
    JoinMore(ts);
    FirstTagHeld(msg, s, ts);
    OtherTagsHeld(msg, s, ts);
    WalkTagAndDelimiter(msg, s, ts[0], lead, tags);
  }

  lemma WalkOnly(msg: string, s: nat, ts: seq<Tag>, lead: nat, tags: map<string, string>)
    requires |ts| == 1 && TagOk(ts[0], lead)
    requires HoldsList(msg, s, ts) && s + |Join(ts)| < |msg| && EndsValue(msg[s + |Join(ts)|])
    ensures Scan(msg, s + lead, s, "", tags) == PastValue(msg, s + |Join(ts)|, tags[ts[0].key := ts[0].value])
  {
    FirstTagHeld(msg, s, ts);
    WalkTagAndDelimiter(msg, s, ts[0], lead, tags);
  }

  /** The walk over a list of tags up to its last delimiter, a space or a semicolon. */
  lemma {:induction false} WalkList(msg: string, s: nat, ts: seq<Tag>, lead: nat, tags: map<string, string>)
    requires ts != [] && Readable(ts, lead)
    requires HoldsList(msg, s, ts) && s + |Join(ts)| < |msg| && EndsValue(msg[s + |Join(ts)|])
    ensures Scan(msg, s + lead, s, "", tags) == PastValue(msg, s + |Join(ts)|, LastWins(tags, ts))
    decreases |ts|
  {
    var t := ts[0];
    var more := tags[t.key := t.value];
    assert LastWins(tags, ts) == LastWins(more, ts[1..]);
    if |ts| == 1 {
      assert LastWins(more, ts[1..]) == more;
      WalkOnly(msg, s, ts, lead, tags);
    } else {
      WalkFirst(msg, s, ts, lead, tags);
      WalkList(msg, s + |Text(t)| + 1, ts[1..], 1, more);
    }
  }

  // ---------------------------------------------------------------- writing down what was read

  /** The walk ended at a delimiter, at this index. */
  function LastDelimiter(msg: string, w: Walk): nat
    requires EndsAtDelimiter(msg, w)
  {
    if w.Terminated? then w.next - 1 else |msg| - 1
  }

  predicate EndsAtDelimiter(msg: string, w: Walk) {
    || (w.Terminated? && 0 < w.next <= |msg|)
    || (w.RanOut? && w.next == |msg| + 1 && msg != "")
  }

  /** What has been walked of the current tag. */
  ghost predicate Walked(msg: string, i: nat, s: nat, key: string, lead: nat) {
    && s <= i && s <= |msg| && i <= |msg|
    && if key == "" then s + lead <= i && PlainFrom(msg, s + lead, i)
       else lead <= |key| && Plain(key[lead..]) && PlainFrom(msg, s, i)
  }

  /** The text between the start of the current tag and `end`. */
  function Pending(msg: string, s: nat, end: nat, key: string): string
    requires s <= end <= |msg|
  {
    if key == "" then msg[s..end] else key + "=" + msg[s..end]
  }

  lemma SliceAt(msg: string, s: nat, i: nat, end: nat)
    requires s <= i < end <= |msg|
    ensures msg[s..end] == msg[s..i] + [msg[i]] + msg[i + 1..end]
  {
  }

  lemma ReadableCons(t: Tag, rest: seq<Tag>, lead: nat, tags: map<string, string>)
    requires TagOk(t, lead) && rest != [] && Readable(rest, 1)
    ensures Readable([t] + rest, lead) && Join([t] + rest) == Text(t) + ";" + Join(rest)
    ensures LastWins(tags, [t] + rest) == LastWins(tags[t.key := t.value], rest)
  {
    assert ([t] + rest)[1..] == rest;
  }

  lemma ReadableOne(t: Tag, lead: nat, tags: map<string, string>)
    requires TagOk(t, lead)
    ensures Readable([t], lead) && Join([t]) == Text(t) && LastWins(tags, [t]) == tags[t.key := t.value]
  {
    assert [t][1..] == [];
    assert LastWins(tags[t.key := t.value], []) == tags[t.key := t.value];
  }

  lemma PlainSlice(msg: string, i: nat, j: nat)
    requires PlainFrom(msg, i, j)
    ensures Plain(msg[i..j])
  {
  }

  /** The walk `w`, with the current tag starting at `s`, read the readable list `ts`. */
  ghost predicate ReadAs(msg: string, s: nat, key: string, lead: nat, tags: map<string, string>, w: Walk, ts: seq<Tag>)
    requires EndsAtDelimiter(msg, w)
  {
    var end := LastDelimiter(msg, w);
    && ts != [] && Readable(ts, lead)
    && s <= end < |msg| && Pending(msg, s, end, key) == Join(ts)
    && msg[end] == (if w.Terminated? then ' ' else ';')
    && w.tags == LastWins(tags, ts)
  }

  lemma AfterKey(msg: string, s: nat, i: nat, lead: nat, tags: map<string, string>, w: Walk, ts: seq<Tag>)
    requires EndsAtDelimiter(msg, w) && s < i < |msg| && msg[i] == '='
    requires ReadAs(msg, i + 1, msg[s..i], lead, tags, w, ts)
    ensures ReadAs(msg, s, "", lead, tags, w, ts)
  {
    SliceAt(msg, s, i, LastDelimiter(msg, w));
  }

  lemma AfterTag(msg: string, s: nat, i: nat, key: string, lead: nat, tags: map<string, string>, w: Walk,
                 rest: seq<Tag>)
    requires EndsAtDelimiter(msg, w) && s <= i < |msg| && msg[i] == ';' && key != ""
    requires TagOk(Tag(key, msg[s..i]), lead)
    requires ReadAs(msg, i + 1, "", 1, tags[key := msg[s..i]], w, rest)
    ensures ReadAs(msg, s, key, lead, tags, w, [Tag(key, msg[s..i])] + rest)
  {
    ReadableCons(Tag(key, msg[s..i]), rest, lead, tags);
    SliceAt(msg, s, i, LastDelimiter(msg, w));
  }

  lemma LastTag(msg: string, s: nat, i: nat, key: string, lead: nat, tags: map<string, string>, w: Walk)
    requires EndsAtDelimiter(msg, w) && s <= i < |msg| && key != "" && LastDelimiter(msg, w) == i
    requires msg[i] == (if w.Terminated? then ' ' else ';') && w.tags == tags[key := msg[s..i]]
    requires TagOk(Tag(key, msg[s..i]), lead)
    ensures ReadAs(msg, s, key, lead, tags, w, [Tag(key, msg[s..i])])
  {
    ReadableOne(Tag(key, msg[s..i]), lead, tags);
  }

  /** A walk that ends at a delimiter has read the rendering of a readable list of tags. */
  lemma {:induction false} ReadBack(msg: string, i: nat, s: nat, key: string, lead: nat, tags: map<string, string>)
    returns (ts: seq<Tag>)
    requires Walked(msg, i, s, key, lead) && lead <= 1
    requires EndsAtDelimiter(msg, Scan(msg, i, s, key, tags))
    ensures ReadAs(msg, s, key, lead, tags, Scan(msg, i, s, key, tags), ts)
    decreases |msg| - i
  {
    var w := Scan(msg, i, s, key, tags);
    if msg[i] == '=' {
      PlainSlice(msg, s + lead, i);
      assert msg[s..i][lead..] == msg[s + lead..i];
      ts := ReadBack(msg, i + 1, i + 1, msg[s..i], lead, tags);
      AfterKey(msg, s, i, lead, tags, w, ts);
    } else if msg[i] == ';' || msg[i] == ' ' {
      PlainSlice(msg, s, i);
      if msg[i] == ';' && i + 1 < |msg| {
        var rest := ReadBack(msg, i + 2, i + 1, "", 1, tags[key := msg[s..i]]);
        AfterTag(msg, s, i, key, lead, tags, w, rest);
        ts := [Tag(key, msg[s..i])] + rest;
      } else {
        if msg[i] == ';' {
          assert w == Scan(msg, i + 2, i + 1, "", tags[key := msg[s..i]]);
          assert w == RanOut(tags[key := msg[s..i]], i + 2);
        }
        LastTag(msg, s, i, key, lead, tags, w);
        ts := [Tag(key, msg[s..i])];
      }
    } else {
      ts := ReadBack(msg, i + 1, s, key, lead, tags);
    }
  }

  // ---------------------------------------------------------------- what the parser accepts

  /** Rendering a list of tags and parsing it again gives every key its last value, and the index
      just past the block, whatever follows. */
  lemma TagsRoundTrip(ts: seq<Tag>, rest: string)
    requires ts != [] && Readable(ts, 0)
    ensures TagsOf(Render(ts) + rest) == Tags(LastWins(map[], ts), |Render(ts)|)
    ensures WalkTags(Render(ts) + rest).Terminated?
  {
    var msg := Render(ts) + rest;
    assert msg[1..1 + |Join(ts)|] == Join(ts);
    WalkList(msg, 1, ts, 0, map[]);
  }

  /** The line starts with the rendering of these tags. */
  ghost predicate StartsWithTags(msg: string, ts: seq<Tag>) {
    ts != [] && Readable(ts, 0) && Render(ts) <= msg
  }

  /** The line is these tags and a semicolon. */
  ghost predicate EndsInSemicolon(msg: string, ts: seq<Tag>) {
    ts != [] && Readable(ts, 0) && msg == "@" + Join(ts) + ";"
  }

  /** A terminated block is accepted exactly when it is the rendering of a readable list, and that
      list says what the result is. */
  lemma TerminatedExactly(msg: string, tags: map<string, string>, next: nat)
    requires msg != "" && msg[0] == '@'
    ensures WalkTags(msg) == Terminated(tags, next) <==>
      exists ts :: StartsWithTags(msg, ts) && tags == LastWins(map[], ts) && next == |Render(ts)|
  {
    if WalkTags(msg) == Terminated(tags, next) {
      var ts := TerminatedReadsAList(msg);
    }
    if ts :| StartsWithTags(msg, ts) && tags == LastWins(map[], ts) && next == |Render(ts)| {
      assert msg == Render(ts) + msg[|Render(ts)|..];
      TagsRoundTrip(ts, msg[|Render(ts)|..]);
    }
  }

  lemma TerminatedReadsAList(msg: string) returns (ts: seq<Tag>)
    requires msg != "" && msg[0] == '@' && WalkTags(msg).Terminated?
    ensures StartsWithTags(msg, ts)
    ensures WalkTags(msg) == Terminated(LastWins(map[], ts), |Render(ts)|)
  {
    var w := WalkTags(msg);
    ScanNext(msg, 1, 1, "", map[]);
    ts := ReadBack(msg, 1, 1, "", 0, map[]);
    assert msg[..w.next] == "@" + msg[1..w.next - 1] + " ";
    assert msg[..w.next] == Render(ts);
  }

  lemma SemicolonRunsPast(msg: string, ts: seq<Tag>)
    requires EndsInSemicolon(msg, ts)
    ensures WalkTags(msg) == RanOut(LastWins(map[], ts), |msg| + 1)
  {
    assert msg[1..1 + |Join(ts)|] == Join(ts);
    WalkList(msg, 1, ts, 0, map[]);
  }

  lemma RunningPastReadsAList(msg: string) returns (ts: seq<Tag>)
    requires msg != "" && msg[0] == '@' && WalkTags(msg).RanOut? && WalkTags(msg).next > |msg|
    ensures EndsInSemicolon(msg, ts)
  {
    ScanNext(msg, 1, 1, "", map[]);
    ts := ReadBack(msg, 1, 1, "", 0, map[]);
    assert msg == "@" + msg[1..|msg| - 1] + ";";
  }

  /** The result index lies beyond the end of the line exactly when the block ends in a semicolon
      after a readable list of tags. */
  lemma IndexPastTheEndExactly(msg: string)
    requires msg != "" && msg[0] == '@'
    ensures (TagsOf(msg).Tags? && TagsOf(msg).next > |msg|) <==> exists ts :: EndsInSemicolon(msg, ts)
  {
    ScanNext(msg, 1, 1, "", map[]);
    if WalkTags(msg).RanOut? && WalkTags(msg).next > |msg| {
      var ts := RunningPastReadsAList(msg);
    }
    if ts :| EndsInSemicolon(msg, ts) {
      SemicolonRunsPast(msg, ts);
    }
  }

  /** Where a walk can end. */
  lemma {:induction false} ScanNext(msg: string, i: nat, s: nat, key: string, tags: map<string, string>)
    requires s <= i <= |msg| + 1 && s <= |msg|
    ensures var w := Scan(msg, i, s, key, tags);
      && (w.Terminated? ==> i < w.next <= |msg|)
      && (w.RanOut? ==> |msg| <= w.next <= |msg| + 1)
    decreases |msg| + 1 - i
  {
    if i < |msg| {
      if msg[i] == '=' {
        if key == "" && s != i {
          ScanNext(msg, i + 1, i + 1, msg[s..i], tags);
        }
      } else if msg[i] == ';' {
        if key != "" {
          ScanNext(msg, i + 2, i + 1, "", tags[key := msg[s..i]]);
        }
      } else if msg[i] != ' ' {
        ScanNext(msg, i + 1, s, key, tags);
      }
    }
  }
}
