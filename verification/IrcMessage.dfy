/**
 One line of IRC: tags, source, command, channel and content, as the slave's line parser reads
 them. Strings are sequences of characters and indices count characters.
 */
module IrcMessage {
  import opened IrcTags

  datatype Message = Message(
    raw: string,
    source: string,
    messageType: string,
    channel: string,
    user: string,
    content: string,
    tags: map<string, string>)

  /** `Panics` stands for an index or slice out of range. */
  datatype Outcome = Panics | BadTags(m: Message) | Parsed(m: Message)

  const PING := "PING"
  const PONG := "PONG"
  const UNKNOWN := "UNKNOWN"
  const MSG_ID := "msg-id"
  const MSG_CHANNEL_SUSPENDED := "msg_channel_suspended"
  const MSG_BANNED := "msg_banned"

  /** The commands whose parameters are read. */
  predicate NeedsParameters(s: string) {
    s in {"PRIVMSG", "NOTICE", "PING", "PONG", "JOIN", "PART", "WHISPER", "ROOMSTATE", "USERSTATE",
          "CLEARCHAT", "USERNOTICE", "RECONNECT"}
  }

  /** The commands that are known but read no further. */
  predicate StandsAlone(s: string) {
    s in {"CAP", "001", "002", "003", "004", "353", "366", "372", "375", "376", "GLOBALUSERSTATE"}
  }

  function ToMessageType(s: string): string {
    if NeedsParameters(s) || StandsAlone(s) then s else UNKNOWN
  }

  lemma TypesThatNeedParameters(s: string)
    ensures NeedsParameters(ToMessageType(s)) <==> NeedsParameters(s)
    ensures NeedsParameters(s) ==> ToMessageType(s) == s && ' ' !in s && |s| >= 4
  {
  }

  function MessageId(tags: map<string, string>): string {
    if MSG_ID in tags then tags[MSG_ID] else ""
  }

  predicate ChannelSuspended(tags: map<string, string>) {
    MessageId(tags) == MSG_CHANNEL_SUSPENDED
  }

  predicate Banned(tags: map<string, string>) {
    MessageId(tags) == MSG_BANNED
  }

  // ---------------------------------------------------------------- string helpers

  /** The first position of a character, or -1. */
  function IndexByte(s: string, c: char): (r: int)
    ensures -1 <= r < |s|
    ensures r == -1 <==> c !in s
    ensures r >= 0 ==> s[r] == c && forall k :: 0 <= k < r ==> s[k] != c
  {
    if s == "" then -1
    else if s[0] == c then 0
    else
      var r := IndexByte(s[1..], c);
      if r == -1 then -1 else r + 1
  }

  /** At most `n` pieces, cut at the first spaces. */
  function SplitN(s: string, n: nat): (pieces: seq<string>)
    requires n >= 1
    ensures 1 <= |pieces| <= n
    decreases |s|
  {
    var i := IndexByte(s, ' ');
    if n == 1 || i == -1 then [s] else [s[..i]] + SplitN(s[i + 1..], n - 1)
  }

  predicate IsSpace(c: char) {
    var n := c as int;
    || 9 <= n <= 13 || n == 0x20 || n == 0x85 || n == 0xA0 || n == 0x1680 || 0x2000 <= n <= 0x200A
    || n == 0x2028 || n == 0x2029 || n == 0x202F || n == 0x205F || n == 0x3000
  }

  function TrimLeft(s: string): string {
    if s != "" && IsSpace(s[0]) then TrimLeft(s[1..]) else s
  }

  function TrimRight(s: string): string {
    if s != "" && IsSpace(s[|s| - 1]) then TrimRight(s[..|s| - 1]) else s
  }

  function TrimSpace(s: string): string {
    TrimRight(TrimLeft(s))
  }

  /** The pieces put together again with the spaces between them. */
  function Spaced(pieces: seq<string>): string
    requires pieces != []
  {
    if |pieces| == 1 then pieces[0] else pieces[0] + " " + Spaced(pieces[1..])
  }

  lemma SpacedCons(a: string, rest: seq<string>)
    requires rest != []
    ensures Spaced([a] + rest) == a + " " + Spaced(rest)
  {
    assert ([a] + rest)[1..] == rest;
  }

  lemma CutAt(s: string, i: nat)
    requires i < |s| && s[i] == ' '
    ensures s[..i] + " " + s[i + 1..] == s
  {
  }

  /** Every cut is at a space, and the last piece holds one only when the pieces are used up. */
  ghost predicate CutRight(pieces: seq<string>, n: nat)
    requires pieces != []
  {
    && (forall i :: 0 <= i < |pieces| - 1 ==> ' ' !in pieces[i])
    && (|pieces| < n ==> ' ' !in pieces[|pieces| - 1])
  }

  lemma CutRightCons(a: string, rest: seq<string>, n: nat)
    requires n >= 1 && rest != [] && ' ' !in a && CutRight(rest, n - 1)
    ensures CutRight([a] + rest, n)
  {
  }

  ghost predicate SplitRight(s: string, pieces: seq<string>, n: nat) {
    pieces != [] && Spaced(pieces) == s && CutRight(pieces, n)
  }

  lemma CutOnce(s: string, i: nat, rest: seq<string>, n: nat)
    requires n >= 1 && i < |s| && s[i] == ' ' && ' ' !in s[..i] && SplitRight(s[i + 1..], rest, n - 1)
    ensures SplitRight(s, [s[..i]] + rest, n)
  {
    SpacedCons(s[..i], rest);
    CutRightCons(s[..i], rest, n);
    CutAt(s, i);
  }

  lemma NotCut(s: string, n: nat)
    requires n >= 1 && (n == 1 || ' ' !in s)
    ensures SplitRight(s, [s], n)
  {
  }

  /** Splitting loses nothing, cuts at the first spaces, and stops short of `n` pieces only when no
      space is left. */
  lemma {:induction false} SplitLaw(s: string, n: nat)
    requires n >= 1
    ensures SplitRight(s, SplitN(s, n), n)
    decreases |s|
  {
    var i := IndexByte(s, ' ');
    if n == 1 || i == -1 {
      NotCut(s, n);
    } else {
      SplitLaw(s[i + 1..], n - 1);
      CutOnce(s, i, SplitN(s[i + 1..], n - 1), n);
    }
  }

  ghost predicate AllSpaces(s: string) {
    forall i :: 0 <= i < |s| ==> IsSpace(s[i])
  }

  lemma {:induction false} TrimLeftLaw(s: string) returns (a: string)
    ensures s == a + TrimLeft(s) && AllSpaces(a)
    ensures TrimLeft(s) != "" ==> !IsSpace(TrimLeft(s)[0])
  {
    if s == "" || !IsSpace(s[0]) {
      a := "";
    } else {
      var rest := TrimLeftLaw(s[1..]);
      a := [s[0]] + rest;
    }
  }

  lemma {:induction false} TrimRightLaw(s: string) returns (b: string)
    ensures s == TrimRight(s) + b && AllSpaces(b)
    ensures TrimRight(s) != "" ==> !IsSpace(TrimRight(s)[|TrimRight(s)| - 1])
  {
    if s == "" || !IsSpace(s[|s| - 1]) {
      b := "";
    } else {
      var rest := TrimRightLaw(s[..|s| - 1]);
      b := rest + [s[|s| - 1]];
    }
  }

  /** Trimming takes off white space at both ends, all of it, and nothing else. */
  lemma TrimLaw(s: string) returns (a: string, b: string)
    ensures s == a + TrimSpace(s) + b && AllSpaces(a) && AllSpaces(b)
    ensures var t := TrimSpace(s); t != "" ==> !IsSpace(t[0]) && !IsSpace(t[|t| - 1])
  {
    a := TrimLeftLaw(s);
    b := TrimRightLaw(TrimLeft(s));
    var t := TrimSpace(s);
    assert TrimLeft(s) == t + b;
    if t != "" {
      assert TrimLeft(s)[0] == t[0];
    }
  }

  // ---------------------------------------------------------------- the parser

  function UserOf(source: string): string {
    var i := IndexByte(source, '!');
    if i == -1 then "" else source[..i]
  }

  /** The part of a line behind its tag block. */
  function ParseBody(m: Message, body: string): Outcome {
    var splits := SplitN(body, 3);
    if |splits| < 2 || splits[0] == "" then Parsed(m)
    else
      var source := splits[0][1..];
      var m := m.(source := source, user := UserOf(source), messageType := ToMessageType(splits[1]));
      if !NeedsParameters(m.messageType) then Parsed(m)
      else if |splits| < 3 then Panics
      else
        var params := splits[2];
        var i := IndexByte(params, ':');
        if i == -1 then Parsed(m.(channel := TrimSpace(params)))
        else Parsed(m.(channel := TrimSpace(params[..i]), content := params[i + 1..]))
  }

  function ParseLine(line: string): Outcome {
    if |line| < 4 then Panics
    else if line[..4] == PING || line[..4] == PONG then
      if |line| < 6 then Panics else Parsed(Message(line, line[6..], PING, "", "", "", map[]))
    else
      var m := Message(line, "", UNKNOWN, "", "", "", map[]);
      match TagsOf(line)
      case InvalidTags => BadTags(m)
      case NoTags => ParseBody(m, line)
      case Tags(tags, next) => if next > |line| then Panics else ParseBody(m.(tags := tags), line[next..])
  }

  method ParseMessage(line: string) returns (r: Outcome)
    ensures r == ParseLine(line)
  {
    if |line| < 4 {
      return Panics;
    }
    if line[..4] == PING || line[..4] == PONG {
      if |line| < 6 {
        return Panics;
      }
      return Parsed(Message(line, line[6..], PING, "", "", "", map[]));
    }
    var m := Message(line, "", UNKNOWN, "", "", "", map[]);

    var idx := 0;
    var parsed := ParseTags(line);
    match parsed {
      case InvalidTags =>
        return BadTags(m);
      case NoTags =>
      case Tags(tags, next) =>
        m := m.(tags := tags);
        idx := next;
    }
    if idx > |line| {
      return Panics;
    }
    r := ParseParts(m, line[idx..]);
  }

  /** Everything behind the tag block. */
  method ParseParts(start: Message, body: string) returns (r: Outcome)
    ensures r == ParseBody(start, body)
  {
    var m, line := start, body;
    var splits := SplitN(line, 3);
    if |splits| < 2 || splits[0] == "" {
      return Parsed(m);
    }

    m := m.(source := splits[0][1..]);
    var idx := IndexByte(m.source, '!');
    m := m.(user := if idx != -1 then m.source[..idx] else "");
    m := m.(messageType := ToMessageType(splits[1]));
    if !NeedsParameters(m.messageType) {
      return Parsed(m);
    }

    if |splits| < 3 {
      return Panics;
    }
    line := splits[2];
    var contentIdx := IndexByte(line, ':');
    if contentIdx != -1 {
      m := m.(content := line[contentIdx + 1..]);
      line := line[..contentIdx];
    }

    m := m.(channel := TrimSpace(line));
    return Parsed(m);
  }

  // ---------------------------------------------------------------- round trip

  /** What stands behind the command: a channel, and content unless there is none. */
  datatype Content = Without | With(text: string)

  function RenderParams(channel: string, content: Content): string {
    match content
    case Without => channel
    case With(text) => channel + " :" + text
  }

  function RenderBody(source: string, command: string, channel: string, content: Content): string {
    ":" + source + " " + command + " " + RenderParams(channel, content)
  }

  /** A line in the form the server sends; no tag block for an empty list of tags. */
  function RenderLine(ts: seq<Tag>, source: string, command: string, channel: string, content: Content): string {
    (if ts == [] then "" else Render(ts)) + RenderBody(source, command, channel, content)
  }

  predicate NoSpaces(s: string) {
    forall i :: 0 <= i < |s| ==> !IsSpace(s[i])
  }

  lemma FirstSpace(a: string, b: string)
    requires ' ' !in a
    ensures IndexByte(a + " " + b, ' ') == |a|
    ensures (a + " " + b)[..|a|] == a && (a + " " + b)[|a| + 1..] == b
  {
    var s := a + " " + b;
    assert s[|a|] == ' ';
    assert forall k :: 0 <= k < |a| ==> s[k] == a[k];
  }

  lemma SplitAtFirst(a: string, b: string, n: nat)
    requires ' ' !in a && n >= 2
    ensures SplitN(a + " " + b, n) == [a] + SplitN(b, n - 1)
  {
    FirstSpace(a, b);
  }

  lemma SplitsOfThree(a: string, b: string, c: string)
    requires ' ' !in a && ' ' !in b
    ensures SplitN(a + " " + b + " " + c, 3) == [a, b, c]
  {
    assert a + " " + b + " " + c == a + " " + (b + " " + c);
    SplitAtFirst(a, b + " " + c, 3);
    SplitAtFirst(b, c, 2);
    assert SplitN(c, 1) == [c];
  }

  lemma TrimNothing(s: string)
    requires NoSpaces(s)
    ensures TrimSpace(s) == s
  {
  }

  lemma TrimTrailingSpace(s: string)
    requires NoSpaces(s)
    ensures TrimSpace(s + " ") == s
  {
    var t := s + " ";
    if s == "" {
      assert t[1..] == "";
      assert TrimLeft(t) == TrimLeft("") == "";
    } else {
      assert t[0] == s[0];
      assert TrimLeft(t) == t;
      assert t[..|t| - 1] == s;
      assert TrimRight(t) == TrimRight(s) == s;
    }
  }

  lemma ParamsRoundTrip(channel: string, content: Content)
    requires NoSpaces(channel) && ':' !in channel
    ensures var params := RenderParams(channel, content);
      var i := IndexByte(params, ':');
      match content
      case Without => i == -1 && TrimSpace(params) == channel
      case With(text) => i != -1 && TrimSpace(params[..i]) == channel && params[i + 1..] == text
  {
    TrimNothing(channel);
    TrimTrailingSpace(channel);
    if content.With? {
      var params := RenderParams(channel, content);
      var i := IndexByte(params, ':');
      var j := |channel| + 1;
      assert params[j] == ':';
      assert forall k :: 0 <= k < j ==> params[k] != ':';
      assert i == j;
      assert params[..i] == channel + " ";
    }
  }

  /** Parsing the part behind the tags of a rendered line. */
  lemma BodyRoundTrip(m: Message, source: string, command: string, channel: string, content: Content)
    requires ' ' !in source && NeedsParameters(command)
    requires NoSpaces(channel) && ':' !in channel
    ensures ParseBody(m, RenderBody(source, command, channel, content))
      == Parsed(m.(source := source, user := UserOf(source), messageType := command, channel := channel,
                   content := if content.With? then content.text else m.content))
  {
    TypesThatNeedParameters(command);
    SplitsOfThree(":" + source, command, RenderParams(channel, content));
    assert (":" + source)[1..] == source;
    ParamsRoundTrip(channel, content);
  }

  lemma NotAPing(line: string)
    requires |line| >= 4 && line[0] != 'P'
    ensures line[..4] != PING && line[..4] != PONG
  {
    assert line[..4][0] == line[0];
  }

  function Blank(line: string, tags: map<string, string>): Message {
    Message(line, "", UNKNOWN, "", "", "", tags)
  }

  lemma UntaggedLine(line: string)
    requires |line| >= 4 && line[0] == ':'
    ensures ParseLine(line) == ParseBody(Blank(line, map[]), line)
  {
    NotAPing(line);
  }

  lemma TaggedLine(ts: seq<Tag>, body: string)
    requires ts != [] && Readable(ts, 0) && |body| >= 4
    ensures var line := Render(ts) + body;
      ParseLine(line) == ParseBody(Blank(line, LastWins(map[], ts)), body)
  {
    var line := Render(ts) + body;
    assert line[0] == '@';
    NotAPing(line);
    TagsRoundTrip(ts, body);
    assert line[|Render(ts)|..] == body;
  }

  /** Rendering a line and parsing it gives back its source, user, command, channel and content, and
      each tag's last value. */
  lemma LineRoundTrip(ts: seq<Tag>, source: string, command: string, channel: string, content: Content)
    requires Readable(ts, 0)
    requires ' ' !in source && NeedsParameters(command)
    requires NoSpaces(channel) && ':' !in channel
    ensures var line := RenderLine(ts, source, command, channel, content);
      ParseLine(line) == Parsed(Message(line, source, command, channel, UserOf(source),
                                        if content.With? then content.text else "", LastWins(map[], ts)))
  {
    var body := RenderBody(source, command, channel, content);
    var line := RenderLine(ts, source, command, channel, content);
    BodyLength(source, command, channel, content);
    BodyRoundTrip(Blank(line, LastWins(map[], ts)), source, command, channel, content);
    if ts == [] {
      assert line == body;
      UntaggedLine(line);
    } else {
      TaggedLine(ts, body);
    }
  }

  lemma BodyLength(source: string, command: string, channel: string, content: Content)
    requires NeedsParameters(command)
    ensures var body := RenderBody(source, command, channel, content); |body| >= 4 && body[0] == ':'
  {
    TypesThatNeedParameters(command);
  }

  /** A line whose command is read no further; what follows the command, if anything, is ignored. */
  function RenderShort(ts: seq<Tag>, source: string, command: string, rest: Content): string {
    (if ts == [] then "" else Render(ts)) + ShortBody(source, command, rest)
  }

  function ShortBody(source: string, command: string, rest: Content): string {
    match rest
    case Without => ":" + source + " " + command
    case With(text) => ":" + source + " " + command + " " + text
  }

  lemma ShortBodyRead(m: Message, source: string, command: string, rest: Content)
    requires ' ' !in source && ' ' !in command && !NeedsParameters(command)
    ensures ParseBody(m, ShortBody(source, command, rest))
      == Parsed(m.(source := source, user := UserOf(source), messageType := ToMessageType(command)))
  {
    TypesThatNeedParameters(command);
    match rest {
      case Without => TwoPieces(":" + source, command, ShortBody(source, command, rest));
      case With(text) => SplitsOfThree(":" + source, command, text);
    }
    assert (":" + source)[1..] == source;
  }

  /** Rendering a line whose command has no parameters that are read, known or not, and parsing it
      gives back its source, user and tags, and the command when it is a known one. */
  lemma ShortLineRoundTrip(ts: seq<Tag>, source: string, command: string, rest: Content)
    requires Readable(ts, 0)
    requires ' ' !in source && ' ' !in command && !NeedsParameters(command)
    requires |ShortBody(source, command, rest)| >= 4
    ensures var line := RenderShort(ts, source, command, rest);
      ParseLine(line) == Parsed(Message(line, source, if StandsAlone(command) then command else UNKNOWN, "",
                                        UserOf(source), "", LastWins(map[], ts)))
  {
    var body := ShortBody(source, command, rest);
    var line := RenderShort(ts, source, command, rest);
    ShortBodyRead(Blank(line, LastWins(map[], ts)), source, command, rest);
    if ts == [] {
      assert line == body;
      UntaggedLine(line);
    } else {
      TaggedLine(ts, body);
    }
  }

  /** The round trip at each of the commands whose parameters are read. */
  lemma ReadCommandsRoundTrip(ts: seq<Tag>, source: string, command: string, channel: string, content: Content)
    requires Readable(ts, 0) && ' ' !in source && NoSpaces(channel) && ':' !in channel
    requires command == "PRIVMSG" || command == "NOTICE" || command == "PING" || command == "PONG"
      || command == "JOIN" || command == "PART" || command == "WHISPER" || command == "ROOMSTATE"
      || command == "USERSTATE" || command == "CLEARCHAT" || command == "USERNOTICE" || command == "RECONNECT"
    ensures var line := RenderLine(ts, source, command, channel, content);
      ParseLine(line) == Parsed(Message(line, source, command, channel, UserOf(source),
                                        if content.With? then content.text else "", LastWins(map[], ts)))
  {
    LineRoundTrip(ts, source, command, channel, content);
  }

  /** The round trip at each of the commands that are known and read no further. */
  lemma ShortCommandsRoundTrip(ts: seq<Tag>, source: string, command: string, rest: Content)
    requires Readable(ts, 0) && ' ' !in source
    requires command == "CAP" || command == "001" || command == "002" || command == "003" || command == "004"
      || command == "353" || command == "366" || command == "372" || command == "375" || command == "376"
      || command == "GLOBALUSERSTATE"
    ensures var line := RenderShort(ts, source, command, rest);
      ParseLine(line) == Parsed(Message(line, source, command, "", UserOf(source), "", LastWins(map[], ts)))
  {
    ShortCommandsAreShort(command);
    ShortBodyLength(source, command, rest);
    ShortLineRoundTrip(ts, source, command, rest);
  }

  lemma ShortCommandsAreShort(command: string)
    requires command == "CAP" || command == "001" || command == "002" || command == "003" || command == "004"
      || command == "353" || command == "366" || command == "372" || command == "375" || command == "376"
      || command == "GLOBALUSERSTATE"
    ensures ' ' !in command && !NeedsParameters(command) && StandsAlone(command) && |command| >= 3
  {
  }

  lemma ShortBodyLength(source: string, command: string, rest: Content)
    requires |command| >= 3
    ensures |ShortBody(source, command, rest)| >= 5
  {
  }

  /** Any other command is unknown. */
  lemma OtherCommandsAreUnknown(ts: seq<Tag>, source: string, command: string, rest: Content)
    requires Readable(ts, 0) && ' ' !in source && ' ' !in command && |ShortBody(source, command, rest)| >= 4
    requires command != "PRIVMSG" && command != "NOTICE" && command != "PING" && command != "PONG"
      && command != "JOIN" && command != "PART" && command != "WHISPER" && command != "ROOMSTATE"
      && command != "USERSTATE" && command != "CLEARCHAT" && command != "USERNOTICE" && command != "RECONNECT"
    requires command != "CAP" && command != "001" && command != "002" && command != "003" && command != "004"
      && command != "353" && command != "366" && command != "372" && command != "375" && command != "376"
      && command != "GLOBALUSERSTATE"
    ensures var line := RenderShort(ts, source, command, rest);
      ParseLine(line) == Parsed(Message(line, source, "UNKNOWN", "", UserOf(source), "", LastWins(map[], ts)))
  {
    ShortLineRoundTrip(ts, source, command, rest);
  }

  /** A ping or pong line, whatever follows its first six characters: the rest is its source, and
      both count as a ping. */
  lemma PingLine(word: string, rest: string)
    requires |word| == 6 && (word[..4] == "PING" || word[..4] == "PONG")
    ensures ParseLine(word + rest) == Parsed(Message(word + rest, rest, "PING", "", "", "", map[]))
  {
    var line := word + rest;
    assert line[..4] == word[..4] && line[6..] == rest;
  }

  /** A source without an exclamation mark has no user. */
  lemma NoBangNoUser(source: string)
    requires '!' !in source
    ensures UserOf(source) == ""
  {
  }

  /** The user is what stands before the first exclamation mark of the source. */
  lemma UserBeforeBang(user: string, host: string)
    requires '!' !in user
    ensures UserOf(user + "!" + host) == user
  {
    var source := user + "!" + host;
    assert source[|user|] == '!';
    assert forall k :: 0 <= k < |user| ==> source[k] == user[k];
    assert IndexByte(source, '!') == |user|;
  }

  /** The notice that the bot is banned is recognised by the last `msg-id` tag of the line. */
  lemma BanNoticeRecognised(ts: seq<Tag>, source: string, channel: string, text: string, j: nat)
    requires Readable(ts, 0) && ' ' !in source && NoSpaces(channel) && ':' !in channel
    requires LastTagFor(ts, MSG_ID, j)
    ensures var r := ParseLine(RenderLine(ts, source, "NOTICE", channel, With(text)));
      && r.Parsed? && r.m.channel == channel
      && (Banned(r.m.tags) <==> ts[j].value == MSG_BANNED)
      && (ChannelSuspended(r.m.tags) <==> ts[j].value == MSG_CHANNEL_SUSPENDED)
  {
    LineRoundTrip(ts, source, "NOTICE", channel, With(text));
    LastWinsMeaning(map[], ts, MSG_ID);
  }

  // ---------------------------------------------------------------- quirks, exactly

  ghost predicate StartsWithPing(line: string) {
    |line| >= 4 && (line[..4] == PING || line[..4] == PONG)
  }

  /** Two words, the second a command that needs parameters. */
  ghost predicate MissingParameters(body: string) {
    exists a: string, command: string ::
      a != "" && ' ' !in a && NeedsParameters(command) && body == a + " " + command
  }

  lemma TwoPieces(a: string, b: string, body: string)
    requires ' ' !in a && ' ' !in b && body == a + " " + b
    ensures SplitN(body, 3) == [a, b]
  {
    SplitAtFirst(a, b, 3);
    assert SplitN(b, 2) == [b];
  }

  lemma OnePiece(b: string)
    ensures |SplitN(b, 2)| == 1 ==> SplitN(b, 2) == [b]
  {
  }

  lemma TwoPiecesOnly(body: string) returns (a: string, b: string)
    requires |SplitN(body, 3)| == 2
    ensures SplitN(body, 3) == [a, b] && ' ' !in a && body == a + " " + b
  {
    var i := IndexByte(body, ' ');
    a, b := body[..i], body[i + 1..];
    assert SplitN(body, 3) == [a] + SplitN(b, 2);
    OnePiece(b);
    assert body == a + " " + b;
  }

  lemma BodyPanicsExactly(m: Message, body: string)
    ensures ParseBody(m, body) == Panics <==> MissingParameters(body)
  {
    if ParseBody(m, body) == Panics {
      var a, b := TwoPiecesOnly(body);
      TypesThatNeedParameters(b);
    }
    if a: string, command: string :| a != "" && ' ' !in a && NeedsParameters(command) && body == a + " " + command {
      TypesThatNeedParameters(command);
      TwoPieces(a, command, body);
    }
  }

  /** Behind a tag block that is read to its end stand two such words. */
  ghost predicate MissingBehindTags(line: string, ts: seq<Tag>) {
    StartsWithTags(line, ts) && MissingParameters(line[|Render(ts)|..])
  }

  lemma BodyBehindTags(line: string, ts: seq<Tag>)
    requires |line| >= 4 && StartsWithTags(line, ts)
    ensures ParseLine(line) == ParseBody(Blank(line, LastWins(map[], ts)), line[|Render(ts)|..])
  {
    var body := line[|Render(ts)|..];
    assert line == Render(ts) + body;
    assert line[0] == '@';
    NotAPing(line);
    TagsRoundTrip(ts, body);
  }

  lemma TaggedPanics(line: string)
    requires |line| >= 4 && line[0] == '@'
    ensures ParseLine(line) == Panics <==>
      (exists ts :: EndsInSemicolon(line, ts)) || (exists ts :: MissingBehindTags(line, ts))
  {
    NotAPing(line);
    IndexPastTheEndExactly(line);
    ScanNext(line, 1, 1, "", map[]);
    if ts :| MissingBehindTags(line, ts) {
      BodyBehindTags(line, ts);
      BodyPanicsExactly(Blank(line, LastWins(map[], ts)), line[|Render(ts)|..]);
    }
    if ParseLine(line) == Panics && WalkTags(line).Terminated? {
      var ts := TerminatedReadsAList(line);
      BodyBehindTags(line, ts);
      BodyPanicsExactly(Blank(line, LastWins(map[], ts)), line[|Render(ts)|..]);
      assert MissingBehindTags(line, ts);
    }
    if WalkTags(line).RanOut? && WalkTags(line).next == |line| {
      NothingBehind(line);
    }
  }

  /** A block that runs out exactly at the end of the line leaves an empty body. */
  lemma NothingBehind(line: string)
    requires |line| >= 4 && line[0] == '@' && WalkTags(line).RanOut? && WalkTags(line).next == |line|
    ensures ParseLine(line) != Panics
  {
    NotAPing(line);
    assert line[|line|..] == "";
  }

  /** The parser goes out of range on exactly these lines: shorter than four characters; a ping or
      pong shorter than six; a tag block ending the line with a semicolon; and, at the start of the
      line or behind the tags, two words of which the second is a command that needs parameters. */
  lemma PanicsExactly(line: string)
    ensures ParseLine(line) == Panics <==>
      || |line| < 4
      || (StartsWithPing(line) && |line| < 6)
      || (line[0] != '@' && !StartsWithPing(line) && MissingParameters(line))
      || (exists ts :: EndsInSemicolon(line, ts))
      || (exists ts :: MissingBehindTags(line, ts))
  {
    if |line| >= 4 {
      if line[0] == '@' {
        NotAPing(line);
        TaggedPanics(line);
      } else {
        if !StartsWithPing(line) {
          BodyPanicsExactly(Blank(line, map[]), line);
        }
        forall ts
          ensures !EndsInSemicolon(line, ts) && !MissingBehindTags(line, ts)
        {
          assert Render(ts)[0] == '@';
        }
      }
    }
  }

  /** A line with a source and one of the commands whose parameters are read, and nothing else. */
  lemma CommandAlonePanics(source: string, command: string)
    requires ' ' !in source && NeedsParameters(command)
    ensures ParseLine(ShortBody(source, command, Without)) == Panics
  {
    var line := ShortBody(source, command, Without);
    TypesThatNeedParameters(command);
    TwoPieces(":" + source, command, line);
    UntaggedLine(line);
    BodyPanicsExactly(Blank(line, map[]), line);
  }

  const SERVER := "tmi.twitch.tv"

  /** The server's request to reconnect, `:tmi.twitch.tv RECONNECT`, is such a line: the parser fails
      before the client, which waits for this command, can see it. */
  lemma ReconnectPanics()
    ensures ParseLine(":" + SERVER + " " + "RECONNECT") == Panics
  {
    CommandAlonePanics(SERVER, "RECONNECT");
  }
}
