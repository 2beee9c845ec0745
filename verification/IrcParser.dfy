/** The line parser of internal/irc/client.go, against a printer for PRIVMSG lines in the format of
    section 2.3.1 of RFC 1459 with IRCv3 message tags. */
module IrcParser {
  import opened GoStrings

  type Tags = map<string, string>

  datatype Message = Message(channel: string, username: string, displayName: string, text: string, tags: Tags)

  const DISPLAY_NAME := "display-name"
  const COMMAND := "PRIVMSG"

  // ---- Parsing ----

  /** `tags` after one more field; a field without `=` is ignored, a repeated key is overwritten. */
  function AddTag(tags: Tags, field: string): Tags {
    var kv := SplitN(field, '=', 2);
    if |kv| == 2 then tags[kv[0] := kv[1]] else tags
  }

  function AddTags(tags: Tags, fields: seq<string>): Tags
    decreases |fields|
  {
    if fields == [] then tags else AddTags(AddTag(tags, fields[0]), fields[1..])
  }

  /** What a line without its tags says, or `None` when it has fewer than four parts. */
  function ParseBody(line: string, tags: Tags): Option<Message> {
    var parts := SplitN(line, ' ', 4);
    if |parts| < 4 then None
    else
      var username := if HasPrefix(parts[0], ":") then ToLower(SplitN(parts[0][1..], '!', 2)[0]) else "";
      var channel := if HasPrefix(parts[2], "#") then ToLower(parts[2]) else "";
      var text := if HasPrefix(parts[3], ":") then parts[3][1..] else parts[3];
      Some(Message(channel, username, if DISPLAY_NAME in tags then tags[DISPLAY_NAME] else "", text, tags))
  }

  function Parse(line: string): Option<Message> {
    if HasPrefix(line, "@") then
      var parts := SplitN(line, ' ', 2);
      if |parts| < 2 then None
      else
        assert line[0] == '@';
        assert parts[0] != "";
        ParseBody(parts[1], AddTags(map[], Split(parts[0][1..], ';')))
    else ParseBody(line, map[])
  }

  /** `parseMessage`: fills in the message part by part, for any line whatever. */
  method ParseMessage(input: string) returns (msg: Option<Message>)
    ensures msg == Parse(input)
  {
    var line := input;
    var tags: Tags := map[];
    var displayName := "";
    if HasPrefix(line, "@") {
      var parts := SplitN(line, ' ', 2);
      if |parts| < 2 {
        return None;
      }
      assert line[0] == '@';
      var tagStr := parts[0][1..];
      line := parts[1];
      var fields := Split(tagStr, ';');
      for i := 0 to |fields|
        invariant AddTags(map[], fields) == AddTags(tags, fields[i..])
      {
        assert fields[i..][1..] == fields[i + 1..];
        var kv := SplitN(fields[i], '=', 2);
        if |kv| == 2 {
          tags := tags[kv[0] := kv[1]];
        }
      }
      if DISPLAY_NAME in tags {
        displayName := tags[DISPLAY_NAME];
      }
    }
    var parts := SplitN(line, ' ', 4);
    if |parts| < 4 {
      return None;
    }
    var username, channel, text := "", "", "";
    if HasPrefix(parts[0], ":") {
      var userParts := SplitN(parts[0][1..], '!', 2);
      if |userParts| >= 1 {
        username := ToLower(userParts[0]);
      }
    }
    if HasPrefix(parts[2], "#") {
      channel := ToLower(parts[2]);
    }
    if HasPrefix(parts[3], ":") {
      text := parts[3][1..];
    } else {
      text := parts[3];
    }
    msg := Some(Message(channel, username, displayName, text, tags));
  }

  // ---- Printing ----

  /** A tag; in IRCv3 a tag may come without a value. */
  datatype Tag = Tag(key: string, value: Option<string>) {
    function Print(): string {
      match value
      case None => key
      case Some(v) => key + (['='] + v)
    }

    predicate Printable() {
      && ' ' !in key && ';' !in key && '=' !in key
      && (value.Some? ==> ' ' !in value.value && ';' !in value.value)
    }
  }

  /** A chat message as the server sends it. */
  datatype Privmsg = Privmsg(tags: seq<Tag>, nick: string, host: string, channel: string, text: string) {
    function Source(): string {
      [':'] + (nick + ['!'] + host)
    }

    function PrintBody(): string {
      FourWords(Source(), COMMAND, channel, [':'] + text)
    }

    function Print(): string {
      if tags == [] then PrintBody()
      else (['@'] + Join(PrintTags(tags), [';'])) + [' '] + PrintBody()
    }

    /** Every part is free of the characters that delimit it; the text may hold anything. */
    ghost predicate Printable() {
      && (forall t :: t in tags ==> t.Printable())
      && ' ' !in nick && '!' !in nick && ' ' !in host
      && channel != "" && channel[0] == '#' && ' ' !in channel
    }
  }

  function TwoWords(a: string, b: string): string {
    a + [' '] + b
  }

  function FourWords(a: string, b: string, c: string, d: string): string {
    TwoWords(a, TwoWords(b, TwoWords(c, d)))
  }

  function PrintTags(tags: seq<Tag>): (r: seq<string>)
    ensures |r| == |tags| && forall i :: 0 <= i < |tags| ==> r[i] == tags[i].Print()
  {
    seq(|tags|, i requires 0 <= i < |tags| => tags[i].Print())
  }

  /** The tag map a receiver should see: each key with the value of its last tag that has one. */
  ghost predicate LastWins(m: Tags, tags: seq<Tag>) {
    && (forall k :: k in m ==> exists i :: 0 <= i < |tags| && tags[i].key == k && tags[i].value.Some?)
    && (forall i :: 0 <= i < |tags| && tags[i].value.Some? ==>
          && tags[i].key in m
          && ((forall j :: i < j < |tags| && tags[j].value.Some? ==> tags[j].key != tags[i].key) ==>
                m[tags[i].key] == tags[i].value.value))
  }

  // ---- Parsing inverts printing ----

  lemma {:induction false} SplitOfJoin(parts: seq<string>, c: char)
    requires parts != [] && forall i :: 0 <= i < |parts| ==> c !in parts[i]
    ensures Split(Join(parts, [c]), c) == parts
  {
    if |parts| == 1 {
      SplitWithoutSeparator(parts[0], c, 1);
      assert parts == [parts[0]];
    } else {
      SplitOfJoin(parts[1..], c);
      SplitAtSeparator(parts[0], Join(parts[1..], [c]), c);
      assert parts == [parts[0]] + parts[1..];
    }
  }

  lemma {:induction false} JoinHolds(parts: seq<string>, sep: string, c: char)
    requires c !in sep && forall i :: 0 <= i < |parts| ==> c !in parts[i]
    ensures c !in Join(parts, sep)
  {
    if |parts| > 1 {
      JoinHolds(parts[1..], sep, c);
    }
  }

  lemma PrintedTagIsAdded(m: Tags, tag: Tag)
    requires tag.Printable()
    ensures AddTag(m, tag.Print()) == if tag.value.Some? then m[tag.key := tag.value.value] else m
  {
    if tag.value.Some? {
      assert tag.Print() == tag.key + ['='] + tag.value.value;
      SplitNAtSeparator(tag.key, tag.value.value, '=', 2);
    } else {
      SplitWithoutSeparator(tag.key, '=', 2);
    }
  }

  lemma {:induction false} AddTagsOfAppend(m: Tags, fields: seq<string>, last: string)
    ensures AddTags(m, fields + [last]) == AddTag(AddTags(m, fields), last)
    decreases |fields|
  {
    if fields == [] {
      assert (fields + [last])[1..] == [];
    } else {
      assert (fields + [last])[1..] == fields[1..] + [last];
      AddTagsOfAppend(AddTag(m, fields[0]), fields[1..], last);
    }
  }

  lemma LastWinsExtends(m: Tags, tags: seq<Tag>, tag: Tag)
    requires LastWins(m, tags)
    ensures LastWins(if tag.value.Some? then m[tag.key := tag.value.value] else m, tags + [tag])
  {
    var m' := if tag.value.Some? then m[tag.key := tag.value.value] else m;
    var all := tags + [tag];
    forall k | k in m' ensures exists i :: 0 <= i < |all| && all[i].key == k && all[i].value.Some? {
      if tag.value.Some? && k == tag.key {
        assert all[|tags|] == tag;
      } else {
        var i :| 0 <= i < |tags| && tags[i].key == k && tags[i].value.Some?;
        assert all[i] == tags[i];
      }
    }
    forall i | 0 <= i < |all| && all[i].value.Some?
      ensures all[i].key in m'
      ensures (forall j :: i < j < |all| && all[j].value.Some? ==> all[j].key != all[i].key) ==>
                m'[all[i].key] == all[i].value.value
    {
      if i < |tags| && forall j :: i < j < |all| && all[j].value.Some? ==> all[j].key != all[i].key {
        assert all[|tags|] == tag;
        forall j | i < j < |tags| && tags[j].value.Some? ensures tags[j].key != tags[i].key {
          assert all[j] == tags[j];
        }
      }
    }
  }

  lemma {:induction false} TagsAreReadLastWins(tags: seq<Tag>)
    requires forall t :: t in tags ==> t.Printable()
    ensures LastWins(AddTags(map[], PrintTags(tags)), tags)
  {
    if tags != [] {
      var n := |tags| - 1;
      TagsAreReadLastWins(tags[..n]);
      assert tags[n] in tags;
      ReadOneMoreTag(tags[..n], tags[n]);
      assert tags[..n] + [tags[n]] == tags;
    }
  }

  lemma ReadOneMoreTag(tags: seq<Tag>, tag: Tag)
    requires tag.Printable() && LastWins(AddTags(map[], PrintTags(tags)), tags)
    ensures LastWins(AddTags(map[], PrintTags(tags + [tag])), tags + [tag])
  {
    var m := AddTags(map[], PrintTags(tags));
    PrintedTagIsAdded(m, tag);
    assert PrintTags(tags + [tag]) == PrintTags(tags) + [tag.Print()];
    AddTagsOfAppend(map[], PrintTags(tags), tag.Print());
    LastWinsExtends(m, tags, tag);
  }

  lemma SplitOneWord(a: string, s: string, n: nat)
    requires ' ' !in a && n > 0
    ensures SplitN(TwoWords(a, s), ' ', n + 1) == [a] + SplitN(s, ' ', n)
  {
    SplitNAtSeparator(a, s, ' ', n + 1);
  }

  lemma SplitTwoWords(c: string, d: string)
    requires ' ' !in c
    ensures SplitN(TwoWords(c, d), ' ', 2) == [c, d]
  {
    SplitOneWord(c, d, 1);
  }

  lemma SplitThreeWords(b: string, c: string, d: string)
    requires ' ' !in b && ' ' !in c
    ensures SplitN(TwoWords(b, TwoWords(c, d)), ' ', 3) == [b, c, d]
  {
    SplitTwoWords(c, d);
    SplitOneWord(b, TwoWords(c, d), 2);
  }

  lemma SplitFourWords(a: string, b: string, c: string, d: string)
    requires ' ' !in a && ' ' !in b && ' ' !in c
    ensures SplitN(FourWords(a, b, c, d), ' ', 4) == [a, b, c, d]
  {
    SplitThreeWords(b, c, d);
    SplitOneWord(a, TwoWords(b, TwoWords(c, d)), 3);
  }

  lemma FirstChar(c: char, s: string)
    ensures HasPrefix([c] + s, [c]) && ([c] + s)[1..] == s
    ensures forall d :: d != c ==> !HasPrefix([c] + s, [d])
  {
    assert ([c] + s)[..1] == [c];
  }

  lemma BodyIsReadBack(p: Privmsg, tags: Tags)
    requires p.Printable()
    ensures ParseBody(p.PrintBody(), tags) == Some(Message(
              ToLower(p.channel), ToLower(p.nick),
              if DISPLAY_NAME in tags then tags[DISPLAY_NAME] else "", p.text, tags))
  {
    var last := [':'] + p.text;
    SplitFourWords(p.Source(), COMMAND, p.channel, last);
    FirstChar(':', p.nick + ['!'] + p.host);
    FirstChar(':', p.text);
    FirstChar('#', p.channel[1..]);
    assert p.channel == ['#'] + p.channel[1..];
    SplitNAtSeparator(p.nick, p.host, '!', 2);
  }

  // ---- Any line whatever ----

  lemma {:induction false} PiecesOfSplit(s: string, c: char, n: nat)
    requires n > 0
    ensures |SplitN(s, c, n)| == if multiset(s)[c] + 1 < n then multiset(s)[c] + 1 else n
    decreases |s|
  {
    var i := IndexOf(s, c);
    if i < |s| {
      assert s == s[..i] + [c] + s[i + 1..];
      if n > 1 {
        PiecesOfSplit(s[i + 1..], c, n - 1);
      }
    } else {
      assert s[..i] == s;
    }
  }

  lemma OneWord(s: string) returns (a: string, rest: string)
    requires ' ' in s
    ensures s == TwoWords(a, rest) && ' ' !in a && multiset(s)[' '] == multiset(rest)[' '] + 1
  {
    var i := IndexOf(s, ' ');
    assert s[..|s|] == s;
    a, rest := s[..i], s[i + 1..];
    assert s == a + [' '] + rest;
  }

  /** What four words say: the sender up to its `!`, the channel, and the text, the first two only with the
      character in front that marks them. */
  function Said(a: string, c: string, d: string, tags: Tags): Message {
    Message(if c != "" && c[0] == '#' then ToLower(c) else "",
            if a != "" && a[0] == ':' then ToLower(a[1..][..IndexOf(a[1..], '!')]) else "",
            if "display-name" in tags then tags["display-name"] else "",
            if d != "" && d[0] == ':' then d[1..] else d, tags)
  }

  lemma WordsAreRead(a: string, b: string, c: string, d: string, tags: Tags)
    requires ' ' !in a && ' ' !in b && ' ' !in c
    ensures ParseBody(FourWords(a, b, c, d), tags) == Some(Said(a, c, d, tags))
  {
    SplitFourWords(a, b, c, d);
    StartsWith(a, ':');
    StartsWith(c, '#');
    StartsWith(d, ':');
    if a != "" {
      FirstPiece(a[1..], '!');
    }
  }

  lemma FirstPiece(s: string, c: char)
    ensures SplitN(s, c, 2)[0] == s[..IndexOf(s, c)]
  {
    assert s[..|s|] == s;
  }

  lemma StartsWith(s: string, c: char)
    ensures HasPrefix(s, [c]) <==> s != "" && s[0] == c
  {
    if s != "" {
      assert s[..1] == [s[0]];
    }
  }

  /** A line without its tags is refused exactly if it holds fewer than three spaces; any other line is three
      words and a rest, and says what these say. */
  lemma BodyIsFourWords(line: string, tags: Tags)
    ensures multiset(line)[' '] < 3 ==> ParseBody(line, tags) == None
    ensures multiset(line)[' '] >= 3 ==>
              exists a, b, c, d :: ' ' !in a && ' ' !in b && ' ' !in c && line == FourWords(a, b, c, d)
                && ParseBody(line, tags) == Some(Said(a, c, d, tags))
  {
    PiecesOfSplit(line, ' ', 4);
    if multiset(line)[' '] >= 3 {
      var a, rest := OneWord(line);
      var b, rest' := OneWord(rest);
      var c, d := OneWord(rest');
      WordsAreRead(a, b, c, d, tags);
      assert line == FourWords(a, b, c, d);
    }
  }

  /** The tags of a printed line, as the parser reads them. */
  function ReadTags(p: Privmsg): Tags {
    AddTags(map[], PrintTags(p.tags))
  }

  function Received(p: Privmsg): Message {
    var tags := ReadTags(p);
    Message(ToLower(p.channel), ToLower(p.nick),
            if DISPLAY_NAME in tags then tags[DISPLAY_NAME] else "", p.text, tags)
  }

  lemma PrintedTagIsPlain(t: Tag)
    requires t.Printable()
    ensures ' ' !in t.Print() && ';' !in t.Print()
  {
  }

  /** A printed message is read back: lower-cased nick and channel, the exact text, the last-wins tags. */
  lemma ParseInvertsPrint(p: Privmsg)
    requires p.Printable()
    ensures Parse(p.Print()) == Some(Received(p))
    ensures LastWins(Received(p).tags, p.tags)
  {
    TagsAreReadLastWins(p.tags);
    BodyIsReadBack(p, ReadTags(p));
    if p.tags == [] {
      StartsWithColon(p);
    } else {
      TaggedIsReadBack(PrintTags(p.tags), p.PrintBody(), p.tags);
    }
  }

  lemma StartsWithColon(p: Privmsg)
    ensures !HasPrefix(p.PrintBody(), "@")
  {
    assert p.PrintBody()[0] == ':';
  }

  lemma TaggedIsReadBack(fields: seq<string>, body: string, tags: seq<Tag>)
    requires tags != [] && fields == PrintTags(tags) && forall t :: t in tags ==> t.Printable()
    ensures Parse((['@'] + Join(fields, [';'])) + [' '] + body) == ParseBody(body, AddTags(map[], fields))
  {
    forall i | 0 <= i < |fields| ensures ' ' !in fields[i] && ';' !in fields[i] {
      assert tags[i] in tags;
      PrintedTagIsPlain(tags[i]);
    }
    JoinHolds(fields, [';'], ' ');
    SplitOfJoin(fields, ';');
    TagPrefixIsRead(Join(fields, [';']), body);
  }

  lemma TagPrefixIsRead(tagStr: string, body: string)
    requires ' ' !in tagStr
    ensures Parse((['@'] + tagStr) + [' '] + body) == ParseBody(body, AddTags(map[], Split(tagStr, ';')))
  {
    var prefix := ['@'] + tagStr;
    var line := prefix + [' '] + body;
    SplitTwoWords(prefix, body);
    assert line[..1] == "@" && prefix[1..] == tagStr;
  }

  // ---- From the socket to the message handler ----

  /** `strings.Contains`. */
  predicate Contains(s: string, sub: string) {
    HasPrefix(s, sub) || (s != "" && Contains(s[1..], sub))
  }

  lemma {:induction false} ContainsMiddle(a: string, sub: string, b: string)
    ensures Contains(a + (sub + b), sub)
  {
    if a == "" {
      assert a + (sub + b) == sub + b;
    } else {
      assert (a + (sub + b))[1..] == a[1..] + (sub + b);
      ContainsMiddle(a[1..], sub, b);
    }
  }

  /** `ReadString`: the bytes up to the first line feed, with it; without one there is no line. */
  function ReadLine(stream: string): Option<string> {
    var i := IndexOf(stream, '\n');
    if i < |stream| then Some(stream[..i + 1]) else None
  }

  function HandleLine(line: string): Option<Message> {
    if HasPrefix(line, "PING") then None
    else if Contains(line, COMMAND) then Parse(line)
    else None
  }

  /** What one turn of `readLoop` hands to the message callback, given what the connection has to offer. */
  function Deliver(stream: string): Option<Message> {
    match ReadLine(stream)
    case None => None
    case Some(line) => HandleLine(TrimSpace(line))
  }

  predicate StandsAt(s: string, sub: string, i: nat) {
    i + |sub| <= |s| && s[i..i + |sub|] == sub
  }

  lemma {:induction false} ContainsIff(s: string, sub: string)
    ensures Contains(s, sub) <==> exists i: nat :: StandsAt(s, sub, i)
  {
    if HasPrefix(s, sub) {
      assert StandsAt(s, sub, 0);
    } else if s != "" {
      ContainsIff(s[1..], sub);
      if i: nat :| StandsAt(s[1..], sub, i) {
        assert s[1..][i..i + |sub|] == s[i + 1..i + 1 + |sub|];
        assert StandsAt(s, sub, i + 1);
      }
      if i: nat :| StandsAt(s, sub, i) {
        assert i > 0;
        assert s[1..][i - 1..i - 1 + |sub|] == s[i..i + |sub|];
        assert StandsAt(s[1..], sub, i - 1);
      }
    }
  }

  /** The line a turn of the read loop works on: up to the first line feed, trimmed. */
  function LineOf(stream: string): string {
    TrimSpace(stream[..IndexOf(stream, '\n')] + "\n")
  }

  /** The read loop hands on what the parser makes of a complete line that is no PING and holds the word
      PRIVMSG, and nothing else. */
  lemma OnlyPrivmsgIsDelivered(stream: string)
    ensures var line := LineOf(stream);
            Deliver(stream)
            == if '\n' in stream && !("PING" <= line) && (exists i: nat :: StandsAt(line, "PRIVMSG", i))
               then Parse(line) else None
  {
    var i := IndexOf(stream, '\n');
    HandledIff(LineOf(stream));
    if i < |stream| {
      assert stream[..i + 1] == stream[..i] + "\n";
    } else {
      assert stream[..i] == stream;
    }
  }

  lemma HandledIff(line: string)
    ensures HandleLine(line)
            == if !("PING" <= line) && (exists i: nat :: StandsAt(line, "PRIVMSG", i)) then Parse(line) else None
  {
    ContainsIff(line, "PRIVMSG");
  }

  lemma {:induction false} TrimRightOfAppend(a: string, b: string)
    requires a != "" && !IsSpace(a[|a| - 1])
    ensures TrimRight(a + b) == a + TrimRight(b)
  {
    if b == "" {
      assert a + b == a;
    } else if IsSpace(b[|b| - 1]) {
      assert (a + b)[..|a + b| - 1] == a + b[..|b| - 1];
      TrimRightOfAppend(a, b[..|b| - 1]);
    }
  }

  /** The part of a printed line before the command, and between the command and the text. */
  function BeforeCommand(p: Privmsg): string {
    (if p.tags == [] then "" else (['@'] + Join(PrintTags(p.tags), [';'])) + [' ']) + (p.Source() + [' '])
  }

  function AfterCommand(p: Privmsg): string {
    [' '] + (p.channel + [' ']) + [':']
  }

  lemma PrintedInParts(p: Privmsg)
    ensures p.Print() == BeforeCommand(p) + (COMMAND + (AfterCommand(p) + p.text))
  {
    Regroup(p.Source(), COMMAND, p.channel, p.text);
    if p.tags != [] {
      var lead := (['@'] + Join(PrintTags(p.tags), [';'])) + [' '];
      var source, rest := p.Source() + [' '], COMMAND + (AfterCommand(p) + p.text);
      assert lead + (source + rest) == (lead + source) + rest;
    }
  }

  lemma Regroup(a: string, b: string, c: string, text: string)
    ensures FourWords(a, b, c, [':'] + text) == (a + [' ']) + (b + (([' '] + (c + [' ']) + [':']) + text))
  {
    assert TwoWords(c, [':'] + text) == (c + [' '] + [':']) + text;
    assert TwoWords(b, TwoWords(c, [':'] + text)) == b + (([' '] + (c + [' ']) + [':']) + text);
  }

  function Lead(p: Privmsg): string {
    BeforeCommand(p) + (COMMAND + AfterCommand(p))
  }

  lemma LeadShape(p: Privmsg)
    ensures var a := Lead(p); a != "" && a[|a| - 1] == ':' && (a[0] == ':' || a[0] == '@')
  {
    assert BeforeCommand(p) != "" && (BeforeCommand(p)[0] == ':' || BeforeCommand(p)[0] == '@');
  }

  lemma LeadThenText(p: Privmsg)
    ensures p.Print() == Lead(p) + p.text && Contains(p.Print(), COMMAND)
  {
    PrintedInParts(p);
    ContainsMiddle(BeforeCommand(p), COMMAND, AfterCommand(p) + p.text);
    assert COMMAND + (AfterCommand(p) + p.text) == (COMMAND + AfterCommand(p)) + p.text;
  }

  /** The text up to its first line feed. */
  function FirstLine(text: string): string {
    text[..IndexOf(text, '\n')]
  }

  lemma ReadsFirstLine(a: string, text: string)
    requires '\n' !in a
    ensures ReadLine((a + text) + "\r\n")
            == Some((a + FirstLine(text)) + if '\n' in text then "\n" else "\r\n")
  {
    var i := IndexOf(text, '\n');
    var s := (a + text) + "\r\n";
    assert s == a + (text + "\r\n");
    IndexOfPrefix(a, text + "\r\n", '\n');
    if '\n' in text {
      FoundInside(text, "\r\n");
      assert s[..|a| + i + 1] == (a + text[..i]) + "\n";
    } else {
      IndexOfPrefix(text, "\r\n", '\n');
      assert text[..i] == text;
      assert s[..|s|] == s;
      LineEnd();
    }
  }

  lemma LineEnd()
    ensures IndexOf("\r\n", '\n') == 1
  {
  }

  lemma FoundInside(text: string, end: string)
    requires '\n' in text
    ensures IndexOf(text + end, '\n') == IndexOf(text, '\n') < |text| && text[IndexOf(text, '\n')] == '\n'
  {
    var i := IndexOf(text, '\n');
    assert text[..|text|] == text;
    assert text + end == text[..i] + (text[i..] + end);
    IndexOfPrefix(text[..i], text[i..] + end, '\n');
    assert (text[i..] + end)[0] == '\n';
  }

  /** A printed line that comes in over the connection is delivered with its text cut at the first line feed
      and less the spaces at the end: exactly as it was sent if and only if the text holds no line feed and
      does not end in a space. */
  lemma DeliveredWithoutTrailingSpace(p: Privmsg)
    requires p.Printable() && '\n' !in Lead(p)
    ensures Deliver(p.Print() + "\r\n") == Some(Received(p.(text := TrimRight(FirstLine(p.text)))))
    ensures Deliver(p.Print() + "\r\n") == Some(Received(p))
            <==> '\n' !in p.text && (p.text == "" || !IsSpace(p.text[|p.text| - 1]))
  {
    var line := FirstLine(p.text);
    var p' := p.(text := TrimRight(line));
    var end := if '\n' in p.text then "\n" else "\r\n";
    LeadShape(p);
    LeadThenText(p);
    LeadThenText(p');
    assert Lead(p') == Lead(p);
    ReadsFirstLine(Lead(p), p.text);
    TrimLine(Lead(p), line, end);
    NotPing(p'.Print());
    ParseInvertsPrint(p');
    KeepsTextIff(p.text);
  }

  lemma KeepsTextIff(text: string)
    ensures TrimRight(FirstLine(text)) == text <==> '\n' !in text && (text == "" || !IsSpace(text[|text| - 1]))
  {
    TrimRightTrims(FirstLine(text));
    if '\n' in text {
      FoundInside(text, "");
    } else {
      assert FirstLine(text) == text;
    }
  }

  lemma NotPing(s: string)
    requires s != "" && s[0] != 'P'
    ensures !HasPrefix(s, "PING")
  {
  }

  lemma TrimLine(a: string, text: string, end: string)
    requires a != "" && !IsSpace(a[0]) && !IsSpace(a[|a| - 1]) && (end == "\n" || end == "\r\n")
    ensures TrimSpace((a + text) + end) == a + TrimRight(text)
  {
    assert (a + text) + end == a + (text + end);
    TrimRightOfAppend(a, text + end);
    TrimLineEnd(text, end);
  }

  lemma TrimLineEnd(s: string, end: string)
    requires end == "\n" || end == "\r\n"
    ensures TrimRight(s + end) == TrimRight(s)
  {
    var u := s + end;
    if end == "\n" {
      assert u[..|u| - 1] == s;
    } else {
      assert u[..|u| - 1] == s + "\r";
      var v := s + "\r";
      assert v[..|v| - 1] == s;
    }
  }
}
