/** `capturedSource` in web/src/CodeInspector.tsx: a source file reassembled from pages of lines, within limits. */
module CapturedSource {
  import opened Characters
  import opened Results
  import L = Lines

  /** 512 KiB, and the number of lines after which no further page is requested. */
  const LIMIT := 524288
  const LINES := 2000

  /** The code units of a character in a JavaScript string. */
  function Utf16(c: char): nat {
    if c < '\U{10000}' then 1 else 2
  }

  function Units(s: string): nat {
    if s == "" then 0 else Units(s[..|s| - 1]) + Utf16(s[|s| - 1])
  }

  /** The longest beginning of `s` that fits into `limit` bytes. */
  function Fitting(s: string, limit: nat): (t: string)
    ensures t <= s && Bytes(t) <= limit
  {
    if Bytes(s) <= limit then s else Fitting(s[..|s| - 1], limit)
  }

  /** Decoding the first `limit` bytes: a leading byte order mark is dropped, a cut character is replaced. */
  function DecodedStart(s: string, limit: nat): string {
    var whole := Fitting(s, limit);
    var unmarked := if whole != "" && whole[0] == '\U{FEFF}' then whole[1..] else whole;
    if Bytes(whole) < limit && whole != s then unmarked + "\U{FFFD}" else unmarked
  }

  lemma {:induction false} PrefixTakesFewerBytes(s: string, k: nat)
    requires k <= |s|
    ensures Bytes(s[..k]) <= Bytes(s)
    decreases |s| - k
  {
    if k == |s| {
      assert s[..k] == s;
    } else {
      PrefixTakesFewerBytes(s, k + 1);
      assert s[..k + 1][..k] == s[..k];
    }
  }

  /** No longer beginning fits. */
  lemma {:induction false} FittingIsLongest(s: string, limit: nat, k: nat)
    requires |Fitting(s, limit)| < k <= |s|
    ensures Bytes(s[..k]) > limit
  {
    if k == |s| {
      assert s[..k] == s;
    } else {
      FittingIsLongest(s[..|s| - 1], limit, k);
      assert s[..|s| - 1][..k] == s[..k];
    }
  }

  /** What is decoded is the longest beginning of whole characters, with one replacement character if one was cut. */
  lemma DecodedIsLongestStart(s: string, limit: nat)
    requires s != "" && s[0] != '\U{FEFF}' && Bytes(s) > limit
    ensures exists k: nat :: k < |s| && Bytes(s[..k]) <= limit < Bytes(s[..k + 1]) &&
              DecodedStart(s, limit) == s[..k] + (if Bytes(s[..k]) < limit then "\U{FFFD}" else "")
  {
    var whole := Fitting(s, limit);
    var k := |whole|;
    assert whole == s[..k] && k < |s|;
    FittingIsLongest(s, limit, k + 1);
  }

  // ---------------------------------------------------------------- the loop

  /** An excerpt with its next offset; `matches` says that source, path and offset are those requested. */
  datatype Reply = Excerpt(matches: bool, text: string, next: Option<nat>) | Failed

  type Server = nat -> Reply

  datatype Capture = Complete(text: string)
                   | Stopped(text: string, offset: nat)
                   | Cut(text: string)
                   | Throws

  datatype Progress = Done(capture: Capture) | More(offset: nat, text: string)

  /** One round of the loop, from an offset and the text so far. */
  function Round(reply: Reply, offset: nat, text: string): Progress {
    if reply.Failed? || !reply.matches then Done(Throws)
    else
      var whole := text + reply.text;
      if Bytes(whole) > LIMIT then Done(Cut(DecodedStart(whole, LIMIT)))
      else if reply.next.None? then Done(Complete(whole))
      else if reply.next.value <= offset then Done(Throws)
      else if reply.next.value >= LINES || Units(whole) >= LIMIT then Done(Stopped(whole, reply.next.value))
      else if Units(whole) + 1 >= LIMIT then Done(Stopped(whole + "\n", reply.next.value))
      else More(reply.next.value, whole + "\n")
  }

  lemma UnitsOneMore(s: string, c: char)
    ensures Units(s + [c]) == Units(s) + Utf16(c) && Bytes(s + [c]) == Bytes(s) + Utf8(c)
  {
    assert (s + [c])[..|s|] == s;
  }

  lemma RoundAdvances(reply: Reply, offset: nat, text: string)
    ensures Round(reply, offset, text).More? ==> offset < Round(reply, offset, text).offset < LINES
  {
  }

  /** Whatever the server answers, the loop ends: each round starts at a larger offset. */
  function From(server: Server, offset: nat, text: string): Capture
    requires offset < LINES
    decreases LINES - offset
  {
    match Round(server(offset), offset, text)
    case Done(capture) => capture
    case More(next, longer) => From(server, next, longer)
  }

  method CapturedSource(server: Server) returns (r: Capture)
    ensures r == From(server, 0, "")
  {
    var offset: nat, text := 0, "";
    while true
      invariant offset < LINES && From(server, offset, text) == From(server, 0, "")
      decreases LINES - offset
    {
      var last := server(offset);
      if last.Failed? || !last.matches {
        return Throws;
      }
      if Bytes(text + last.text) > LIMIT {
        return Cut(DecodedStart(text + last.text, LIMIT));
      }
      text := text + last.text;
      if last.next.None? {
        return Complete(text);
      }
      if last.next.value <= offset {
        return Throws;
      }
      offset := last.next.value;
      if offset >= LINES || Units(text) >= LIMIT {
        return Stopped(text, offset);
      }
      UnitsOneMore(text, '\n');
      text := text + "\n";
      if Units(text) >= LIMIT {
        return Stopped(text, offset);
      }
    }
  }

  // ---------------------------------------------------------------- against a server that pages a file by lines

  /** What an excerpt at `offset` must be: the joined lines up to the next offset, or up to the end. */
  ghost predicate PageOf(lines: seq<string>, offset: nat, reply: Reply) {
    reply.Excerpt? && offset <= |lines| ==>
      match reply.next
      case Some(next) => offset < next < |lines| && reply.text == L.Join(lines[offset..next])
      case None => reply.text == L.Join(lines[offset..])
  }

  ghost predicate PagesByLines(server: Server, lines: seq<string>) {
    forall offset: nat :: PageOf(lines, offset, server(offset))
  }

  /** The text with which the loop reaches `offset`. */
  function TextAt(lines: seq<string>, offset: nat): string
    requires offset <= |lines|
  {
    if offset == 0 then "" else L.Join(lines[..offset]) + "\n"
  }

  lemma Regroup(x: string, y: string, z: string, newline: string)
    ensures x + newline + y + newline + z == x + newline + (y + newline + z)
  {
  }

  lemma {:induction false} JoinConcat(a: seq<string>, b: seq<string>)
    requires a != [] && b != []
    ensures L.Join(a + b) == L.Join(a) + "\n" + L.Join(b)
  {
    var init, last := b[..|b| - 1], b[|b| - 1];
    assert b == init + [last];
    L.JoinOneMore(a + init, last);
    assert a + b == (a + init) + [last];
    if init != [] {
      JoinConcat(a, init);
      L.JoinOneMore(init, last);
      Regroup(L.Join(a), L.Join(init), last, "\n");
    } else {
      assert a + init == a && L.Join(b) == last;
    }
  }

  /** Adding the page from `offset` to `end` to the text so far gives the first `end` lines. */
  lemma PageExtends(lines: seq<string>, offset: nat, end: nat)
    requires offset <= end <= |lines| && (offset < end || offset == 0)
    ensures TextAt(lines, offset) + L.Join(lines[offset..end]) == L.Join(lines[..end])
  {
    if offset > 0 {
      assert lines[..end] == lines[..offset] + lines[offset..end];
      JoinConcat(lines[..offset], lines[offset..end]);
    } else {
      assert lines[0..end] == lines[..end];
    }
  }

  /** The text of a stopped capture: the lines before the offset, and a newline too if that just reaches the limit. */
  function StoppedText(lines: seq<string>, offset: nat): string
    requires offset <= |lines|
  {
    var text := L.Join(lines[..offset]);
    if offset < LINES && Units(text) == LIMIT - 1 then text + "\n" else text
  }

  ghost predicate Faithful(lines: seq<string>, capture: Capture) {
    match capture
    case Complete(text) => text == L.Join(lines) && Bytes(text) <= LIMIT
    case Stopped(text, offset) => 0 < offset < |lines| && text == StoppedText(lines, offset)
    case Cut(text) =>
      exists end ::
        0 < end <= |lines| && Bytes(L.Join(lines[..end])) > LIMIT && text == DecodedStart(L.Join(lines[..end]), LIMIT)
    case Throws => true
  }

  /** The lines captured once a reply is added. */
  function EndOf(lines: seq<string>, reply: Reply): nat
    requires reply.Excerpt?
  {
    if reply.next.Some? then reply.next.value else |lines|
  }

  lemma ReplyExtends(lines: seq<string>, offset: nat, reply: Reply)
    requires PageOf(lines, offset, reply) && reply.Excerpt? && offset <= |lines| && (offset < |lines| || offset == 0)
    ensures EndOf(lines, reply) <= |lines| && (reply.next.Some? ==> offset < EndOf(lines, reply) < |lines|)
    ensures TextAt(lines, offset) + reply.text == L.Join(lines[..EndOf(lines, reply)])
  {
    PageExtends(lines, offset, EndOf(lines, reply));
    assert lines[offset..] == lines[offset..|lines|];
  }

  lemma RoundIsFaithful(lines: seq<string>, offset: nat, reply: Reply, text: string)
    requires reply.Excerpt? && EndOf(lines, reply) <= |lines|
    requires reply.next.Some? ==> offset < EndOf(lines, reply) < |lines|
    requires text + reply.text == L.Join(lines[..EndOf(lines, reply)])
    ensures match Round(reply, offset, text)
            case Done(capture) => Faithful(lines, capture)
            case More(next, longer) => next == EndOf(lines, reply) && longer == TextAt(lines, next)
  {
    var end := EndOf(lines, reply);
    if end == |lines| {
      assert lines[..end] == lines;
    }
    if end == 0 {
      assert lines[..end] == [];
    }
  }

  lemma {:induction false} FromIsFaithful(server: Server, lines: seq<string>, offset: nat)
    requires PagesByLines(server, lines) && offset < LINES && offset <= |lines| && (offset < |lines| || offset == 0)
    ensures Faithful(lines, From(server, offset, TextAt(lines, offset)))
    decreases LINES - offset
  {
    var reply := server(offset);
    assert PageOf(lines, offset, reply);
    if reply.Excerpt? {
      ReplyExtends(lines, offset, reply);
      RoundIsFaithful(lines, offset, reply, TextAt(lines, offset));
      RoundAdvances(reply, offset, TextAt(lines, offset));
      if Round(reply, offset, TextAt(lines, offset)).More? {
        FromIsFaithful(server, lines, EndOf(lines, reply));
      }
    }
  }

  /**
    * A complete capture is all the lines, joined, within the limit; a stopped one is exactly the lines before
    * its offset, but for one newline at the very limit; a cut one is the beginning of their join.
    */
  lemma CaptureIsFaithful(server: Server, lines: seq<string>)
    requires PagesByLines(server, lines)
    ensures Faithful(lines, From(server, 0, ""))
  {
    FromIsFaithful(server, lines, 0);
  }

  // ---------------------------------------------------------------- what ends a capture

  /** The page from `start` is asked for: it is the first, or what comes before it leaves room for more. */
  predicate AskedFor(lines: seq<string>, start: nat) {
    start <= |lines| &&
    (start == 0 ||
     (start < LINES && Bytes(L.Join(lines[..start])) <= LIMIT && Units(L.Join(lines[..start])) + 1 < LIMIT))
  }

  /**
    * The page from `start` ends the capture: it fails, it passes the limit, it is the last one, or it fills the lines
    * or the text that are asked for.
    */
  predicate EndsWithPage(lines: seq<string>, start: nat, reply: Reply, capture: Capture) {
    if reply.Failed? || !reply.matches then capture == Throws
    else if EndOf(lines, reply) > |lines| then false
    else
      var end := EndOf(lines, reply);
      var whole := L.Join(lines[..end]);
      if Bytes(whole) > LIMIT then capture == Cut(DecodedStart(whole, LIMIT))
      else if reply.next.None? then capture == Complete(L.Join(lines))
      else capture == Stopped(StoppedText(lines, end), end) && (end >= LINES || Units(whole) + 1 >= LIMIT)
  }

  lemma RoundEnds(lines: seq<string>, offset: nat, reply: Reply, text: string)
    requires reply.Excerpt? && EndOf(lines, reply) <= |lines| && offset < LINES
    requires reply.next.Some? ==> offset < EndOf(lines, reply) < |lines|
    requires text + reply.text == L.Join(lines[..EndOf(lines, reply)])
    ensures match Round(reply, offset, text)
            case Done(capture) => EndsWithPage(lines, offset, reply, capture)
            case More(next, _) => next == EndOf(lines, reply) && AskedFor(lines, next)
  {
    if EndOf(lines, reply) == |lines| {
      assert lines[..|lines|] == lines;
    }
  }

  lemma {:induction false} FromEnds(server: Server, lines: seq<string>, offset: nat) returns (start: nat)
    requires PagesByLines(server, lines) && offset < LINES && AskedFor(lines, offset)
    requires offset < |lines| || offset == 0
    ensures AskedFor(lines, start)
    ensures EndsWithPage(lines, start, server(start), From(server, offset, TextAt(lines, offset)))
    decreases LINES - offset
  {
    var reply := server(offset);
    assert PageOf(lines, offset, reply);
    start := offset;
    if reply.Excerpt? {
      ReplyExtends(lines, offset, reply);
      RoundEnds(lines, offset, reply, TextAt(lines, offset));
      RoundIsFaithful(lines, offset, reply, TextAt(lines, offset));
      RoundAdvances(reply, offset, TextAt(lines, offset));
      if Round(reply, offset, TextAt(lines, offset)).More? {
        start := FromEnds(server, lines, EndOf(lines, reply));
      }
    }
  }

  /** Every capture ends with a page that was to be asked for, and in the way that this page ends it. */
  lemma CaptureEndsWithPage(server: Server, lines: seq<string>)
    requires PagesByLines(server, lines)
    ensures exists start :: AskedFor(lines, start) && EndsWithPage(lines, start, server(start), From(server, 0, ""))
  {
    var start := FromEnds(server, lines, 0);
  }

  /** Pages that are all answered never make a capture fail. */
  lemma AnsweredCaptureSucceeds(server: Server, lines: seq<string>)
    requires PagesByLines(server, lines) && AlwaysAnswers(server)
    ensures !From(server, 0, "").Throws?
  {
    CaptureEndsWithPage(server, lines);
    var start :| AskedFor(lines, start) && EndsWithPage(lines, start, server(start), From(server, 0, ""));
  }

  // ---------------------------------------------------------------- which files are complete

  lemma {:induction false} BytesConcat(a: string, b: string)
    ensures Bytes(a + b) == Bytes(a) + Bytes(b)
  {
    if b == "" {
      assert a + b == a;
    } else {
      assert (a + b)[..|a + b| - 1] == a + b[..|b| - 1];
      BytesConcat(a, b[..|b| - 1]);
    }
  }

  lemma {:induction false} UnitsWithinBytes(s: string)
    ensures Units(s) <= Bytes(s)
  {
    if s != "" {
      UnitsWithinBytes(s[..|s| - 1]);
    }
  }

  lemma HeadIsSmaller(head: string, newline: string, tail: string)
    requires newline == ['\n']
    ensures Bytes(head) < Bytes(head + newline + tail)
  {
    BytesConcat(head + newline, tail);
    UnitsOneMore(head, '\n');
  }

  /** What comes first takes no more bytes than the whole, and at least one less if lines follow. */
  lemma PrefixIsSmaller(lines: seq<string>, end: nat)
    requires end <= |lines|
    ensures Bytes(L.Join(lines[..end])) <= Bytes(L.Join(lines))
    ensures 0 < end < |lines| ==> Bytes(L.Join(lines[..end])) < Bytes(L.Join(lines))
  {
    if end == 0 {
      assert lines[..end] == [];
    } else if end == |lines| {
      assert lines[..end] == lines;
    } else {
      assert lines == lines[..end] + lines[end..];
      JoinConcat(lines[..end], lines[end..]);
      HeadIsSmaller(L.Join(lines[..end]), "\n", L.Join(lines[end..]));
    }
  }

  ghost predicate AlwaysAnswers(server: Server) {
    forall offset: nat :: server(offset).Excerpt? && server(offset).matches
  }

  lemma RoundContinues(lines: seq<string>, offset: nat, reply: Reply, text: string)
    requires reply.Excerpt? && reply.matches
    requires EndOf(lines, reply) <= |lines| && (reply.next.Some? ==> offset < EndOf(lines, reply) < |lines|)
    requires text + reply.text == L.Join(lines[..EndOf(lines, reply)])
    requires |lines| <= LINES && Bytes(L.Join(lines)) < LIMIT
    ensures Round(reply, offset, text) ==
            if reply.next.None? then Done(Complete(L.Join(lines)))
            else More(EndOf(lines, reply), TextAt(lines, EndOf(lines, reply)))
  {
    var end := EndOf(lines, reply);
    PrefixIsSmaller(lines, end);
    UnitsWithinBytes(L.Join(lines[..end]));
    if reply.next.None? {
      assert lines[..end] == lines;
    }
  }

  lemma {:induction false} FromCompletes(server: Server, lines: seq<string>, offset: nat)
    requires PagesByLines(server, lines) && AlwaysAnswers(server)
    requires |lines| <= LINES && Bytes(L.Join(lines)) < LIMIT
    requires offset < LINES && offset <= |lines| && (offset < |lines| || offset == 0)
    ensures From(server, offset, TextAt(lines, offset)) == Complete(L.Join(lines))
    decreases LINES - offset
  {
    var reply := server(offset);
    assert PageOf(lines, offset, reply) && reply.Excerpt? && reply.matches;
    ReplyExtends(lines, offset, reply);
    RoundContinues(lines, offset, reply, TextAt(lines, offset));
    if reply.next.Some? {
      FromCompletes(server, lines, EndOf(lines, reply));
    }
  }

  /** A file of at most 2,000 lines and less than 512 KiB is captured completely, whatever the page size. */
  lemma SmallFilesAreComplete(server: Server, lines: seq<string>)
    requires PagesByLines(server, lines) && AlwaysAnswers(server)
    requires |lines| <= LINES && Bytes(L.Join(lines)) < LIMIT
    ensures From(server, 0, "") == Complete(L.Join(lines))
  {
    FromCompletes(server, lines, 0);
  }

  /** A stopped text is exactly the lines before its offset, unless these end one code unit below the limit. */
  lemma StoppedIsJoinIffClear(server: Server, lines: seq<string>, text: string, offset: nat)
    requires PagesByLines(server, lines) && From(server, 0, "") == Stopped(text, offset)
    ensures offset <= |lines|
    ensures text == L.Join(lines[..offset]) <==> offset >= LINES || Units(L.Join(lines[..offset])) != LIMIT - 1
  {
    CaptureIsFaithful(server, lines);
    assert |L.Join(lines[..offset]) + "\n"| == |L.Join(lines[..offset])| + 1;
  }

  // ---------------------------------------------------------------- the server that pages a file

  /** The limit the client asks for, and the size the server refuses to exceed. */
  const PAGE := 200
  const PAGE_BYTES := 65536

  function WithoutReturn(line: string): (t: string)
    ensures t <= line && |line| <= |t| + 1
  {
    if line != "" && line[|line| - 1] == '\r' then line[..|line| - 1] else line
  }

  function WithoutReturns(lines: seq<string>): (r: seq<string>)
    ensures |r| == |lines| && forall i :: 0 <= i < |lines| ==> r[i] == WithoutReturn(lines[i])
  {
    seq(|lines|, i requires 0 <= i < |lines| => WithoutReturn(lines[i]))
  }

  /** Rust's `str::lines`: a final newline ends no further line, and CR LF ends a line like LF. */
  function ServerLines(file: string): seq<string> {
    var parts := L.Split(file);
    var last := parts[|parts| - 1];
    WithoutReturns(parts[..|parts| - 1]) + (if last == "" then [] else [last])
  }

  /** The reply of crates/transflow/src/api_read.rs for the lines from `offset`. */
  function ServerReply(lines: seq<string>, offset: nat): Reply {
    if offset > |lines| then Excerpt(true, "", None)
    else
      var end := if offset + PAGE < |lines| then offset + PAGE else |lines|;
      var text := L.Join(lines[offset..end]);
      if Bytes(text) > PAGE_BYTES then Failed else Excerpt(true, text, if end < |lines| then Some(end) else None)
  }

  /** The page from `offset` is within what the server sends. */
  predicate PageFits(lines: seq<string>, offset: nat)
    requires offset <= |lines|
  {
    Bytes(L.Join(lines[offset..if offset + PAGE < |lines| then offset + PAGE else |lines|])) <= PAGE_BYTES
  }

  /** All the pages that the client asks for from `offset` on are. */
  predicate PagesFit(lines: seq<string>, offset: nat)
    requires offset <= |lines|
    decreases |lines| - offset
  {
    PageFits(lines, offset) && (offset + PAGE < |lines| ==> PagesFit(lines, offset + PAGE))
  }

  function FileServer(file: string): Server {
    (offset: nat) => ServerReply(ServerLines(file), offset)
  }

  lemma ServerPagesByLines(file: string)
    ensures PagesByLines(FileServer(file), ServerLines(file))
  {
    var lines := ServerLines(file);
    forall offset: nat ensures PageOf(lines, offset, FileServer(file)(offset)) {
      if offset <= |lines| {
        assert lines[offset..|lines|] == lines[offset..];
      }
    }
  }

  /** One page of a small file, if the server sends it. */
  lemma SmallFileRound(lines: seq<string>, offset: nat)
    requires |lines| <= LINES && Bytes(L.Join(lines)) < LIMIT && (offset < |lines| || offset == 0)
    requires PageFits(lines, offset) && PageOf(lines, offset, ServerReply(lines, offset))
    ensures Round(ServerReply(lines, offset), offset, TextAt(lines, offset)) ==
            if offset + PAGE < |lines| then More(offset + PAGE, TextAt(lines, offset + PAGE))
            else Done(Complete(L.Join(lines)))
  {
    var reply := ServerReply(lines, offset);
    ReplyExtends(lines, offset, reply);
    RoundContinues(lines, offset, reply, TextAt(lines, offset));
  }

  lemma {:induction false} SmallLinesComplete(server: Server, lines: seq<string>, offset: nat)
    requires PagesByLines(server, lines) && forall o: nat :: server(o) == ServerReply(lines, o)
    requires |lines| <= LINES && Bytes(L.Join(lines)) < LIMIT
    requires offset < LINES && (offset < |lines| || offset == 0)
    ensures From(server, offset, TextAt(lines, offset)) ==
            if PagesFit(lines, offset) then Complete(L.Join(lines)) else Throws
    decreases LINES - offset
  {
    assert PageOf(lines, offset, server(offset));
    if PageFits(lines, offset) {
      SmallFileRound(lines, offset);
      if offset + PAGE < |lines| {
        SmallLinesComplete(server, lines, offset + PAGE);
      }
    }
  }

  /** A file of at most 2,000 lines and less than 512 KiB is captured exactly if each of its pages is at most 64 KiB. */
  lemma SmallFileIsCapturedIffPagesFit(file: string)
    requires |ServerLines(file)| <= LINES && Bytes(L.Join(ServerLines(file))) < LIMIT
    ensures From(FileServer(file), 0, "") ==
      if PagesFit(ServerLines(file), 0) then Complete(L.Join(ServerLines(file))) else Throws
  {
    ServerPagesByLines(file);
    SmallLinesComplete(FileServer(file), ServerLines(file), 0);
  }

  predicate HasCrLf(s: string) {
    exists i :: 0 <= i < |s| - 1 && s[i] == '\r' && s[i + 1] == '\n'
  }

  predicate EndsWith(s: string, c: char) {
    s != "" && s[|s| - 1] == c
  }

  lemma JoinEndsAsLast(lines: seq<string>, c: char)
    requires lines != [] && c != '\n'
    ensures EndsWith(L.Join(lines), c) <==> EndsWith(lines[|lines| - 1], c)
  {
    if |lines| > 1 {
      var init, last := lines[..|lines| - 1], lines[|lines| - 1];
      assert lines == init + [last];
      L.JoinOneMore(init, last);
    }
  }

  /** One more line brings a CR LF exactly if what was there ends with a CR. */
  lemma CrLfOneMore(text: string, newline: string, line: string)
    requires newline == "\n" && L.IsLine(line)
    ensures HasCrLf(text + newline + line) <==> HasCrLf(text) || EndsWith(text, '\r')
  {
    var all := text + newline + line;
    if i :| 0 <= i < |text| - 1 && text[i] == '\r' && text[i + 1] == '\n' {
      assert all[i] == '\r' && all[i + 1] == '\n';
    }
    if EndsWith(text, '\r') {
      assert all[|text| - 1] == '\r' && all[|text| - 1 + 1] == '\n';
    }
    if i :| 0 <= i < |all| - 1 && all[i] == '\r' && all[i + 1] == '\n' {
      if i + 1 < |text| {
        assert text[i] == '\r' && text[i + 1] == '\n';
      }
    }
  }

  lemma LineHasNoCrLf(line: string)
    requires L.IsLine(line)
    ensures !HasCrLf(line)
  {
    forall i | 0 <= i < |line| ensures line[i] != '\n' {
      assert line[i] in line;
    }
  }

  /** A text has a CR LF exactly if some line of it that a newline follows ends with a CR. */
  lemma {:induction false} CrLfInLines(lines: seq<string>)
    requires lines != [] && L.AreLines(lines)
    ensures HasCrLf(L.Join(lines)) <==> WithoutReturns(lines[..|lines| - 1]) != lines[..|lines| - 1]
    decreases |lines|
  {
    var init, last := lines[..|lines| - 1], lines[|lines| - 1];
    if init == [] {
      LineHasNoCrLf(last);
    } else {
      var before, end := init[..|init| - 1], init[|init| - 1];
      assert lines == init + [last] && init == before + [end];
      assert L.AreLines(init);
      L.JoinOneMore(init, last);
      CrLfInLines(init);
      CrLfOneMore(L.Join(init), "\n", last);
      JoinEndsAsLast(init, '\r');
      assert WithoutReturns(init) == WithoutReturns(before) + [WithoutReturn(end)];
      assert EndsWith(end, '\r') <==> WithoutReturn(end) != end;
    }
  }

  lemma JoinIsInjective(a: seq<string>, b: seq<string>)
    requires a != [] && b != [] && L.AreLines(a) && L.AreLines(b) && L.Join(a) == L.Join(b)
    ensures a == b
  {
    L.JoinSplits(a);
    L.JoinSplits(b);
  }

  lemma WithoutReturnsAreLines(lines: seq<string>)
    requires L.AreLines(lines)
    ensures L.AreLines(WithoutReturns(lines))
  {
    forall i | 0 <= i < |lines| ensures '\n' !in WithoutReturns(lines)[i] {
      assert '\n' !in lines[i];
    }
  }

  /** The joined lines are the file exactly if it has no final newline and no CR LF. */
  lemma LinesAreFileIffPlain(file: string)
    ensures L.Join(ServerLines(file)) == file <==> !EndsWith(file, '\n') && !HasCrLf(file)
  {
    var parts := L.Split(file);
    var init, last := parts[..|parts| - 1], parts[|parts| - 1];
    L.SplitJoins(file);
    CrLfInLines(parts);
    WithoutReturnsAreLines(init);
    assert parts == init + [last] && L.AreLines(parts);
    if init == [] {
      assert file == last && '\n' !in last;
      if file != "" {
        assert file[|file| - 1] in file;
      }
    } else {
      L.JoinOneMore(init, last);
      assert EndsWith(file, '\n') <==> last == "" by {
        if last != "" {
          assert last[|last| - 1] in last;
        }
      }
      if L.Join(ServerLines(file)) == file {
        JoinIsInjective(ServerLines(file), parts);
      }
    }
  }

  /**
    * A complete capture is the file's lines, joined. It is the file itself if and only if the file has no final
    * newline and no CR LF: the server drops the one, and the carriage return of the other.
    */
  lemma CompleteIsFileIffPlain(file: string, text: string)
    requires From(FileServer(file), 0, "") == Complete(text)
    ensures text == L.Join(ServerLines(file)) && Bytes(text) <= LIMIT
    ensures text == file <==> !EndsWith(file, '\n') && !HasCrLf(file)
  {
    ServerPagesByLines(file);
    CaptureIsFaithful(FileServer(file), ServerLines(file));
    LinesAreFileIffPlain(file);
  }

  /** A file of one line and its newline: the complete capture lacks the newline. */
  lemma FinalNewlineIsLost()
    ensures From(FileServer("x = 1\n"), 0, "") == Complete("x = 1")
  {
    L.JoinSplits(["x = 1", ""]);
    assert L.Join(["x = 1", ""]) == "x = 1\n";
    assert ServerLines("x = 1\n") == ["x = 1"];
    PlainBytes("x = 1");
    assert ["x = 1"][0..1] == ["x = 1"];
    SmallFileIsCapturedIffPagesFit("x = 1\n");
  }

  lemma {:induction false} PlainBytes(s: string)
    requires forall i :: 0 <= i < |s| ==> s[i] < '\U{80}'
    ensures Bytes(s) == Units(s) == |s|
  {
    if s != "" {
      PlainBytes(s[..|s| - 1]);
    }
  }

  // ---------------------------------------------------------------- the newline at the limit

  /** Pages of one long line and 199 empty ones, eight of them one code unit short of the limit. */
  const LONG := 65336
  const NINE_PAGES: seq<string> := seq(1601, i => if i % 200 == 0 then seq(LONG, _ => 'x') else "")

  /** The number of pages that `k` lines begin. */
  function PagesBegun(k: nat): nat {
    (k + 199) / 200
  }

  lemma OneMoreLine(k: nat) returns (line: string)
    requires 1 < k <= 1601
    ensures L.Join(NINE_PAGES[..k]) == L.Join(NINE_PAGES[..k - 1]) + "\n" + line
    ensures |line| == LONG * (PagesBegun(k) - PagesBegun(k - 1)) && forall i :: 0 <= i < |line| ==> line[i] == 'x'
  {
    line := NINE_PAGES[k - 1];
    assert NINE_PAGES[..k] == NINE_PAGES[..k - 1] + [NINE_PAGES[k - 1]];
    L.JoinOneMore(NINE_PAGES[..k - 1], NINE_PAGES[k - 1]);
  }

  lemma {:induction false} NinePagesArePlain(k: nat)
    requires 0 < k <= 1601
    ensures var text := L.Join(NINE_PAGES[..k]);
      && (forall i :: 0 <= i < |text| ==> text[i] == 'x' || text[i] == '\n')
      && |text| == k - 1 + LONG * PagesBegun(k)
  {
    if k == 1 {
      assert NINE_PAGES[..1] == [NINE_PAGES[0]];
    } else {
      NinePagesArePlain(k - 1);
      var line := OneMoreLine(k);
    }
  }

  lemma NinePagesSizes(k: nat)
    requires k <= 1600 && k % 200 == 0
    ensures var text := L.Join(NINE_PAGES[..k]);
      Bytes(text) == Units(text) && (k > 0 ==> Units(text) == k - 1 + LONG * (k / 200))
  {
    if k > 0 {
      NinePagesArePlain(k);
      PlainBytes(L.Join(NINE_PAGES[..k]));
    }
  }

  /** Every full page is within what the server sends. */
  lemma FullPageFits(offset: nat)
    requires offset < 1600 && offset % 200 == 0
    ensures Bytes(L.Join(NINE_PAGES[offset..offset + 200])) == PAGE_BYTES - 1
  {
    PageExtends(NINE_PAGES, offset, offset + 200);
    NinePagesSizes(offset);
    NinePagesSizes(offset + 200);
    BytesConcat(TextAt(NINE_PAGES, offset), L.Join(NINE_PAGES[offset..offset + 200]));
    if offset > 0 {
      UnitsOneMore(L.Join(NINE_PAGES[..offset]), '\n');
    }
  }

  lemma {:induction false} NinePagesStop(server: Server, offset: nat)
    requires offset < 1600 && offset % 200 == 0
    requires forall k: nat :: server(k) == ServerReply(NINE_PAGES, k)
    ensures From(server, offset, TextAt(NINE_PAGES, offset)) == Stopped(L.Join(NINE_PAGES[..1600]) + "\n", 1600)
    decreases 1600 - offset
  {
    FullPageFits(offset);
    PageExtends(NINE_PAGES, offset, offset + 200);
    NinePagesSizes(offset + 200);
    assert server(offset) == Excerpt(true, L.Join(NINE_PAGES[offset..offset + 200]), Some(offset + 200));
    if offset < 1400 {
      NinePagesStop(server, offset + 200);
    }
  }

  lemma NinePagesAreServed()
    ensures ServerLines(L.Join(NINE_PAGES)) == NINE_PAGES
  {
    forall i | 0 <= i < |NINE_PAGES| ensures '\n' !in NINE_PAGES[i] {
    }
    L.JoinSplits(NINE_PAGES);
    assert WithoutReturns(NINE_PAGES[..1600]) == NINE_PAGES[..1600];
    assert NINE_PAGES == NINE_PAGES[..1600] + [NINE_PAGES[1600]];
  }

  /**
    * A file served in pages of 200 lines and just under 64 KiB, eight of which end one code unit below the limit:
    * the capture carries a newline that is not followed by its line.
    */
  lemma NewlineAtTheLimit()
    ensures From(FileServer(L.Join(NINE_PAGES)), 0, "") == Stopped(L.Join(NINE_PAGES[..1600]) + "\n", 1600)
    ensures Units(L.Join(NINE_PAGES[..1600])) == LIMIT - 1
  {
    NinePagesAreServed();
    NinePagesSizes(1600);
    NinePagesStop(FileServer(L.Join(NINE_PAGES)), 0);
  }
}
