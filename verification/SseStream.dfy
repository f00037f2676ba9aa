/**
 The event stream between backend and browser: frames printed by backend/app.py and cut up again by
 frontend/src/composables/useRefactorStream.ts, in whatever pieces the network delivers the text.
 A JSON document is any text that starts with a brace and holds no line break of its own.
 */
module SseStream {

  datatype Frame = Frame(text: seq<char>)

  /** What the backend sends: an event, already printed as JSON, or a sign of life. */
  datatype Item = Event(json: seq<char>) | Heartbeat

  predicate HasNoLineBreak(s: seq<char>) {
    forall i | 0 <= i < |s| :: s[i] != '\n'
  }

  predicate JsonObject(json: seq<char>) {
    |json| > 0 && json[0] == '{' && HasNoLineBreak(json)
  }

  predicate Printable(items: seq<Item>) {
    forall i | 0 <= i < |items| :: items[i].Event? ==> JsonObject(items[i].json)
  }

  const DATA := "data: "
  const DATA_FIELD := "data:"
  const HEARTBEAT := ": heartbeat"
  const BLANK_LINE := "\n\n"

  // ---------------------------------------------------------------- printing

  function Line(item: Item): seq<char> {
    match item case Event(json) => DATA + json case Heartbeat => HEARTBEAT
  }

  function Print(item: Item): seq<char> { Line(item) + BLANK_LINE }

  function PrintAll(items: seq<Item>): seq<char> {
    if items == [] then [] else PrintAll(items[..|items| - 1]) + Print(items[|items| - 1])
  }

  /** The events, without the heartbeats. */
  function EventsOf(items: seq<Item>): seq<Frame> {
    if items == [] then []
    else
      var last := items[|items| - 1];
      EventsOf(items[..|items| - 1]) + if last.Event? then [Frame(last.json)] else []
  }

  // ---------------------------------------------------------------- splitting

  predicate BlankLineAt(s: seq<char>, i: nat) {
    i + 1 < |s| && s[i] == '\n' && s[i + 1] == '\n'
  }

  /** The first blank line at or after `i`, or the length of the text. */
  function NextBlankLine(s: seq<char>, i: nat): (k: nat)
    requires i <= |s|
    ensures i <= k <= |s| && (k < |s| ==> BlankLineAt(s, k))
    ensures forall j | i <= j < k :: !BlankLineAt(s, j)
    decreases |s| - i
  {
    if i == |s| || BlankLineAt(s, i) then i else NextBlankLine(s, i + 1)
  }

  /** The frames that `split` finds, without the last part. */
  function Complete(s: seq<char>): seq<Frame>
    decreases |s|
  {
    var k := NextBlankLine(s, 0);
    if k == |s| then [] else [Frame(s[..k])] + Complete(s[k + 2..])
  }

  /** The last part that `split` finds: the text after the last blank line it cuts at. */
  function Rest(s: seq<char>): seq<char>
    decreases |s|
  {
    var k := NextBlankLine(s, 0);
    if k == |s| then s else Rest(s[k + 2..])
  }

  // ---------------------------------------------------------------- filtering

  predicate IsSpace(c: char) {
    || '\t' <= c <= '\r' || c == ' ' || c == '\U{00A0}' || c == '\U{1680}' || '\U{2000}' <= c <= '\U{200A}'
    || c == '\U{2028}' || c == '\U{2029}' || c == '\U{202F}' || c == '\U{205F}' || c == '\U{3000}' || c == '\U{FEFF}'
  }

  function TrimStart(s: seq<char>): seq<char> {
    if s != [] && IsSpace(s[0]) then TrimStart(s[1..]) else s
  }

  function TrimEnd(s: seq<char>): seq<char> {
    if s != [] && IsSpace(s[|s| - 1]) then TrimEnd(s[..|s| - 1]) else s
  }

  predicate IsData(frame: Frame) { DATA <= TrimEnd(TrimStart(frame.text)) }

  /** Strips the field name only where the frame itself, untrimmed, begins with it. */
  function Payload(frame: Frame): Frame {
    if DATA_FIELD <= frame.text then Frame(TrimStart(frame.text[|DATA_FIELD|..])) else frame
  }

  function Payloads(frames: seq<Frame>): seq<Frame> {
    if frames == [] then []
    else
      var last := frames[|frames| - 1];
      Payloads(frames[..|frames| - 1]) + if IsData(last) then [Payload(last)] else []
  }

  function Joined(pieces: seq<Frame>): seq<char> {
    if pieces == [] then [] else Joined(pieces[..|pieces| - 1]) + pieces[|pieces| - 1].text
  }

  // ---------------------------------------------------------------- the read loop

  /** The cut made by `split` on the blank line. */
  method Split(s: seq<char>) returns (chunks: seq<Frame>)
    ensures chunks == Complete(s) + [Frame(Rest(s))]
  {
    chunks := [];
    var rest := s;
    var k := NextBlankLine(rest, 0);
    while k < |rest|
      invariant k == NextBlankLine(rest, 0)
      invariant chunks + Complete(rest) == Complete(s) && Rest(rest) == Rest(s)
      decreases |rest|
    {
      chunks := chunks + [Frame(rest[..k])];
      rest := rest[k + 2..];
      k := NextBlankLine(rest, 0);
    }
    chunks := chunks + [Frame(rest)];
  }

  /** Hands on the payloads of the data frames. */
  method Deliver(chunks: seq<Frame>, before: seq<Frame>) returns (delivered: seq<Frame>)
    ensures delivered == before + Payloads(chunks)
  {
    delivered := before;
    for j := 0 to |chunks|
      invariant delivered == before + Payloads(chunks[..j])
    {
      assert chunks[..j + 1][..j] == chunks[..j];
      if IsData(chunks[j]) {
        delivered := delivered + [Payload(chunks[j])];
      }
    }
    assert chunks[..|chunks|] == chunks;
  }

  /** What was handed on so far, and the text that waits for the next read. */
  datatype Reader = Reader(delivered: seq<Frame>, buffer: seq<char>)

  function ReadPiece(r: Reader, piece: Frame): Reader {
    var text := r.buffer + piece.text;
    Reader(r.delivered + Payloads(Complete(text)), Rest(text))
  }

  /** The reads one after the other, each with what the one before it left over. */
  function ReadAll(pieces: seq<Frame>): Reader {
    if pieces == [] then Reader([], []) else ReadPiece(ReadAll(pieces[..|pieces| - 1]), pieces[|pieces| - 1])
  }

  /** Hands on the events in order, whichever way the text they were printed into is cut into pieces. */
  method ReadLoop(pieces: seq<Frame>) returns (delivered: seq<Frame>, buffer: seq<char>)
    ensures Reader(delivered, buffer) == ReadAll(pieces)
    ensures forall items | Printable(items) && PrintAll(items) == Joined(pieces) ::
              delivered == EventsOf(items) && buffer == []
  {
    delivered, buffer := [], [];
    for i := 0 to |pieces|
      invariant Reader(delivered, buffer) == ReadAll(pieces[..i])
    {
      assert pieces[..i + 1][..i] == pieces[..i];
      buffer := buffer + pieces[i].text;
      var chunks := Split(buffer);
      buffer := chunks[|chunks| - 1].text;
      chunks := chunks[..|chunks| - 1];
      delivered := Deliver(chunks, delivered);
    }
    assert pieces[..|pieces|] == pieces;
    forall items | Printable(items) && PrintAll(items) == Joined(pieces)
      ensures delivered == EventsOf(items) && buffer == []
    {
      EveryCuttingDeliversTheEvents(items, pieces);
    }
  }

  // ---------------------------------------------------------------- what splitting and trimming mean

  function WithBlankLines(frames: seq<Frame>): seq<char> {
    if frames == [] then [] else frames[0].text + "\n\n" + WithBlankLines(frames[1..])
  }

  /** The text goes on with a blank line after its first `i` characters. */
  predicate BreaksAfter(s: seq<char>, i: nat) {
    i <= |s| && "\n\n" <= s[i..]
  }

  /** It does so after `n` characters, and not earlier. */
  predicate FirstBreaksAfter(s: seq<char>, n: nat) {
    BreaksAfter(s, n) && forall j: nat | j < n :: !BreaksAfter(s, j)
  }

  lemma {:induction false} BreakIsBlankLine(s: seq<char>, i: nat)
    ensures BreaksAfter(s, i) <==> BlankLineAt(s, i)
  {
    if i + 2 <= |s| {
      assert s[i..][..2] == [s[i], s[i + 1]];
    }
  }

  lemma {:induction false} RestHasNoBreak(s: seq<char>, j: nat)
    ensures !BreaksAfter(Rest(s), j)
    decreases |s|
  {
    var k := NextBlankLine(s, 0);
    if k == |s| {
      BreakIsBlankLine(s, j);
    } else {
      RestHasNoBreak(s[k + 2..], j);
    }
  }

  lemma {:induction false} GluedAgain(
    s: seq<char>, k: nat, first: seq<char>, line: seq<char>, more: seq<char>, rest: seq<char>)
    requires k + 2 <= |s| && first == s[..k] && line == s[k..k + 2] && more + rest == s[k + 2..]
    ensures first + line + more + rest == s
  {
    assert first + line == s[..k + 2];
    assert first + line + more + rest == first + line + (more + rest);
  }

  lemma {:induction false} FirstWithBlankLine(first: Frame, more: seq<Frame>)
    ensures WithBlankLines([first] + more) == first.text + "\n\n" + WithBlankLines(more)
  {
    assert ([first] + more)[1..] == more;
  }

  lemma {:induction false} SplitLosesNothing(s: seq<char>)
    ensures WithBlankLines(Complete(s)) + Rest(s) == s
    decreases |s|
  {
    var k := NextBlankLine(s, 0);
    if k < |s| {
      var rest := s[k + 2..];
      var line := s[k..k + 2];
      SplitLosesNothing(rest);
      FirstFrame(s, k, rest);
      FirstWithBlankLine(Frame(s[..k]), Complete(rest));
      assert line == "\n\n";
      GluedAgain(s, k, s[..k], line, WithBlankLines(Complete(rest)), Rest(rest));
    }
  }

  lemma {:induction false} FirstFrameEndsFirst(s: seq<char>)
    requires Complete(s) != []
    ensures FirstBreaksAfter(s, |Complete(s)[0].text|)
  {
    var k := NextBlankLine(s, 0);
    BreakIsBlankLine(s, k);
    forall j: nat | j < k ensures !BreaksAfter(s, j) {
      BreakIsBlankLine(s, j);
    }
  }

  lemma {:induction false} FramesEndFirst(s: seq<char>, i: nat)
    requires i < |Complete(s)|
    ensures FirstBreaksAfter(WithBlankLines(Complete(s)[i..]) + Rest(s), |Complete(s)[i].text|)
    decreases |s|
  {
    if i == 0 {
      SplitLosesNothing(s);
      FirstFrameEndsFirst(s);
      assert Complete(s)[0..] == Complete(s);
    } else {
      var k := NextBlankLine(s, 0);
      var rest := s[k + 2..];
      FirstFrame(s, k, rest);
      FramesEndFirst(rest, i - 1);
      assert Complete(s)[i..] == Complete(rest)[i - 1..];
    }
  }

  /**
   Splitting takes nothing away and cuts at the earliest place each time: the frames, each with its blank line,
   and the rest make up the text; a frame ends at the first blank line; and the rest has none.
   */
  lemma {:induction false} SplitIsExact(s: seq<char>)
    ensures WithBlankLines(Complete(s)) + Rest(s) == s && forall j: nat :: !BreaksAfter(Rest(s), j)
    ensures forall i | 0 <= i < |Complete(s)| ::
              FirstBreaksAfter(WithBlankLines(Complete(s)[i..]) + Rest(s), |Complete(s)[i].text|)
  {
    SplitLosesNothing(s);
    forall j: nat ensures !BreaksAfter(Rest(s), j) {
      RestHasNoBreak(s, j);
    }
    forall i | 0 <= i < |Complete(s)|
      ensures FirstBreaksAfter(WithBlankLines(Complete(s)[i..]) + Rest(s), |Complete(s)[i].text|)
    {
      FramesEndFirst(s, i);
    }
  }

  predicate AllSpace(s: seq<char>) {
    forall i | 0 <= i < |s| :: IsSpace(s[i])
  }

  /** The white space of the browser's `trim`, by code point. */
  lemma {:induction false} SpacesByCode(c: char)
    ensures IsSpace(c) <==>
            || 9 <= c as int <= 13 || c as int in {32, 160, 5760} || 8192 <= c as int <= 8202
            || c as int in {8232, 8233, 8239, 8287, 12288, 65279}
  {
  }

  lemma {:induction false} TrimStartIsExact(s: seq<char>) returns (space: seq<char>)
    ensures s == space + TrimStart(s) && AllSpace(space) && (TrimStart(s) != [] ==> !IsSpace(TrimStart(s)[0]))
  {
    if s != [] && IsSpace(s[0]) {
      var shorter := TrimStartIsExact(s[1..]);
      space := [s[0]] + shorter;
      assert s == [s[0]] + s[1..];
    } else {
      space := [];
    }
  }

  lemma {:induction false} TrimEndIsExact(s: seq<char>) returns (space: seq<char>)
    ensures s == TrimEnd(s) + space && AllSpace(space)
    ensures TrimEnd(s) != [] ==> !IsSpace(TrimEnd(s)[|TrimEnd(s)| - 1])
  {
    if s != [] && IsSpace(s[|s| - 1]) {
      var shorter := TrimEndIsExact(s[..|s| - 1]);
      space := shorter + [s[|s| - 1]];
      assert s == s[..|s| - 1] + [s[|s| - 1]];
    } else {
      space := [];
    }
  }

  lemma {:induction false} SpaceIsCutOff(space: seq<char>, s: seq<char>)
    requires AllSpace(space) && (s != [] ==> !IsSpace(s[0]))
    ensures TrimStart(space + s) == s
  {
    if space == [] {
      assert space + s == s;
    } else {
      assert (space + s)[1..] == space[1..] + s;
      SpaceIsCutOff(space[1..], s);
    }
  }

  lemma {:induction false} InkIsKept(s: seq<char>, i: nat)
    requires i < |s| && !IsSpace(s[i])
    ensures i < |TrimEnd(s)| && s[..i + 1] == TrimEnd(s)[..i + 1]
  {
    if IsSpace(s[|s| - 1]) {
      InkIsKept(s[..|s| - 1], i);
      assert s[..|s| - 1][..i + 1] == s[..i + 1];
    }
  }

  lemma {:induction false} InkAtTheEnd(trimmed: seq<char>)
    requires DATA <= TrimEnd(trimmed)
    ensures |trimmed| >= 6 && trimmed == "data: " + trimmed[6..] && !AllSpace(trimmed[6..])
  {
    var end := TrimEnd(trimmed);
    var after := TrimEndIsExact(trimmed);
    var last := |end| - 1;
    assert end[5] == ' ';
    assert last > 5;
    assert trimmed[6..][last - 6] == end[last];
    assert trimmed[..6] == DATA;
  }

  lemma {:induction false} DataFrameShape(text: seq<char>) returns (a: seq<char>, b: seq<char>)
    requires DATA <= TrimEnd(TrimStart(text))
    ensures a + "data: " + b == text && AllSpace(a) && !AllSpace(b)
  {
    var trimmed := TrimStart(text);
    a := TrimStartIsExact(text);
    InkAtTheEnd(trimmed);
    b := trimmed[6..];
    assert a + "data: " + b == a + ("data: " + b);
  }

  lemma {:induction false} ShapeIsData(a: seq<char>, b: seq<char>)
    requires AllSpace(a) && !AllSpace(b)
    ensures DATA <= TrimEnd(TrimStart(a + "data: " + b))
  {
    var trimmed := "data: " + b;
    assert a + "data: " + b == a + trimmed;
    SpaceIsCutOff(a, trimmed);
    var i :| 0 <= i < |b| && !IsSpace(b[i]);
    assert trimmed[6 + i] == b[i];
    InkIsKept(trimmed, 6 + i);
    assert trimmed[..6 + i + 1][..6] == "data: ";
    assert TrimEnd(trimmed)[..6 + i + 1][..6] == TrimEnd(trimmed)[..6];
  }

  /**
   A frame is handed on exactly if it starts, after white space, with the field name, a colon and a space, and
   anything but white space follows.
   */
  lemma {:induction false} DataFrameIff(frame: Frame)
    ensures IsData(frame) <==>
            exists a, b | a + "data: " + b == frame.text :: AllSpace(a) && !AllSpace(b)
  {
    if IsData(frame) {
      var a, b := DataFrameShape(frame.text);
    }
    if a, b :| a + "data: " + b == frame.text && AllSpace(a) && !AllSpace(b) {
      ShapeIsData(a, b);
    }
  }

  /** What is handed on of a frame that starts with the field name is what follows it and any white space after it. */
  lemma {:induction false} PayloadIsExact(frame: Frame)
    ensures "data:" <= frame.text ==>
              exists space | AllSpace(space) :: frame.text == "data:" + space + Payload(frame).text
    ensures "data:" <= frame.text && Payload(frame).text != [] ==> !IsSpace(Payload(frame).text[0])
    ensures !("data:" <= frame.text) ==> Payload(frame) == frame
  {
    if "data:" <= frame.text {
      var field := frame.text[5..];
      var space := TrimStartIsExact(field);
      assert frame.text == "data:" + field;
      assert frame.text == "data:" + space + Payload(frame).text;
    }
  }

  // ---------------------------------------------------------------- splitting piece by piece

  lemma {:induction false} BlankLineStays(a: seq<char>, b: seq<char>)
    ensures var k := NextBlankLine(a, 0);
            k < |a| ==> NextBlankLine(a + b, 0) == k
  {
    var k, k' := NextBlankLine(a, 0), NextBlankLine(a + b, 0);
    if k < |a| {
      assert BlankLineAt(a + b, k);
      forall j | 0 <= j < k ensures !BlankLineAt(a + b, j) {
        assert !BlankLineAt(a, j);
      }
    }
  }

  lemma {:induction false} FirstFrame(s: seq<char>, k: nat, rest: seq<char>)
    requires k == NextBlankLine(s, 0) < |s| && rest == s[k + 2..]
    ensures Complete(s) == [Frame(s[..k])] + Complete(rest) && Rest(s) == Rest(rest)
  {
  }

  lemma {:induction false} NoFrame(s: seq<char>)
    requires NextBlankLine(s, 0) == |s|
    ensures Complete(s) == [] && Rest(s) == s
  {
  }

  lemma {:induction false} Regroup(first: Frame, more: seq<Frame>, last: seq<Frame>)
    ensures [first] + (more + last) == ([first] + more) + last
  {
  }

  lemma {:induction false} CutAfterBoth(a: seq<char>, b: seq<char>, k: nat)
    requires k == NextBlankLine(a, 0) < |a|
    ensures k == NextBlankLine(a + b, 0) && (a + b)[..k] == a[..k] && (a + b)[k + 2..] == a[k + 2..] + b
  {
    BlankLineStays(a, b);
  }

  /** Later text never changes the frames already complete; it only continues the rest. */
  lemma {:induction false} MoreText(a: seq<char>, b: seq<char>)
    ensures Complete(a + b) == Complete(a) + Complete(Rest(a) + b)
    ensures Rest(a + b) == Rest(Rest(a) + b)
    decreases |a|
  {
    var k := NextBlankLine(a, 0);
    if k == |a| {
      NoFrame(a);
    } else {
      var rest := a[k + 2..];
      CutAfterBoth(a, b, k);
      FirstFrame(a, k, rest);
      FirstFrame(a + b, k, rest + b);
      MoreText(rest, b);
      Regroup(Frame(a[..k]), Complete(rest), Complete(Rest(rest) + b));
    }
  }

  lemma {:induction false} PayloadsOfBoth(a: seq<Frame>, b: seq<Frame>)
    ensures Payloads(a + b) == Payloads(a) + Payloads(b)
  {
    if b == [] {
      assert a + b == a;
    } else {
      assert (a + b)[..|a + b| - 1] == a + b[..|b| - 1];
      PayloadsOfBoth(a, b[..|b| - 1]);
    }
  }

  // ---------------------------------------------------------------- one frame

  lemma {:induction false} LineHasNoBreak(item: Item)
    requires item.Event? ==> JsonObject(item.json)
    ensures HasNoLineBreak(Line(item))
  {
  }

  /** A partial line is no frame yet, even with its first line break. */
  lemma {:induction false} PartialFrame(line: seq<char>, s: seq<char>)
    requires HasNoLineBreak(line) && s <= line + "\n"
    ensures Complete(s) == [] && Rest(s) == s
  {
    forall j | 0 <= j < |s| ensures !BlankLineAt(s, j) {
      assert s[j] == (line + "\n")[j];
    }
  }

  lemma {:induction false} WholeFrame(line: seq<char>)
    requires HasNoLineBreak(line)
    ensures Complete(line + BLANK_LINE) == [Frame(line)] && Rest(line + BLANK_LINE) == []
  {
    var s := line + BLANK_LINE;
    assert BlankLineAt(s, |line|);
    forall j | 0 <= j < |line| ensures !BlankLineAt(s, j) {
      assert s[j] == line[j];
    }
    assert s[..|line|] == line && s[|line| + 2..] == [];
  }

  lemma {:induction false} TrimEndKeeps(s: seq<char>, n: nat)
    requires 0 < n <= |s| && !IsSpace(s[n - 1])
    ensures s[..n] <= TrimEnd(s)
  {
    if |s| > n && IsSpace(s[|s| - 1]) {
      TrimEndKeeps(s[..|s| - 1], n);
    }
  }

  lemma {:induction false} TrimEndOnlyCuts(s: seq<char>)
    ensures TrimEnd(s) <= s
  {
    if s != [] && IsSpace(s[|s| - 1]) {
      TrimEndOnlyCuts(s[..|s| - 1]);
    }
  }

  lemma {:induction false} PayloadOfOne(frame: Frame)
    ensures Payloads([frame]) == if IsData(frame) then [Payload(frame)] else []
  {
    assert [frame][..0] == [];
  }

  lemma {:induction false} EventIsData(json: seq<char>)
    requires JsonObject(json)
    ensures IsData(Frame(DATA + json))
  {
    var s := DATA + json;
    assert s[0] == 'd' && s[6] == '{';
    assert TrimStart(s) == s;
    TrimEndKeeps(s, 7);
    assert DATA <= s[..7] <= TrimEnd(s);
  }

  lemma {:induction false} EventPayload(json: seq<char>)
    requires JsonObject(json)
    ensures Payload(Frame(DATA + json)) == Frame(json)
  {
    var field := (DATA + json)[|DATA_FIELD|..];
    assert field == [' '] + json && field[1..] == json;
    assert TrimStart(json) == json;
    assert TrimStart(field) == json;
  }

  lemma {:induction false} HeartbeatIsNoData()
    ensures !IsData(Frame(HEARTBEAT))
  {
    assert TrimStart(HEARTBEAT) == HEARTBEAT;
    TrimEndOnlyCuts(HEARTBEAT);
    assert HEARTBEAT[0] != DATA[0];
  }

  /** The browser recovers the document of an event, and drops a heartbeat. */
  lemma {:induction false} FrameMeaning(item: Item)
    requires item.Event? ==> JsonObject(item.json)
    ensures Payloads([Frame(Line(item))]) == if item.Event? then [Frame(item.json)] else []
  {
    PayloadOfOne(Frame(Line(item)));
    match item {
      case Event(json) =>
        EventIsData(json);
        EventPayload(json);
      case Heartbeat =>
        HeartbeatIsNoData();
    }
  }

  // ---------------------------------------------------------------- the whole stream

  lemma {:induction false} WholeStream(items: seq<Item>)
    requires Printable(items)
    ensures Payloads(Complete(PrintAll(items))) == EventsOf(items) && Rest(PrintAll(items)) == []
  {
    if items != [] {
      var before, last := items[..|items| - 1], items[|items| - 1];
      WholeStream(before);
      MoreText(PrintAll(before), Print(last));
      assert [] + Print(last) == Print(last);
      LineHasNoBreak(last);
      WholeFrame(Line(last));
      PayloadsOfBoth(Complete(PrintAll(before)), [Frame(Line(last))]);
      FrameMeaning(last);
    }
  }

  /** `m` is how many items were sent completely in the text `s`. */
  predicate SentCompletely(items: seq<Item>, s: seq<char>, m: nat) {
    && m <= |items|
    && |PrintAll(items[..m])| <= |s|
    && (m < |items| ==> |s| < |PrintAll(items[..m + 1])|)
  }

  lemma {:induction false} PrintPrefix(items: seq<Item>, m: nat)
    requires m <= |items|
    ensures PrintAll(items[..m]) <= PrintAll(items)
  {
    if m == |items| {
      assert items[..m] == items;
    } else {
      assert items[..|items| - 1][..m] == items[..m];
      PrintPrefix(items[..|items| - 1], m);
    }
  }

  lemma {:induction false} SomeNumberWasSent(items: seq<Item>, s: seq<char>) returns (m: nat)
    ensures SentCompletely(items, s, m)
  {
    if |PrintAll(items)| <= |s| {
      m := |items|;
      assert items[..m] == items;
    } else {
      var before := items[..|items| - 1];
      m := SomeNumberWasSent(before, s);
      assert before[..m] == items[..m];
      if m < |before| {
        assert before[..m + 1] == items[..m + 1];
      } else {
        assert items[..m + 1] == items;
      }
    }
  }

  lemma {:induction false} BetweenPrefixes(s: seq<char>, whole: seq<char>, sent: seq<char>, part: seq<char>)
    requires s <= whole && sent <= whole && sent + part <= whole
    requires |sent| <= |s| <= |sent| + |part|
    ensures sent <= s && s[|sent|..] == part[..|s| - |sent|]
  {
    assert s == whole[..|s|] && sent + part == whole[..|sent| + |part|];
  }

  lemma {:induction false} ShortOfBlankLine(line: seq<char>, n: nat)
    requires n <= |line| + 1
    ensures (line + BLANK_LINE)[..n] <= line + "\n"
  {
  }

  /** What follows the items sent completely is the beginning of the next frame, short of its end. */
  lemma {:induction false} CutTail(items: seq<Item>, s: seq<char>, m: nat)
    requires Printable(items) && s <= PrintAll(items) && SentCompletely(items, s, m)
    ensures PrintAll(items[..m]) <= s
    ensures m < |items| ==> s[|PrintAll(items[..m])|..] <= Line(items[m]) + "\n"
    ensures m == |items| ==> s[|PrintAll(items[..m])|..] == []
  {
    var sent := PrintAll(items[..m]);
    PrintPrefix(items, m);
    if m < |items| {
      PrintPrefix(items, m + 1);
      assert PrintAll(items[..m + 1]) == sent + Print(items[m]) by {
        assert items[..m + 1][..m] == items[..m];
      }
      BetweenPrefixes(s, PrintAll(items), sent, Print(items[m]));
      ShortOfBlankLine(Line(items[m]), |s| - |sent|);
    } else {
      assert items[..m] == items;
    }
  }

  lemma {:induction false} CutFrame(items: seq<Item>, s: seq<char>, m: nat)
    requires Printable(items) && s <= PrintAll(items) && SentCompletely(items, s, m)
    ensures PrintAll(items[..m]) <= s
    ensures Complete(s) == Complete(PrintAll(items[..m]))
    ensures Rest(s) == s[|PrintAll(items[..m])|..]
  {
    CutTail(items, s, m);
    var sent := PrintAll(items[..m]);
    var tail := s[|sent|..];
    WholeStream(items[..m]);
    assert s == sent + tail;
    MoreText(sent, tail);
    assert [] + tail == tail;
    if m < |items| {
      LineHasNoBreak(items[m]);
      PartialFrame(Line(items[m]), tail);
    } else {
      NoFrame(tail);
    }
  }

  /** The reads depend on the text alone, not on how it was cut into pieces. */
  lemma {:induction false} CuttingDoesNotMatter(pieces: seq<Frame>)
    ensures ReadAll(pieces) == Reader(Payloads(Complete(Joined(pieces))), Rest(Joined(pieces)))
  {
    if pieces != [] {
      var before, last := pieces[..|pieces| - 1], pieces[|pieces| - 1];
      CuttingDoesNotMatter(before);
      MoreText(Joined(before), last.text);
      PayloadsOfBoth(Complete(Joined(before)), Complete(Rest(Joined(before)) + last.text));
    }
  }

  /**
   The reads deliver exactly the events, in order, whichever way the text is cut into pieces and wherever
   heartbeats stand between the events.
   */
  lemma {:induction false} EveryCuttingDeliversTheEvents(items: seq<Item>, pieces: seq<Frame>)
    requires Printable(items) && Joined(pieces) == PrintAll(items)
    ensures ReadAll(pieces) == Reader(EventsOf(items), [])
  {
    CuttingDoesNotMatter(pieces);
    WholeStream(items);
  }

  lemma {:induction false} BrokenText(items: seq<Item>, s: seq<char>, m: nat)
    requires Printable(items) && s <= PrintAll(items) && SentCompletely(items, s, m)
    ensures Payloads(Complete(s)) == EventsOf(items[..m])
    ensures PrintAll(items[..m]) + Rest(s) == s
  {
    CutFrame(items, s, m);
    WholeStream(items[..m]);
  }

  /** A stream that breaks off delivers the events whose frames were sent completely, and nothing else. */
  lemma {:induction false} BrokenStreamDeliversWholeFrames(items: seq<Item>, pieces: seq<Frame>, m: nat)
    requires Printable(items) && Joined(pieces) <= PrintAll(items) && SentCompletely(items, Joined(pieces), m)
    ensures ReadAll(pieces).delivered == EventsOf(items[..m])
    ensures PrintAll(items[..m]) + ReadAll(pieces).buffer == Joined(pieces)
  {
    CuttingDoesNotMatter(pieces);
    BrokenText(items, Joined(pieces), m);
  }
}
