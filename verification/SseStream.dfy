/** The event stream of the chat endpoint: the printer of backend/app/api/v1/chat.py and the incremental reader of
    frontend/lib/api-client.ts. Characters are those of the decoded text. */
module SseStream {
  import opened Util
  import opened Text

  // -------------------------------------------------------------- splitting

  predicate StartsWithGap(s: string) { |s| >= 2 && s[0] == '\n' && s[1] == '\n' }

  /** JavaScript's s.split("\n\n"): cut at every blank line, leftmost first. */
  function Split(s: string): (r: seq<string>)
    ensures r != []
  {
    if s == "" then [""]
    else if StartsWithGap(s) then [""] + Split(s[2..])
    else var r := Split(s[1..]); [[s[0]] + r[0]] + r[1..]
  }

  function Init<T>(s: seq<T>): seq<T>
    requires s != []
  {
    s[..|s| - 1]
  }

  function Last<T>(s: seq<T>): T
    requires s != []
  {
    s[|s| - 1]
  }

  predicate HasGap(s: string) {
    exists i :: 0 <= i < |s| - 1 && s[i] == '\n' && s[i + 1] == '\n'
  }

  function Join(frames: seq<string>): string {
    if frames == [] then "" else if |frames| == 1 then frames[0] else frames[0] + "\n\n" + Join(frames[1..])
  }

  /** What splitting s on blank lines means without saying how: the frames give s back, none contains a blank line,
      and none but the last ends in a newline (else the gap behind it would have begun one character earlier). */
  ghost predicate IsSplit(frames: seq<string>, s: string) {
    && frames != [] && Join(frames) == s
    && (forall i :: 0 <= i < |frames| ==> !HasGap(frames[i]))
    && (forall i :: 0 <= i < |frames| - 1 ==> frames[i] == "" || Last(frames[i]) != '\n')
  }

  lemma {:induction false} SplitIsSplit(s: string)
    ensures IsSplit(Split(s), s)
  {
    if s != "" {
      if StartsWithGap(s) {
        SplitIsSplit(s[2..]);
        assert Split(s)[1..] == Split(s[2..]);
        assert s == "" + "\n\n" + s[2..];
      } else {
        SplitIsSplit(s[1..]);
        PrependToFirst(Split(s[1..]), s[1..], s[0]);
        assert s == [s[0]] + s[1..];
      }
    }
  }

  lemma PrependToFirst(r: seq<string>, t: string, c: char)
    requires IsSplit(r, t) && !(c == '\n' && t != "" && t[0] == '\n')
    ensures IsSplit([[c] + r[0]] + r[1..], [c] + t)
  {
    var frames := [[c] + r[0]] + r[1..];
    assert frames[1..] == r[1..];
    if |r| == 1 {
      assert Join(frames) == [c] + t;
    } else {
      assert Join(frames) == ([c] + r[0]) + "\n\n" + Join(r[1..]);
      assert [c] + (r[0] + "\n\n" + Join(r[1..])) == ([c] + r[0]) + "\n\n" + Join(r[1..]);
    }
    FirstChar(r, t);
    PrependGap(r[0], c);
  }

  lemma PrependGap(first: string, c: char)
    requires !HasGap(first) && !(c == '\n' && first != "" && first[0] == '\n')
    ensures !HasGap([c] + first)
  {
    var s := [c] + first;
    forall i | 0 <= i < |s| - 1 ensures !(s[i] == '\n' && s[i + 1] == '\n') {
      if i > 0 {
        assert s[i] == first[i - 1] && s[i + 1] == first[i];
      }
    }
  }

  lemma FirstChar(r: seq<string>, t: string)
    requires IsSplit(r, t)
    ensures r[0] != "" ==> t != "" && t[0] == r[0][0]
    ensures r[0] == "" && |r| > 1 ==> t != "" && t[0] == '\n'
  {
  }

  /** There is only one way to split. */
  lemma {:induction false} SplitIsUnique(frames: seq<string>, s: string)
    requires IsSplit(frames, s)
    ensures frames == Split(s)
    decreases |s|
  {
    FirstChar(frames, s);
    if |frames| == 1 {
      NoGapNoSplit(s);
    } else if frames[0] == "" {
      assert s == "\n\n" + Join(frames[1..]);
      assert s[2..] == Join(frames[1..]);
      SplitIsUnique(frames[1..], s[2..]);
    } else {
      var rest := [frames[0][1..]] + frames[1..];
      assert rest[1..] == frames[1..];
      assert frames[0] == [s[0]] + frames[0][1..];
      assert frames[0] + "\n\n" + Join(frames[1..]) == [s[0]] + (frames[0][1..] + "\n\n" + Join(frames[1..]));
      assert s[1..] == Join(rest);
      TailHasNoGap(frames[0]);
      SplitIsUnique(rest, s[1..]);
      NoGapAtStart(frames, s);
    }
  }

  lemma TailHasNoGap(s: string)
    requires s != "" && !HasGap(s)
    ensures !HasGap(s[1..])
  {
  }

  lemma NoGapAtStart(frames: seq<string>, s: string)
    requires IsSplit(frames, s) && |frames| > 1 && frames[0] != ""
    ensures !StartsWithGap(s)
  {
    var first := frames[0];
    assert s == first + "\n\n" + Join(frames[1..]);
    if |first| == 1 {
      assert s[0] == Last(first);
    } else {
      assert s[0] == first[0] && s[1] == first[1];
    }
  }

  lemma {:induction false} NoGapNoSplit(s: string)
    requires !HasGap(s)
    ensures Split(s) == [s]
  {
    if s != "" {
      assert !StartsWithGap(s);
      TailHasNoGap(s);
      NoGapNoSplit(s[1..]);
      assert [s[0]] + s[1..] == s;
    }
  }

  lemma SingleFrame(s: string)
    requires |Split(s)| == 1
    ensures Split(s) == [s]
  {
    SplitIsSplit(s);
  }

  /** The split of a, continued with the text b. */
  function Continued(a: string, b: string): seq<string> {
    Init(Split(a)) + Split(Last(Split(a)) + b)
  }

  /** Text that arrives later is only ever appended to the last frame. */
  lemma {:induction false} SplitContinues(a: string, b: string)
    ensures Split(a + b) == Continued(a, b)
  {
    if |Split(a)| == 1 {
      SingleFrame(a);
      assert Init([a]) == [];
    } else if StartsWithGap(a) {
      SplitContinues(a[2..], b);
      GapContinues(a, b);
    } else {
      SplitContinues(a[1..], b);
      PlainContinues(a, b);
    }
  }

  lemma GapContinues(a: string, b: string)
    requires StartsWithGap(a) && Split(a[2..] + b) == Continued(a[2..], b)
    ensures Split(a + b) == Continued(a, b)
  {
    var r := Split(a[2..]);
    assert (a + b)[2..] == a[2..] + b;
    assert Split(a) == [""] + r;
    assert Init([""] + r) == [""] + Init(r) && Last([""] + r) == Last(r);
  }

  lemma PlainContinues(a: string, b: string)
    requires |Split(a)| > 1 && !StartsWithGap(a) && Split(a[1..] + b) == Continued(a[1..], b)
    ensures Split(a + b) == Continued(a, b)
  {
    var r := Split(a[1..]);
    assert |r| > 1 && a[1..] != "";
    assert (a + b)[1..] == a[1..] + b && !StartsWithGap(a + b);
    assert Split(a) == [[a[0]] + r[0]] + r[1..];
    PrependContinues(r, Split(Last(r) + b), a[0]);
  }

  lemma PrependContinues(r: seq<string>, rest: seq<string>, c: char)
    requires |r| > 1 && rest != []
    ensures var all := Init(r) + rest;
            [[c] + all[0]] + all[1..] == Init([[c] + r[0]] + r[1..]) + rest
  {
    assert Init(r)[0] == r[0];
    assert (Init(r) + rest)[1..] == Init(r)[1..] + rest;
    assert Init([[c] + r[0]] + r[1..]) == [[c] + r[0]] + Init(r)[1..];
  }

  // ------------------------------------------------------------- the reader

  /** What String.prototype.trim removes. */
  predicate JsSpace(c: char) {
    (IsSpace(c) && !(0x1C <= c as int <= 0x1F) && c as int != 0x85) || c as int == 0xFEFF
  }

  /** The event of a frame, if it is a data line that parses. */
  function FrameEvent<E>(frame: string, parse: string -> Option<E>): Option<E> {
    var line := Trim(frame, JsSpace);
    if "data:" <= line then parse(Trim(line[5..], JsSpace)) else None
  }

  /** White space and line ends of ECMAScript, section 12.2 and 12.3 of ECMA-262. */
  lemma JsSpaceMeans(c: char)
    ensures JsSpace(c) <==>
            var p := c as int;
            0x09 <= p <= 0x0D || 0x2000 <= p <= 0x200A ||
            p in {0x20, 0xA0, 0x1680, 0x2028, 0x2029, 0x202F, 0x205F, 0x3000, 0xFEFF}
  {
    IsSpaceMeans(c);
  }

  ghost predicate AllJsSpace(s: string) { forall i :: 0 <= i < |s| ==> JsSpace(s[i]) }

  /** A text that is empty or neither begins nor ends with whitespace. */
  predicate IsTrimmed(s: string) { s == "" || (!JsSpace(s[0]) && !JsSpace(s[|s| - 1])) }

  lemma TrimPadded(before: string, text: string, after: string)
    requires AllJsSpace(before) && AllJsSpace(after) && IsTrimmed(text)
    ensures Trim(before + text + after, JsSpace) == text
  {
    var s := before + text + after;
    if text == "" {
      var from, to := TrimMeans(s, JsSpace);
      assert AllJsSpace(s);
    } else {
      var from, to := |before|, |before| + |text|;
      assert s[from..to] == text && s[from] == text[0] && s[to - 1] == text[|text| - 1];
      assert forall i :: to <= i < |s| ==> s[i] == after[i - to];
      TrimIs(s, JsSpace, from, to);
    }
  }

  lemma DataIsTrimmed(between: string, text: string)
    requires AllJsSpace(between) && IsTrimmed(text) && text != ""
    ensures IsTrimmed("data:" + between + text)
  {
    JsSpaceMeans('d');
    var line := "data:" + between + text;
    assert line[0] == 'd' && line[|line| - 1] == text[|text| - 1];
  }

  /** Whatever whitespace stands around a data line and behind its colon, the frame's event is that of its text. */
  lemma DataFrame<E>(before: string, between: string, text: string, after: string, parse: string -> Option<E>)
    requires AllJsSpace(before) && AllJsSpace(between) && AllJsSpace(after) && IsTrimmed(text)
    ensures FrameEvent(before + ("data:" + between + text) + after, parse) == parse(text)
  {
    var frame := before + ("data:" + between + text) + after;
    if text == "" {
      JsSpaceMeans('d');
      JsSpaceMeans(':');
      assert frame == before + "data:" + (between + after);
      assert AllJsSpace(between + after);
      TrimPadded(before, "data:", between + after);
      assert "data:"[5..] == "";
    } else {
      DataIsTrimmed(between, text);
      TrimPadded(before, "data:" + between + text, after);
      assert ("data:" + between + text)[5..] == between + text + "";
      TrimPadded(between, text, "");
    }
  }

  /** Any other frame has no event: one that is blank, or whose text does not begin with "data:". */
  lemma OtherFrame<E>(frame: string, i: nat, parse: string -> Option<E>)
    requires i <= |frame| && AllJsSpace(frame[..i]) && (i < |frame| ==> !JsSpace(frame[i])) && !("data:" <= frame[i..])
    ensures FrameEvent(frame, parse) == None
  {
    var from, to := TrimMeans(frame, JsSpace);
    if i == |frame| {
      assert forall k :: 0 <= k < |frame| ==> JsSpace(frame[..i][k]);
    } else {
      assert forall k :: 0 <= k < i ==> JsSpace(frame[..i][k]);
      assert from == i;
    }
  }

  function Events<E>(frames: seq<string>, parse: string -> Option<E>): seq<E> {
    if frames == [] then []
    else Events(Init(frames), parse) + Listed(FrameEvent(Last(frames), parse))
  }

  function Listed<E>(found: Option<E>): seq<E> {
    match found
    case Some(e) => [e]
    case None => []
  }

  lemma {:induction false} EventsConcat<E>(a: seq<string>, b: seq<string>, parse: string -> Option<E>)
    ensures Events(a + b, parse) == Events(a, parse) + Events(b, parse)
  {
    if b == [] {
      assert a + b == a;
    } else {
      EventsConcat(a, Init(b), parse);
      assert Init(a + b) == a + Init(b) && Last(a + b) == Last(b);
    }
  }

  function Whole(arrived: seq<string>): string {
    if arrived == [] then "" else Whole(Init(arrived)) + Last(arrived)
  }

  /** The read loop: whatever the reads, the events delivered are those of the whole text split once, the unfinished
      last frame left in the buffer. */
  method StreamChat<E>(arrived: seq<string>, parse: string -> Option<E>) returns (delivered: seq<E>, buffer: string)
    ensures delivered == Events(Init(Split(Whole(arrived))), parse)
    ensures buffer == Last(Split(Whole(arrived)))
  {
    delivered, buffer := [], "";
    var n := 0;
    assert arrived[..0] == [];
    while n < |arrived|
      invariant 0 <= n <= |arrived|
      invariant delivered == Events(Init(Split(Whole(arrived[..n]))), parse)
      invariant buffer == Last(Split(Whole(arrived[..n])))
    {
      assert Init(arrived[..n + 1]) == arrived[..n];
      SplitContinues(Whole(arrived[..n]), arrived[n]);
      ghost var before := Init(Split(Whole(arrived[..n])));
      buffer := buffer + arrived[n];
      var frames := Split(buffer);
      buffer := Last(frames);
      frames := Init(frames);
      assert Init(Split(Whole(arrived[..n + 1]))) == before + frames;
      EventsConcat(before, frames, parse);
      var found := DeliverFrames(frames, parse);
      delivered := delivered + found;
      n := n + 1;
    }
    assert arrived[..n] == arrived;
  }

  method DeliverFrames<E>(frames: seq<string>, parse: string -> Option<E>) returns (delivered: seq<E>)
    ensures delivered == Events(frames, parse)
  {
    delivered := [];
    var i := 0;
    while i < |frames|
      invariant 0 <= i <= |frames|
      invariant delivered == Events(frames[..i], parse)
    {
      assert Init(frames[..i + 1]) == frames[..i];
      var line := Trim(frames[i], JsSpace);
      i := i + 1;
      if !("data:" <= line) {
        continue;
      }
      match parse(Trim(line[5..], JsSpace))
      case Some(event) => delivered := delivered + [event];
      case None =>
    }
    assert frames[..i] == frames;
  }

  /** What has been delivered stays delivered when more text arrives. */
  lemma DeliveryOnlyGrows<E>(a: string, b: string, parse: string -> Option<E>)
    ensures Events(Init(Split(a)), parse) <= Events(Init(Split(a + b)), parse)
  {
    SplitContinues(a, b);
    var rest := Split(Last(Split(a)) + b);
    assert Init(Split(a + b)) == Init(Split(a)) + Init(rest);
    EventsConcat(Init(Split(a)), Init(rest), parse);
  }

  // ------------------------------------------------------------ the printer

  function Frame<E>(event: E, encode: E -> string): string {
    "data: " + encode(event) + "\n\n"
  }

  function Print<E>(events: seq<E>, encode: E -> string): string {
    if events == [] then "" else Print(Init(events), encode) + Frame(Last(events), encode)
  }

  /** What the reader relies on in the encoder: its text has no newline and no outer whitespace, and parses back. */
  ghost predicate Decodes<E>(event: E, encode: E -> string, parse: string -> Option<E>) {
    '\n' !in encode(event) && Trim(encode(event), JsSpace) == encode(event) && parse(encode(event)) == Some(event)
  }

  lemma TrimmedEnd(s: string)
    requires Trim(s, JsSpace) == s && s != ""
    ensures !JsSpace(s[|s| - 1])
  {
    var j := TrimStartFacts(s, JsSpace);
    var k := TrimEndFacts(s[j..], JsSpace);
  }

  lemma DataLine(text: string)
    requires Trim(text, JsSpace) == text
    ensures "data:" <= Trim("data: " + text, JsSpace)
    ensures Trim(Trim("data: " + text, JsSpace)[5..], JsSpace) == text
  {
    var line := "data: " + text;
    assert line[0] == 'd' && !JsSpace('d');
    assert TrimStart(line, JsSpace) == line;
    if text == "" {
      assert line == "data: ";
      assert line[..5] == "data:" && JsSpace(' ') && !JsSpace(':');
      assert TrimEnd(line, JsSpace) == TrimEnd("data:", JsSpace) == "data:";
      assert "data:"[5..] == "";
    } else {
      TrimmedEnd(text);
      assert line[|line| - 1] == text[|text| - 1];
      assert line[..5] == "data:" && line[5..] == " " + text;
      assert JsSpace(' ') && (" " + text)[1..] == text;
      assert TrimStart(" " + text, JsSpace) == TrimStart(text, JsSpace);
    }
  }

  lemma PrintedFrame<E>(event: E, encode: E -> string, parse: string -> Option<E>)
    requires Decodes(event, encode, parse)
    ensures Split(Frame(event, encode)) == ["data: " + encode(event), ""]
    ensures FrameEvent("data: " + encode(event), parse) == Some(event)
  {
    var line := "data: " + encode(event);
    assert forall i :: 0 <= i < |line| ==> line[i] != '\n';
    assert [line, ""][1..] == [""];
    assert line + "\n\n" + "" == Frame(event, encode);
    SplitIsUnique([line, ""], Frame(event, encode));
    DataLine(encode(event));
  }

  /** The reader inverts the printer: nothing is lost, reordered or left over. */
  lemma {:induction false} PrintedStreamIsDelivered<E>(events: seq<E>, encode: E -> string, parse: string -> Option<E>)
    requires forall e :: e in events ==> Decodes(e, encode, parse)
    ensures Events(Init(Split(Print(events, encode))), parse) == events
    ensures Last(Split(Print(events, encode))) == ""
  {
    if events == [] {
      assert Split("") == [""] && Init([""]) == [];
    } else {
      var before, event := Init(events), Last(events);
      assert events == before + [event];
      PrintedStreamIsDelivered(before, encode, parse);
      PrintOneMore(Print(before, encode), event, encode, parse);
    }
  }

  lemma PrintOneMore<E>(sent: string, event: E, encode: E -> string, parse: string -> Option<E>)
    requires Last(Split(sent)) == "" && Decodes(event, encode, parse)
    ensures Events(Init(Split(sent + Frame(event, encode))), parse) == Events(Init(Split(sent)), parse) + [event]
    ensures Last(Split(sent + Frame(event, encode))) == ""
  {
    var line := "data: " + encode(event);
    SplitContinues(sent, Frame(event, encode));
    assert "" + Frame(event, encode) == Frame(event, encode);
    PrintedFrame(event, encode, parse);
    var frames := Init(Split(sent));
    assert Init(frames + [line, ""]) == frames + [line];
    assert Init(frames + [line]) == frames;
  }

  /** A connection that breaks off anywhere inside the frame of event n has delivered exactly the events before it. */
  lemma BrokenStream<E>(events: seq<E>, n: nat, cut: nat, encode: E -> string, parse: string -> Option<E>)
    requires forall e :: e in events ==> Decodes(e, encode, parse)
    requires n < |events| && cut < |Frame(events[n], encode)|
    ensures var received := Print(events[..n], encode) + Frame(events[n], encode)[..cut];
            Events(Init(Split(received)), parse) == events[..n] && Last(Split(received)) == Frame(events[n], encode)[..cut]
  {
    var begun := Frame(events[n], encode)[..cut];
    PrintedStreamIsDelivered(events[..n], encode, parse);
    SplitContinues(Print(events[..n], encode), begun);
    assert "" + begun == begun;
    BrokenFrame(events[n], cut, encode, parse);
    assert Init([begun]) == [];
  }

  lemma BrokenFrame<E>(event: E, cut: nat, encode: E -> string, parse: string -> Option<E>)
    requires Decodes(event, encode, parse) && cut < |Frame(event, encode)|
    ensures Split(Frame(event, encode)[..cut]) == [Frame(event, encode)[..cut]]
  {
    var frame, line := Frame(event, encode), "data: " + encode(event);
    forall i | 0 <= i < cut - 1 ensures frame[i] != '\n' {
      assert frame[i] == line[i];
    }
    NoGapNoSplit(frame[..cut]);
  }
}
