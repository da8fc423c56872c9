/** The paragraph chunker of backend/app/ingestion/chunking.py. */
module Chunking {
  import opened Text

  datatype LoadedPage = LoadedPage(pageNumber: int, text: string)

  datatype TextChunk = TextChunk(text: string, chunkIndex: nat, page: int)

  // ---------------------------------------------------- content of a string

  /** A string without its whitespace; it is empty exactly for blank strings. */
  function Squeeze(s: string): string {
    if s == "" then "" else Squeeze(s[..|s| - 1]) + if IsSpace(s[|s| - 1]) then "" else [s[|s| - 1]]
  }

  /** What is not whitespace in a list of pieces, in order. */
  function Content(pieces: seq<string>): string {
    if pieces == [] then "" else Content(pieces[..|pieces| - 1]) + Squeeze(pieces[|pieces| - 1])
  }

  lemma ContentAppend(pieces: seq<string>, s: string)
    ensures Content(pieces + [s]) == Content(pieces) + Squeeze(s)
  {
    assert (pieces + [s])[..|pieces|] == pieces;
  }

  lemma {:induction false} ContentConcat(s: seq<string>, t: seq<string>)
    ensures Content(s + t) == Content(s) + Content(t)
  {
    if t == [] {
      assert s + t == s;
    } else {
      ContentConcat(s, t[..|t| - 1]);
      ContentConcatStep(s, t[..|t| - 1], t[|t| - 1]);
      assert t == t[..|t| - 1] + [t[|t| - 1]];
    }
  }

  lemma ContentConcatStep(s: seq<string>, t: seq<string>, last: string)
    requires Content(s + t) == Content(s) + Content(t)
    ensures Content(s + (t + [last])) == Content(s) + Content(t + [last])
  {
    assert s + (t + [last]) == s + t + [last];
    ContentAppend(s + t, last);
    ContentAppend(t, last);
    Regroup(Content(s), Content(t), Squeeze(last), Content(s + t));
  }

  lemma ContentOne(s: string)
    ensures Content([s]) == Squeeze(s)
  {
    assert [s][..0] == [] && Content([]) == "";
  }

  lemma {:induction false} SqueezeConcat(s: string, t: string)
    ensures Squeeze(s + t) == Squeeze(s) + Squeeze(t)
  {
    if t == "" {
      assert s + t == s;
    } else {
      SqueezeConcat(s, t[..|t| - 1]);
      assert (s + t)[..|s + t| - 1] == s + t[..|t| - 1];
    }
  }

  lemma SqueezeSpace(c: char)
    ensures Squeeze([c]) == if IsSpace(c) then "" else [c]
  {
    assert [c][..0] == "";
  }

  lemma {:induction false} TrimStartCut(s: string) returns (k: nat)
    ensures k <= |s| && TrimStart(s, IsSpace) == s[k..] && Squeeze(s[..k]) == ""
  {
    if s != "" && IsSpace(s[0]) {
      var j := TrimStartCut(s[1..]);
      k := j + 1;
      assert s[1..][j..] == s[k..];
      assert s[..k] == [s[0]] + s[1..][..j];
      SqueezeSpace(s[0]);
      SqueezeConcat([s[0]], s[1..][..j]);
    } else {
      k := 0;
    }
  }

  lemma {:induction false} TrimEndCut(s: string) returns (k: nat)
    ensures k <= |s| && TrimEnd(s, IsSpace) == s[..k] && Squeeze(s[k..]) == ""
  {
    if s != "" && IsSpace(s[|s| - 1]) {
      var n := |s| - 1;
      k := TrimEndCut(s[..n]);
      assert s[..n][..k] == s[..k];
      BlankEndGrows(s, k);
    } else {
      k := |s|;
    }
  }

  lemma BlankEndGrows(s: string, k: nat)
    requires k < |s| && IsSpace(s[|s| - 1]) && Squeeze(s[..|s| - 1][k..]) == ""
    ensures Squeeze(s[k..]) == ""
  {
    var n := |s| - 1;
    assert s[k..][..n - k] == s[..n][k..];
  }

  lemma SqueezeThree(a: string, b: string, c: string)
    ensures Squeeze(a + b + c) == Squeeze(a) + Squeeze(b) + Squeeze(c)
  {
    SqueezeConcat(a + b, c);
    SqueezeConcat(a, b);
  }

  /** Strip returns a slice, and only whitespace is lost. */
  lemma StripFacts(s: string) returns (from: nat, to: nat)
    ensures from <= to <= |s| && Strip(s) == s[from..to]
    ensures Squeeze(s[..from]) == "" && Squeeze(s[to..]) == ""
    ensures Squeeze(Strip(s)) == Squeeze(s)
  {
    from := TrimStartCut(s);
    var k := TrimEndCut(s[from..]);
    to := from + k;
    assert s[from..][..k] == s[from..to] && s[from..][k..] == s[to..];
    DropBlankStart(s, from);
    DropBlankEnd(s[from..], k);
  }

  lemma DropBlankStart(s: string, k: nat)
    requires k <= |s| && Squeeze(s[..k]) == ""
    ensures Squeeze(s[k..]) == Squeeze(s)
  {
    SqueezeCut(s, k);
  }

  lemma DropBlankEnd(s: string, k: nat)
    requires k <= |s| && Squeeze(s[k..]) == ""
    ensures Squeeze(s[..k]) == Squeeze(s)
  {
    SqueezeCut(s, k);
  }

  lemma SqueezeCut(s: string, k: nat)
    requires k <= |s|
    ensures Squeeze(s) == Squeeze(s[..k]) + Squeeze(s[k..])
  {
    assert s == s[..k] + s[k..];
    SqueezeConcat(s[..k], s[k..]);
  }

  // -------------------------------------------------------------- splitters

  /** End of the run of whitespace that starts at p. */
  function SpaceEnd(t: string, p: nat): (e: nat)
    requires p <= |t|
    ensures p <= e <= |t|
    decreases |t| - p
  {
    if p < |t| && IsSpace(t[p]) then SpaceEnd(t, p + 1) else p
  }

  lemma {:induction false} SpaceRun(t: string, p: nat, n: nat)
    requires p <= n <= |t| && n <= SpaceEnd(t, p)
    ensures Squeeze(t[p..n]) == ""
    decreases n - p
  {
    if p < n {
      SpaceRun(t, p + 1, n);
      SqueezeSpace(t[p]);
      SqueezeConcat([t[p]], t[p + 1..n]);
      assert t[p..n] == [t[p]] + t[p + 1..n];
    }
  }

  /** Position after the last newline of t[p..e], or p when there is none. */
  function AfterLastNewline(t: string, p: nat, e: nat): (n: nat)
    requires p <= e <= |t|
    ensures p <= n <= e
    decreases e - p
  {
    if p == e then p else if t[e - 1] == '\n' then e else AfterLastNewline(t, p, e - 1)
  }

  /** Split on a newline, any whitespace and a last newline, as the greedy pattern `\n\s*\n` matches. The piece being
      read began at start; the scan has reached p. */
  function ParagraphsFrom(t: string, start: nat, p: nat): seq<string>
    requires start <= p <= |t|
    decreases |t| - p
  {
    if p == |t| then [t[start..]]
    else if t[p] == '\n' && AfterLastNewline(t, p + 1, SpaceEnd(t, p + 1)) > p + 1 then
      var n := AfterLastNewline(t, p + 1, SpaceEnd(t, p + 1));
      [t[start..p]] + ParagraphsFrom(t, n, n)
    else ParagraphsFrom(t, start, p + 1)
  }

  predicate EndsSentence(c: char) { c == '.' || c == '!' || c == '?' }

  /** Split on whitespace that follows a full stop, exclamation or question mark, as `(?<=[.!?])\s+` matches. */
  function SentencesFrom(t: string, start: nat, p: nat): seq<string>
    requires start <= p <= |t|
    decreases |t| - p
  {
    if p == |t| then [t[start..]]
    else if p > 0 && EndsSentence(t[p - 1]) && IsSpace(t[p]) then
      [t[start..p]] + SentencesFrom(t, SpaceEnd(t, p + 1), SpaceEnd(t, p + 1))
    else SentencesFrom(t, start, p + 1)
  }

  lemma SqueezeTail(t: string, p: nat, next: nat)
    requires p <= next <= |t| && Squeeze(t[p..next]) == ""
    ensures Squeeze(t[p..]) == Squeeze(t[next..])
  {
    assert t[p..][..next - p] == t[p..next] && t[p..][next - p..] == t[next..];
    DropBlankStart(t[p..], next - p);
  }

  /** Cutting t[start..] at p and going on after a run of whitespace keeps what is not whitespace. */
  lemma CutKeepsContent(t: string, start: nat, p: nat, next: nat, rest: seq<string>)
    requires start <= p < next <= |t| && IsSpace(t[p]) && next <= SpaceEnd(t, p + 1)
    requires Content(rest) == Squeeze(t[next..])
    ensures Content([t[start..p]] + rest) == Squeeze(t[start..])
  {
    SpaceRun(t, p, next);
    ContentConcat([t[start..p]], rest);
    ContentOne(t[start..p]);
    SqueezeTail(t, p, next);
    SqueezeCut(t[start..], p - start);
    assert t[start..][..p - start] == t[start..p] && t[start..][p - start..] == t[p..];
  }

  lemma {:induction false} ParagraphsKeepContent(t: string, start: nat, p: nat)
    requires start <= p <= |t|
    ensures Content(ParagraphsFrom(t, start, p)) == Squeeze(t[start..])
    decreases |t| - p
  {
    if p == |t| {
      ContentOne(t[start..]);
    } else if t[p] == '\n' && AfterLastNewline(t, p + 1, SpaceEnd(t, p + 1)) > p + 1 {
      var n := AfterLastNewline(t, p + 1, SpaceEnd(t, p + 1));
      ParagraphsKeepContent(t, n, n);
      CutKeepsContent(t, start, p, n, ParagraphsFrom(t, n, n));
    } else {
      ParagraphsKeepContent(t, start, p + 1);
    }
  }

  lemma {:induction false} SentencesKeepContent(t: string, start: nat, p: nat)
    requires start <= p <= |t|
    ensures Content(SentencesFrom(t, start, p)) == Squeeze(t[start..])
    decreases |t| - p
  {
    if p == |t| {
      ContentOne(t[start..]);
    } else if p > 0 && EndsSentence(t[p - 1]) && IsSpace(t[p]) {
      var n := SpaceEnd(t, p + 1);
      SentencesKeepContent(t, n, n);
      CutKeepsContent(t, start, p, n, SentencesFrom(t, n, n));
    } else {
      SentencesKeepContent(t, start, p + 1);
    }
  }

  // ----------------------------------------------------- splitting a paragraph

  /** Which pieces: a paragraph that fits is one piece, a longer one is packed sentence by sentence as long as the next
      sentence fits, and what is still too long is cut every maxChars characters. */
  function ParagraphPieces(paragraph: string, maxChars: int): seq<string>
    requires maxChars >= 1
  {
    if |paragraph| <= maxChars then [paragraph]
    else CutAll(Sentences(paragraph, maxChars), maxChars)
  }

  function CutAll(pieces: seq<string>, maxChars: int): seq<string>
    requires maxChars >= 1
  {
    if pieces == [] then [] else CutAll(pieces[..|pieces| - 1], maxChars) + Cut(pieces[|pieces| - 1], maxChars)
  }

  function Cut(piece: string, maxChars: int): seq<string>
    requires maxChars >= 1
  {
    if |piece| <= maxChars then [piece] else [piece[..maxChars]] + Cut(piece[maxChars..], maxChars)
  }

  function Sentences(paragraph: string, maxChars: int): seq<string> {
    Closed(Glued(SentencesFrom(paragraph, 0, 0), maxChars))
  }

  /** Finished pieces and the one being built. */
  datatype Builder = Builder(done: seq<string>, current: string)

  function Glued(sentences: seq<string>, maxChars: int): Builder {
    if sentences == [] then Builder([], "")
    else GlueOne(Glued(sentences[..|sentences| - 1], maxChars), sentences[|sentences| - 1], maxChars)
  }

  function GlueOne(b: Builder, sentence: string, maxChars: int): Builder {
    var candidate := Joined(b.current, " ", sentence);
    if |candidate| > maxChars && b.current != "" then Builder(b.done + [b.current], sentence) else Builder(b.done, candidate)
  }

  function Closed(b: Builder): seq<string> {
    if b.current != "" then b.done + [b.current] else b.done
  }

  /** The pieces of the paragraphs, stripped and without the empty ones. */
  function AllPieces(paragraphs: seq<string>, maxChars: int): seq<string>
    requires maxChars >= 1
  {
    if paragraphs == [] then []
    else
      var paragraph := Strip(paragraphs[|paragraphs| - 1]);
      AllPieces(paragraphs[..|paragraphs| - 1], maxChars) + if paragraph != "" then ParagraphPieces(paragraph, maxChars) else []
  }

  /** Glue the next part on, or start with it when nothing is there yet. */
  function Joined(current: string, gap: string, part: string): string {
    if current != "" then Strip(current + gap + part) else part
  }

  method SplitParagraph(paragraph: string, maxChars: int) returns (final: seq<string>)
    requires maxChars >= 1
    ensures final == ParagraphPieces(paragraph, maxChars)
  {
    if |paragraph| <= maxChars {
      return [paragraph];
    }
    var pieces := PackSentences(paragraph, maxChars);
    final := [];
    var i := 0;
    while i < |pieces|
      invariant 0 <= i <= |pieces|
      invariant final == CutAll(pieces[..i], maxChars)
    {
      CutAllStep(pieces, i, maxChars);
      if |pieces[i]| <= maxChars {
        final := final + [pieces[i]];
      } else {
        var slices := HardSplit(pieces[i], maxChars);
        final := final + slices;
      }
      i := i + 1;
    }
    assert pieces[..i] == pieces;
  }

  lemma CutAllStep(pieces: seq<string>, i: nat, maxChars: int)
    requires maxChars >= 1 && i < |pieces|
    ensures CutAll(pieces[..i + 1], maxChars) == CutAll(pieces[..i], maxChars) + Cut(pieces[i], maxChars)
  {
    assert pieces[..i + 1][..i] == pieces[..i];
  }

  lemma GluedStep(sentences: seq<string>, i: nat, maxChars: int)
    requires i < |sentences|
    ensures Glued(sentences[..i + 1], maxChars) == GlueOne(Glued(sentences[..i], maxChars), sentences[i], maxChars)
  {
    assert sentences[..i + 1][..i] == sentences[..i];
  }

  method PackSentences(paragraph: string, maxChars: int) returns (pieces: seq<string>)
    ensures pieces == Sentences(paragraph, maxChars)
  {
    var sentences := SentencesFrom(paragraph, 0, 0);
    pieces := [];
    var current := "";
    var i := 0;
    while i < |sentences|
      invariant 0 <= i <= |sentences|
      invariant Glued(sentences[..i], maxChars) == Builder(pieces, current)
    {
      GluedStep(sentences, i, maxChars);
      var candidate := Joined(current, " ", sentences[i]);
      if |candidate| > maxChars && current != "" {
        pieces := pieces + [current];
        current := sentences[i];
      } else {
        current := candidate;
      }
      i := i + 1;
    }
    assert sentences[..i] == sentences;
    if current != "" {
      pieces := pieces + [current];
    }
  }

  method HardSplit(piece: string, maxChars: int) returns (slices: seq<string>)
    requires 1 <= maxChars < |piece|
    ensures slices == Cut(piece, maxChars)
  {
    slices := [];
    var i := 0;
    assert piece[0..] == piece;
    while i < |piece|
      invariant 0 <= i <= |piece|
      invariant slices + Rest(piece, i, maxChars) == Cut(piece, maxChars)
    {
      var end := if i + maxChars < |piece| then i + maxChars else |piece|;
      NextSlice(slices, piece, i, end, maxChars);
      slices := slices + [piece[i..end]];
      i := end;
    }
  }

  function Rest(piece: string, i: nat, maxChars: int): seq<string>
    requires maxChars >= 1 && i <= |piece|
  {
    if i < |piece| then Cut(piece[i..], maxChars) else []
  }

  lemma NextSlice(slices: seq<string>, piece: string, i: nat, end: nat, maxChars: int)
    requires maxChars >= 1 && i < |piece| && end == if i + maxChars < |piece| then i + maxChars else |piece|
    ensures slices + Rest(piece, i, maxChars) == slices + [piece[i..end]] + Rest(piece, end, maxChars)
  {
    if end < |piece| {
      assert piece[i..][..maxChars] == piece[i..end] && piece[i..][maxChars..] == piece[end..];
    } else {
      assert piece[i..end] == piece[i..];
    }
  }

  /** The paragraphs of a page, stripped, without the empty ones, each cut into pieces that fit. */
  method PagePieces(text: string, maxChars: int) returns (pieces: seq<string>)
    requires maxChars >= 1
    ensures pieces == AllPieces(ParagraphsFrom(text, 0, 0), maxChars)
  {
    var raw := ParagraphsFrom(text, 0, 0);
    pieces := [];
    var i := 0;
    while i < |raw|
      invariant 0 <= i <= |raw|
      invariant pieces == AllPieces(raw[..i], maxChars)
    {
      assert raw[..i + 1][..i] == raw[..i];
      var paragraph := Strip(raw[i]);
      if paragraph != "" {
        var split := SplitParagraph(paragraph, maxChars);
        pieces := pieces + split;
      }
      i := i + 1;
    }
    assert raw[..i] == raw;
  }

  // --------------------------------------- the pieces fit, and nothing is lost

  /** Pieces that fit, none of them empty. */
  ghost predicate Fit(pieces: seq<string>, maxChars: int) {
    forall i :: 0 <= i < |pieces| ==> 0 < |pieces[i]| <= maxChars
  }

  /** The pieces fit and hold just this content. */
  ghost predicate FitContent(pieces: seq<string>, maxChars: int, content: string) {
    Fit(pieces, maxChars) && Content(pieces) == content
  }

  lemma FitConcat(a: seq<string>, b: seq<string>, maxChars: int, x: string, y: string)
    requires FitContent(a, maxChars, x) && FitContent(b, maxChars, y)
    ensures FitContent(a + b, maxChars, x + y)
  {
    ContentConcat(a, b);
  }

  lemma FitOne(piece: string, maxChars: int)
    requires 0 < |piece| <= maxChars
    ensures FitContent([piece], maxChars, Squeeze(piece))
  {
    ContentOne(piece);
  }

  lemma {:induction false} CutFits(piece: string, maxChars: int)
    requires maxChars >= 1 && piece != ""
    ensures FitContent(Cut(piece, maxChars), maxChars, Squeeze(piece))
    decreases |piece|
  {
    if |piece| <= maxChars {
      FitOne(piece, maxChars);
    } else {
      var head, tail := piece[..maxChars], piece[maxChars..];
      CutFits(tail, maxChars);
      FitOne(head, maxChars);
      FitConcat([head], Cut(tail, maxChars), maxChars, Squeeze(head), Squeeze(tail));
      SqueezeCut(piece, maxChars);
    }
  }

  lemma {:induction false} CutAllFits(pieces: seq<string>, maxChars: int)
    requires maxChars >= 1 && "" !in pieces
    ensures FitContent(CutAll(pieces, maxChars), maxChars, Content(pieces))
  {
    if pieces != [] {
      var init, last := pieces[..|pieces| - 1], pieces[|pieces| - 1];
      CutAllFits(init, maxChars);
      CutFits(last, maxChars);
      FitConcat(CutAll(init, maxChars), Cut(last, maxChars), maxChars, Content(init), Squeeze(last));
    }
  }

  /** The builder has taken up all it was given, and finished no empty piece. */
  ghost predicate Holds(b: Builder, content: string) {
    "" !in b.done && Content(b.done) + Squeeze(b.current) == content
  }

  lemma {:induction false} GluedHolds(sentences: seq<string>, maxChars: int)
    ensures Holds(Glued(sentences, maxChars), Content(sentences))
  {
    if sentences != [] {
      var init, last := sentences[..|sentences| - 1], sentences[|sentences| - 1];
      GluedHolds(init, maxChars);
      GlueOneHolds(Glued(init, maxChars), last, maxChars, Content(init));
    }
  }

  lemma GlueOneHolds(b: Builder, sentence: string, maxChars: int, content: string)
    requires Holds(b, content)
    ensures Holds(GlueOne(b, sentence, maxChars), content + Squeeze(sentence))
  {
    ContentAppend(b.done, b.current);
    SqueezeSpace(' ');
    Glue(b.current, " ", sentence);
    Regroup(Content(b.done), Squeeze(b.current), Squeeze(sentence), content);
  }

  lemma SentencesHold(paragraph: string, maxChars: int)
    ensures "" !in Sentences(paragraph, maxChars) && Content(Sentences(paragraph, maxChars)) == Squeeze(paragraph)
  {
    SentencesKeepContent(paragraph, 0, 0);
    assert paragraph[0..] == paragraph;
    GluedHolds(SentencesFrom(paragraph, 0, 0), maxChars);
    var b := Glued(SentencesFrom(paragraph, 0, 0), maxChars);
    ContentAppend(b.done, b.current);
    assert b.current == "" ==> Content(b.done) + Squeeze(b.current) == Content(b.done);
  }

  lemma ParagraphFits(paragraph: string, maxChars: int)
    requires maxChars >= 1 && paragraph != ""
    ensures FitContent(ParagraphPieces(paragraph, maxChars), maxChars, Squeeze(paragraph))
  {
    if |paragraph| <= maxChars {
      FitOne(paragraph, maxChars);
    } else {
      SentencesHold(paragraph, maxChars);
      CutAllFits(Sentences(paragraph, maxChars), maxChars);
    }
  }

  lemma {:induction false} AllPiecesFit(paragraphs: seq<string>, maxChars: int)
    requires maxChars >= 1
    ensures FitContent(AllPieces(paragraphs, maxChars), maxChars, Content(paragraphs))
  {
    if paragraphs != [] {
      var init, last := paragraphs[..|paragraphs| - 1], paragraphs[|paragraphs| - 1];
      AllPiecesFit(init, maxChars);
      StripKeepsContent(last);
      if Strip(last) != "" {
        ParagraphFits(Strip(last), maxChars);
        FitConcat(AllPieces(init, maxChars), ParagraphPieces(Strip(last), maxChars), maxChars, Content(init), Squeeze(last));
      } else {
        FitConcat(AllPieces(init, maxChars), [], maxChars, Content(init), "");
      }
    }
  }

  /** Every piece of a page is short enough and not empty, and the pieces hold all the page says. */
  lemma PagePiecesFit(text: string, maxChars: int)
    requires maxChars >= 1
    ensures FitContent(AllPieces(ParagraphsFrom(text, 0, 0), maxChars), maxChars, Squeeze(text))
  {
    ParagraphsKeepContent(text, 0, 0);
    assert text[0..] == text;
    AllPiecesFit(ParagraphsFrom(text, 0, 0), maxChars);
  }

  lemma Regroup(done: string, current: string, sentence: string, read: string)
    requires done + current == read
    ensures done + (current + sentence) == read + sentence
  {
    assert done + (current + sentence) == (done + current) + sentence;
  }

  /** Joining with whitespace and stripping adds and loses nothing but whitespace. */
  lemma Glue(a: string, gap: string, b: string)
    requires Squeeze(gap) == ""
    ensures Squeeze(Joined(a, gap, b)) == Squeeze(a) + Squeeze(b)
  {
    if a != "" {
      StripKeepsContent(a + gap + b);
      SqueezeThree(a, gap, b);
    } else {
      assert Squeeze(a) + Squeeze(b) == Squeeze(b);
    }
  }

  lemma StripKeepsContent(s: string)
    ensures Squeeze(Strip(s)) == Squeeze(s)
  {
    var from, to := StripFacts(s);
  }
}
