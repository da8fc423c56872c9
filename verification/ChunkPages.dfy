/** Packing the pieces of a page into overlapping chunks, page by page. */
module ChunkPages {
  import opened Util
  import opened Text
  import opened Chunking

  /** Python's s[-k:] for k != 0. */
  function LastChars(s: string, k: int): string {
    if k > 0 then s[if k < |s| then |s| - k else 0..] else s[if -k < |s| then -k else |s|..]
  }

  predicate IsSuffix(s: string, t: string) {
    |s| <= |t| && t[|t| - |s|..] == s
  }

  lemma SuffixOfSuffix(s: string, t: string, u: string)
    requires IsSuffix(s, t) && IsSuffix(t, u)
    ensures IsSuffix(s, u)
  {
    assert u[|u| - |s|..] == u[|u| - |t|..][|t| - |s|..];
  }

  /** A chunk is a carried end of the previous chunk followed by its body; at most overlap characters are carried. */
  ghost predicate IsWindow(previous: string, text: string, carried: nat, body: string, overlap: int) {
    && carried <= |text| && text[carried..] == body
    && IsSuffix(text[..carried], previous)
    && (overlap >= 0 ==> carried <= overlap)
  }

  function LastText(texts: seq<string>): string {
    if texts == [] then "" else texts[|texts| - 1]
  }

  /** The texts of the chunks of a page with their bodies: each a window after the one before. */
  ghost predicate AreWindows(texts: seq<string>, bodies: seq<string>, overlap: int) {
    if texts == [] then bodies == []
    else
      && bodies != []
      && var init, text, body := texts[..|texts| - 1], texts[|texts| - 1], bodies[|bodies| - 1];
         && AreWindows(init, bodies[..|bodies| - 1], overlap)
         && |body| <= |text| && IsWindow(LastText(init), text, |text| - |body|, body, overlap)
  }

  // ------------------------------------------------------------ the buffer

  /** Text waiting to be emitted, of which the first carried characters repeat the chunk before. */
  ghost predicate IsBuffer(previous: string, buffer: string, carried: nat, overlap: int, maxChars: int) {
    && |buffer| <= maxChars
    && carried <= |buffer|
    && IsWindow(previous, buffer, carried, buffer[carried..], overlap)
    && (carried > 0 ==> Squeeze(buffer[carried..]) != "")
  }

  lemma BlankParts(s: string, t: string)
    requires Squeeze(s + t) == ""
    ensures Squeeze(s) == "" && Squeeze(t) == ""
  {
    SqueezeConcat(s, t);
  }

  /** Cutting blanks off both ends can shorten what is carried and trim the body, but never reaches through the
      body into what is carried. */
  lemma CutBuffer(s: string, carried: nat, from: nat, to: nat) returns (left: nat)
    requires from <= to <= |s| && Squeeze(s[..from]) == "" && Squeeze(s[to..]) == ""
    requires carried <= |s| && (carried > 0 ==> Squeeze(s[carried..]) != "")
    ensures left <= to - from && left <= carried
    ensures IsSuffix(s[from..to][..left], s[..carried])
    ensures Squeeze(s[from..to][left..]) == Squeeze(s[carried..])
  {
    if carried > to {
      assert s[to..] == s[to..carried] + s[carried..];
      BlankParts(s[to..carried], s[carried..]);
      assert false;
    } else if from <= carried {
      left := carried - from;
      CutCarried(s, carried, from, to);
    } else {
      left := 0;
      CutBody(s, carried, from, to);
      assert s[from..to][0..] == s[from..to] && s[from..to][..0] == "";
    }
  }

  lemma CutCarried(s: string, carried: nat, from: nat, to: nat)
    requires from <= carried <= to <= |s| && Squeeze(s[to..]) == ""
    ensures IsSuffix(s[from..to][..carried - from], s[..carried])
    ensures Squeeze(s[from..to][carried - from..]) == Squeeze(s[carried..])
  {
    assert s[from..to][..carried - from] == s[..carried][from..];
    assert s[from..to][carried - from..] == s[carried..to];
    assert s[carried..] == s[carried..to] + s[to..];
    SqueezeConcat(s[carried..to], s[to..]);
  }

  lemma CutBody(s: string, carried: nat, from: nat, to: nat)
    requires carried <= from <= to <= |s| && Squeeze(s[..from]) == "" && Squeeze(s[to..]) == ""
    ensures Squeeze(s[from..to]) == Squeeze(s[carried..])
  {
    assert s[..from] == s[..carried] + s[carried..from];
    BlankParts(s[..carried], s[carried..from]);
    assert s[carried..] == s[carried..from] + s[from..to] + s[to..];
    SqueezeThree(s[carried..from], s[from..to], s[to..]);
  }

  /** Joining a piece to the buffer keeps what is carried an end of the chunk before, and adds the piece to the body. */
  lemma JoinPiece(previous: string, buffer: string, carried: nat, piece: string, overlap: int, maxChars: int) returns (left: nat)
    requires IsBuffer(previous, buffer, carried, overlap, maxChars)
    requires |Strip(buffer + "\n\n" + piece)| <= maxChars
    ensures IsBuffer(previous, Strip(buffer + "\n\n" + piece), left, overlap, maxChars)
    ensures Squeeze(Strip(buffer + "\n\n" + piece)[left..]) == Squeeze(buffer[carried..]) + Squeeze(piece)
  {
    var from, to := StripFacts(buffer + "\n\n" + piece);
    NewlinesAreBlank();
    left := JoinWithGap(previous, buffer, carried, "\n\n", piece, from, to, overlap, maxChars);
  }

  lemma JoinWithGap(previous: string, buffer: string, carried: nat, gap: string, piece: string, from: nat, to: nat,
                    overlap: int, maxChars: int) returns (left: nat)
    requires IsBuffer(previous, buffer, carried, overlap, maxChars) && Squeeze(gap) == ""
    requires var s := buffer + gap + piece;
             from <= to <= |s| && Squeeze(s[..from]) == "" && Squeeze(s[to..]) == "" && to - from <= maxChars
    ensures IsBuffer(previous, (buffer + gap + piece)[from..to], left, overlap, maxChars)
    ensures Squeeze((buffer + gap + piece)[from..to][left..]) == Squeeze(buffer[carried..]) + Squeeze(piece)
  {
    var s := buffer + gap + piece;
    var body := buffer[carried..];
    assert s[..carried] == buffer[..carried] && s[carried..] == body + gap + piece;
    SqueezeThree(body, gap, piece);
    left := CutBuffer(s, carried, from, to);
    SuffixOfSuffix(s[from..to][..left], s[..carried], previous);
  }

  lemma NewlinesAreBlank()
    ensures Squeeze("\n\n") == ""
  {
    SqueezeSpace('\n');
    SqueezeConcat("\n", "\n");
    assert "\n" + "\n" == "\n\n";
  }

  lemma LastCharsAreSuffix(s: string, k: int)
    requires k != 0
    ensures IsSuffix(LastChars(s, k), s) && (k >= 0 ==> |LastChars(s, k)| <= k)
  {
  }

  /** After a chunk is emitted the buffer starts again with its end, followed by the piece. */
  lemma StartBuffer(previous: string, carry: string, gap: string, piece: string, overlap: int, maxChars: int)
    requires |carry + gap + piece| <= maxChars && Squeeze(piece) != "" && Squeeze(gap) == ""
    requires IsSuffix(carry, previous) && (overlap >= 0 ==> |carry| <= overlap)
    ensures IsBuffer(previous, carry + gap + piece, |carry|, overlap, maxChars)
    ensures Squeeze((carry + gap + piece)[|carry|..]) == Squeeze(piece)
  {
    assert (carry + gap + piece)[|carry|..] == gap + piece;
    assert (carry + gap + piece)[..|carry|] == carry;
    SqueezeConcat(gap, piece);
  }

  lemma FreshBuffer(previous: string, piece: string, overlap: int, maxChars: int)
    requires |piece| <= maxChars
    ensures IsBuffer(previous, piece, 0, overlap, maxChars) && piece[0..] == piece
  {
  }

  /** The buffer with which the code goes on after emitting a chunk. */
  function Restart(emitted: string, piece: string, overlap: int, maxChars: int): string {
    var buffer := if overlap != 0 then LastChars(emitted, overlap) + "\n\n" + piece else piece;
    if |buffer| > maxChars then piece else buffer
  }

  lemma RestartFacts(emitted: string, piece: string, overlap: int, maxChars: int) returns (carried: nat)
    requires |piece| <= maxChars && Squeeze(piece) != ""
    ensures IsBuffer(emitted, Restart(emitted, piece, overlap, maxChars), carried, overlap, maxChars)
    ensures Squeeze(Restart(emitted, piece, overlap, maxChars)[carried..]) == Squeeze(piece)
  {
    FreshBuffer(emitted, piece, overlap, maxChars);
    carried := 0;
    if overlap != 0 && |LastChars(emitted, overlap) + "\n\n" + piece| <= maxChars {
      LastCharsAreSuffix(emitted, overlap);
      NewlinesAreBlank();
      StartBuffer(emitted, LastChars(emitted, overlap), "\n\n", piece, overlap, maxChars);
      carried := |LastChars(emitted, overlap)|;
    }
  }

  /** A piece that does not fit is not blank: stripping a blank one away would have fitted. */
  lemma BlankPieceFits(buffer: string, piece: string)
    requires Squeeze(piece) == ""
    ensures |Strip(buffer + "\n\n" + piece)| <= |buffer|
  {
    var s := buffer + "\n\n" + piece;
    NewlinesAreBlank();
    SqueezeConcat("\n\n", piece);
    assert s == buffer + ("\n\n" + piece);
    StripLength(buffer, "\n\n" + piece);
  }

  lemma {:induction false} TrimEndOfBlank(s: string, gap: string)
    requires Squeeze(gap) == ""
    ensures |TrimEnd(s + gap, IsSpace)| <= |s|
  {
    if gap == "" {
      var k := TrimEndCut(s);
      assert s + gap == s;
    } else {
      var n := |gap| - 1;
      assert (s + gap)[..|s + gap| - 1] == s + gap[..n];
      assert gap == gap[..n] + [gap[n]];
      BlankParts(gap[..n], [gap[n]]);
      SqueezeSpace(gap[n]);
      TrimEndOfBlank(s, gap[..n]);
    }
  }

  lemma StripLength(s: string, gap: string)
    requires Squeeze(gap) == ""
    ensures |Strip(s + gap)| <= |s|
  {
    var k := TrimStartCut(s + gap);
    if k <= |s| {
      assert (s + gap)[k..] == s[k..] + gap;
      TrimEndOfBlank(s[k..], gap);
    } else {
      assert (s + gap)[k..] == "" + gap[k - |s|..];
      assert gap == gap[..k - |s|] + gap[k - |s|..];
      BlankParts(gap[..k - |s|], gap[k - |s|..]);
      TrimEndOfBlank("", gap[k - |s|..]);
    }
  }

  // ------------------------------------------------------------- one page

  /** The finished texts of a page and the text still in the buffer. */
  datatype Packer = Packer(done: seq<string>, buffer: string)

  /** Pieces are joined as long as they fit; one that does not starts the next chunk, behind the end of the last one. */
  function Packed(pieces: seq<string>, maxChars: int, overlap: int): Packer {
    if pieces == [] then Packer([], "")
    else PackOne(Packed(pieces[..|pieces| - 1], maxChars, overlap), pieces[|pieces| - 1], maxChars, overlap)
  }

  function PackOne(p: Packer, piece: string, maxChars: int, overlap: int): Packer {
    var candidate := Joined(p.buffer, "\n\n", piece);
    if |candidate| <= maxChars then Packer(p.done, candidate)
    else Packer(p.done + [p.buffer], Restart(p.buffer, piece, overlap, maxChars))
  }

  function Emptied(p: Packer): seq<string> {
    if p.buffer != "" then p.done + [p.buffer] else p.done
  }

  /** The texts of the chunks of a page. */
  function PageTexts(text: string, maxChars: int, overlap: int): seq<string>
    requires maxChars >= 1
  {
    if Strip(text) == "" then []
    else Emptied(Packed(AllPieces(ParagraphsFrom(text, 0, 0), maxChars), maxChars, overlap))
  }

  /** Chunks of these texts, numbered on from first. */
  function Labelled(texts: seq<string>, first: nat, page: int): (chunks: seq<TextChunk>)
    ensures |chunks| == |texts|
  {
    if texts == [] then []
    else Labelled(texts[..|texts| - 1], first, page) + [TextChunk(texts[|texts| - 1], first + |texts| - 1, page)]
  }

  lemma LabelledAppend(texts: seq<string>, text: string, first: nat, page: int)
    ensures Labelled(texts + [text], first, page) == Labelled(texts, first, page) + [TextChunk(text, first + |texts|, page)]
  {
    assert (texts + [text])[..|texts|] == texts;
  }

  lemma {:induction false} LabelledAt(texts: seq<string>, first: nat, page: int, k: nat)
    requires k < |texts|
    ensures Labelled(texts, first, page)[k] == TextChunk(texts[k], first + k, page)
  {
    if k < |texts| - 1 {
      LabelledAt(texts[..|texts| - 1], first, page, k);
    }
  }

  lemma LabelEmitted(p: Packer, piece: string, first: nat, page: int, maxChars: int, overlap: int)
    requires |Joined(p.buffer, "\n\n", piece)| > maxChars
    ensures PackOne(p, piece, maxChars, overlap).buffer == Restart(p.buffer, piece, overlap, maxChars)
    ensures Labelled(PackOne(p, piece, maxChars, overlap).done, first, page) ==
            Labelled(p.done, first, page) + [TextChunk(p.buffer, first + |p.done|, page)]
  {
    LabelledAppend(p.done, p.buffer, first, page);
  }

  lemma LabelEmptied(p: Packer, first: nat, page: int)
    ensures p.buffer == "" ==> Labelled(Emptied(p), first, page) == Labelled(p.done, first, page)
    ensures p.buffer != "" ==>
              Labelled(Emptied(p), first, page) == Labelled(p.done, first, page) + [TextChunk(p.buffer, first + |p.done|, page)]
  {
    LabelledAppend(p.done, p.buffer, first, page);
  }

  method ChunkPage(page: LoadedPage, first: nat, maxChars: int, overlap: int) returns (chunks: seq<TextChunk>)
    requires maxChars >= 1
    ensures chunks == Labelled(PageTexts(page.text, maxChars, overlap), first, page.pageNumber)
  {
    if Strip(page.text) == "" {
      return [];
    }
    var pieces := PagePieces(page.text, maxChars);
    PagePiecesFit(page.text, maxChars);
    chunks := EmitPieces(pieces, first, page.pageNumber, maxChars, overlap);
    PageTextsOf(page.text, pieces, maxChars, overlap);
  }

  lemma PageTextsOf(text: string, pieces: seq<string>, maxChars: int, overlap: int)
    requires maxChars >= 1 && Strip(text) != "" && pieces == AllPieces(ParagraphsFrom(text, 0, 0), maxChars)
    ensures PageTexts(text, maxChars, overlap) == Emptied(Packed(pieces, maxChars, overlap))
  {
  }

  method EmitPieces(pieces: seq<string>, first: nat, page: int, maxChars: int, overlap: int) returns (chunks: seq<TextChunk>)
    requires Fit(pieces, maxChars)
    ensures chunks == Labelled(Emptied(Packed(pieces, maxChars, overlap)), first, page)
  {
    var buffer;
    chunks, buffer := PackPieces(pieces, first, page, maxChars, overlap);
    LabelEmptied(Packed(pieces, maxChars, overlap), first, page);
    if buffer != "" {
      chunks := chunks + [TextChunk(buffer, first + |chunks|, page)];
    }
  }

  /** The chunks emitted so far and the buffer are those of p. */
  ghost predicate Emits(chunks: seq<TextChunk>, buffer: string, p: Packer, first: nat, page: int) {
    chunks == Labelled(p.done, first, page) && buffer == p.buffer
  }

  method PackPieces(pieces: seq<string>, first: nat, page: int, maxChars: int, overlap: int)
    returns (chunks: seq<TextChunk>, buffer: string)
    requires Fit(pieces, maxChars)
    ensures Emits(chunks, buffer, Packed(pieces, maxChars, overlap), first, page)
  {
    chunks, buffer := [], "";
    ghost var p := Packer([], "");
    var i := 0;
    while i < |pieces|
      invariant 0 <= i <= |pieces|
      invariant p == Packed(pieces[..i], maxChars, overlap)
      invariant Emits(chunks, buffer, p, first, page)
    {
      assert pieces[..i + 1][..i] == pieces[..i];
      chunks, buffer := TakePiece(chunks, buffer, p, pieces[i], first, page, maxChars, overlap);
      p := PackOne(p, pieces[i], maxChars, overlap);
      i := i + 1;
    }
    assert pieces[..|pieces|] == pieces;
  }

  /** One turn of the packing loop. */
  method TakePiece(chunks: seq<TextChunk>, buffer: string, ghost p: Packer, piece: string, first: nat, page: int, maxChars: int,
                   overlap: int)
    returns (chunks': seq<TextChunk>, buffer': string)
    requires Emits(chunks, buffer, p, first, page) && |piece| <= maxChars
    ensures Emits(chunks', buffer', PackOne(p, piece, maxChars, overlap), first, page)
  {
    FitsAlone(piece);
    var candidate := Joined(buffer, "\n\n", piece);
    if |candidate| <= maxChars {
      return chunks, candidate;
    }
    LabelEmitted(p, piece, first, page, maxChars, overlap);
    if buffer != "" {
      chunks' := chunks + [TextChunk(buffer, first + |chunks|, page)];
      buffer' := Restart(buffer, piece, overlap, maxChars);
    } else {
      chunks', buffer' := chunks, piece;
    }
  }

  /** A piece fits by itself, so it can only fail to fit behind something. */
  lemma FitsAlone(piece: string)
    ensures |Joined("", "\n\n", piece)| == |piece|
  {
  }

  // ------------------------------------------------- windows over the content

  /** What the packer has done with the pieces: finished windows that fit, and a buffer that continues them. */
  ghost predicate Packing(p: Packer, bodies: seq<string>, carried: nat, pieces: seq<string>, maxChars: int, overlap: int) {
    && Fit(p.done, maxChars)
    && AreWindows(p.done, bodies, overlap)
    && IsBuffer(LastText(p.done), p.buffer, carried, overlap, maxChars)
    && Content(bodies) + Squeeze(p.buffer[carried..]) == Content(pieces)
  }

  lemma {:induction false} PackedPacks(pieces: seq<string>, maxChars: int, overlap: int) returns (bodies: seq<string>, carried: nat)
    requires maxChars >= 1 && Fit(pieces, maxChars)
    ensures Packing(Packed(pieces, maxChars, overlap), bodies, carried, pieces, maxChars, overlap)
  {
    if pieces == [] {
      bodies, carried := [], 0;
      PackingStarts(maxChars, overlap);
    } else {
      var init, piece := pieces[..|pieces| - 1], pieces[|pieces| - 1];
      bodies, carried := PackedPacks(init, maxChars, overlap);
      InitAndLast(pieces);
      bodies, carried := PackOnePacks(Packed(init, maxChars, overlap), bodies, carried, init, piece, maxChars, overlap);
    }
  }

  lemma PackingStarts(maxChars: int, overlap: int)
    requires maxChars >= 1
    ensures Packing(Packer([], ""), [], 0, [], maxChars, overlap)
  {
    assert ""[0..] == "";
  }

  lemma PackOnePacks(p: Packer, bodies: seq<string>, carried: nat, pieces: seq<string>, piece: string, maxChars: int, overlap: int)
    returns (bodies': seq<string>, carried': nat)
    requires Packing(p, bodies, carried, pieces, maxChars, overlap) && 0 < |piece| <= maxChars
    ensures Packing(PackOne(p, piece, maxChars, overlap), bodies', carried', pieces + [piece], maxChars, overlap)
  {
    ContentAppend(pieces, piece);
    if |Joined(p.buffer, "\n\n", piece)| <= maxChars {
      bodies' := bodies;
      carried' := FittingPiece(LastText(p.done), p.buffer, carried, piece, overlap, maxChars);
      Regroup(Content(bodies), Squeeze(p.buffer[carried..]), Squeeze(piece), Content(pieces));
    } else {
      bodies' := bodies + [p.buffer[carried..]];
      NotBlank(p.buffer, piece, maxChars);
      carried' := RestartFacts(p.buffer, piece, overlap, maxChars);
      ContentAppend(bodies, p.buffer[carried..]);
      EmitKeeps(p.done, bodies, p.buffer, carried, overlap, maxChars);
    }
  }

  lemma FittingPiece(previous: string, buffer: string, carried: nat, piece: string, overlap: int, maxChars: int) returns (left: nat)
    requires |piece| <= maxChars && IsBuffer(previous, buffer, carried, overlap, maxChars)
    requires |Joined(buffer, "\n\n", piece)| <= maxChars
    ensures IsBuffer(previous, Joined(buffer, "\n\n", piece), left, overlap, maxChars)
    ensures Squeeze(Joined(buffer, "\n\n", piece)[left..]) == Squeeze(buffer[carried..]) + Squeeze(piece)
  {
    if buffer != "" {
      left := JoinPiece(previous, buffer, carried, piece, overlap, maxChars);
    } else {
      left := 0;
      FreshBuffer(previous, piece, overlap, maxChars);
      assert buffer[carried..] == "" && "" + Squeeze(piece) == Squeeze(piece);
    }
  }

  lemma NotBlank(buffer: string, piece: string, maxChars: int)
    requires |buffer| <= maxChars && |piece| <= maxChars && |Joined(buffer, "\n\n", piece)| > maxChars
    ensures buffer != "" && Squeeze(piece) != ""
  {
    if Squeeze(piece) == "" {
      BlankPieceFits(buffer, piece);
    }
  }

  lemma EmitKeeps(texts: seq<string>, bodies: seq<string>, buffer: string, carried: nat, overlap: int, maxChars: int)
    requires AreWindows(texts, bodies, overlap) && Fit(texts, maxChars) && 0 < |buffer| <= maxChars
    requires carried <= |buffer| && IsWindow(LastText(texts), buffer, carried, buffer[carried..], overlap)
    ensures AreWindows(texts + [buffer], bodies + [buffer[carried..]], overlap) && Fit(texts + [buffer], maxChars)
  {
    assert |buffer| - |buffer[carried..]| == carried;
    WindowAppended(texts, bodies, buffer, buffer[carried..], overlap);
    FitAppended(texts, buffer, maxChars);
  }

  lemma WindowAppended(texts: seq<string>, bodies: seq<string>, text: string, body: string, overlap: int)
    requires AreWindows(texts, bodies, overlap) && |body| <= |text|
    requires IsWindow(LastText(texts), text, |text| - |body|, body, overlap)
    ensures AreWindows(texts + [text], bodies + [body], overlap)
  {
    Appended(texts, text);
    Appended(bodies, body);
    LastWindow(texts + [text], bodies + [body], overlap);
  }

  lemma LastWindow(texts: seq<string>, bodies: seq<string>, overlap: int)
    requires texts != [] && bodies != [] && AreWindows(texts[..|texts| - 1], bodies[..|bodies| - 1], overlap)
    requires var text, body := texts[|texts| - 1], bodies[|bodies| - 1];
             |body| <= |text| && IsWindow(LastText(texts[..|texts| - 1]), text, |text| - |body|, body, overlap)
    ensures AreWindows(texts, bodies, overlap)
  {
  }

  lemma FitAppended(texts: seq<string>, text: string, maxChars: int)
    requires Fit(texts, maxChars) && 0 < |text| <= maxChars
    ensures Fit(texts + [text], maxChars)
  {
  }

  /** The texts of a page's chunks: each short enough, each a window after the one before, and the bodies of the
      windows hold exactly what the page says. */
  ghost predicate Covers(texts: seq<string>, bodies: seq<string>, text: string, maxChars: int, overlap: int) {
    && Fit(texts, maxChars)
    && AreWindows(texts, bodies, overlap)
    && Content(bodies) == Squeeze(text)
    && (texts == [] <==> Squeeze(text) == "")
  }

  /** No character of a page is lost, and none is repeated but what the overlap carries. */
  lemma PageIsCovered(text: string, maxChars: int, overlap: int) returns (bodies: seq<string>)
    requires maxChars >= 1
    ensures Covers(PageTexts(text, maxChars, overlap), bodies, text, maxChars, overlap)
  {
    BlankStrips(text);
    if Strip(text) == "" {
      bodies := [];
    } else {
      var pieces := AllPieces(ParagraphsFrom(text, 0, 0), maxChars);
      PagePiecesFit(text, maxChars);
      var carried: nat;
      bodies, carried := PackedPacks(pieces, maxChars, overlap);
      bodies := EmptiedCovers(Packed(pieces, maxChars, overlap), bodies, carried, pieces, maxChars, overlap);
      assert bodies == [] ==> Content(bodies) == "";
    }
  }

  lemma EmptiedCovers(p: Packer, bodies: seq<string>, carried: nat, pieces: seq<string>, maxChars: int, overlap: int)
    returns (all: seq<string>)
    requires Packing(p, bodies, carried, pieces, maxChars, overlap)
    ensures Fit(Emptied(p), maxChars) && AreWindows(Emptied(p), all, overlap) && Content(all) == Content(pieces)
  {
    if p.buffer != "" {
      all := bodies + [p.buffer[carried..]];
      EmitKeeps(p.done, bodies, p.buffer, carried, overlap, maxChars);
      ContentAppend(bodies, p.buffer[carried..]);
    } else {
      all := bodies;
      assert p.buffer[carried..] == "" && Content(bodies) + "" == Content(bodies);
    }
  }

  lemma BlankStrips(s: string)
    ensures Strip(s) == "" <==> Squeeze(s) == ""
  {
    var from, to := StripFacts(s);
    assert Squeeze("") == "";
    if Squeeze(s) == "" {
      assert "" + s == s;
      StripLength("", s);
    }
  }

  /** Without overlap the chunks themselves hold the page's text, each character once. */
  lemma NoOverlapNoRepetition(text: string, maxChars: int)
    requires maxChars >= 1
    ensures Content(PageTexts(text, maxChars, 0)) == Squeeze(text)
  {
    var bodies := PageIsCovered(text, maxChars, 0);
    SameContent(PageTexts(text, maxChars, 0), bodies);
  }

  lemma EmptyCarry(previous: string, text: string, body: string)
    requires |body| <= |text| && IsWindow(previous, text, |text| - |body|, body, 0)
    ensures text == body
  {
    assert text[0..] == text;
  }

  lemma {:induction false} SameContent(texts: seq<string>, bodies: seq<string>)
    requires AreWindows(texts, bodies, 0)
    ensures Content(texts) == Content(bodies)
  {
    if texts != [] {
      var n, m := |texts| - 1, |bodies| - 1;
      SameContent(texts[..n], bodies[..m]);
      EmptyCarry(LastText(texts[..n]), texts[n], bodies[m]);
    }
  }

  // ------------------------------------------------------------- all pages

  /** The texts that one page contributes. */
  datatype PageRun = PageRun(texts: seq<string>, page: int)

  function RunsOf(pages: seq<LoadedPage>, maxChars: int, overlap: int): seq<PageRun>
    requires maxChars >= 1
  {
    if pages == [] then []
    else
      var page := pages[|pages| - 1];
      RunsOf(pages[..|pages| - 1], maxChars, overlap) + [PageRun(PageTexts(page.text, maxChars, overlap), page.pageNumber)]
  }

  /** The chunks of the runs, numbered through. */
  function NumberedThrough(runs: seq<PageRun>): seq<TextChunk> {
    if runs == [] then []
    else
      var before, last := NumberedThrough(runs[..|runs| - 1]), runs[|runs| - 1];
      before + Labelled(last.texts, |before|, last.page)
  }

  /** The chunks of a document. */
  function DocumentChunks(pages: seq<LoadedPage>, maxChars: int, overlap: int): seq<TextChunk>
    requires maxChars >= 1
  {
    NumberedThrough(RunsOf(pages, maxChars, overlap))
  }

  method ChunkDocument(pages: seq<LoadedPage>, maxChars: int, overlap: int) returns (chunks: seq<TextChunk>)
    requires maxChars >= 1
    ensures chunks == DocumentChunks(pages, maxChars, overlap)
  {
    chunks := [];
    ghost var runs: seq<PageRun> := [];
    var index := 0;
    var p := 0;
    while p < |pages|
      invariant 0 <= p <= |pages| && index == |chunks|
      invariant runs == RunsOf(pages[..p], maxChars, overlap) && chunks == NumberedThrough(runs)
    {
      assert pages[..p + 1][..p] == pages[..p];
      ghost var run := PageRun(PageTexts(pages[p].text, maxChars, overlap), pages[p].pageNumber);
      assert (runs + [run])[..|runs|] == runs;
      var added := ChunkPage(pages[p], index, maxChars, overlap);
      chunks := chunks + added;
      index := index + |added|;
      runs := runs + [run];
      p := p + 1;
    }
    assert pages[..p] == pages;
  }

  /** Chunk number k is one of the texts of run p, and lies where the chunks of that run lie. */
  ghost predicate IsPlaced(runs: seq<PageRun>, p: nat, k: nat) {
    && p < |runs| && k < |NumberedThrough(runs)|
    && NumberedThrough(runs)[k].chunkIndex == k && NumberedThrough(runs)[k].page == runs[p].page
    && NumberedThrough(runs)[k].text in runs[p].texts
    && |NumberedThrough(runs[..p])| <= k < |NumberedThrough(runs[..p + 1])|
  }

  lemma {:induction false} EveryChunkIsPlaced(runs: seq<PageRun>, k: nat) returns (p: nat)
    requires k < |NumberedThrough(runs)|
    ensures IsPlaced(runs, p, k)
  {
    var n := |runs| - 1;
    var before := NumberedThrough(runs[..n]);
    if k < |before| {
      p := EveryChunkIsPlaced(runs[..n], k);
      assert runs[..n][..p] == runs[..p] && runs[..n][..p + 1] == runs[..p + 1];
    } else {
      p := n;
      assert runs[..n + 1] == runs;
      LabelledAt(runs[n].texts, |before|, runs[n].page, k - |before|);
    }
  }

  lemma {:induction false} RunAt(pages: seq<LoadedPage>, maxChars: int, overlap: int, p: nat)
    requires maxChars >= 1 && p < |pages|
    ensures |RunsOf(pages, maxChars, overlap)| == |pages|
    ensures RunsOf(pages, maxChars, overlap)[p] == PageRun(PageTexts(pages[p].text, maxChars, overlap), pages[p].pageNumber)
  {
    RunsLength(pages, maxChars, overlap);
    if p < |pages| - 1 {
      RunAt(pages[..|pages| - 1], maxChars, overlap, p);
    } else {
      RunsLength(pages[..p], maxChars, overlap);
    }
  }

  lemma {:induction false} RunsLength(pages: seq<LoadedPage>, maxChars: int, overlap: int)
    requires maxChars >= 1
    ensures |RunsOf(pages, maxChars, overlap)| == |pages|
  {
    if pages != [] {
      RunsLength(pages[..|pages| - 1], maxChars, overlap);
    }
  }

  /** No chunk is longer than maxChars or empty, the chunks are numbered 0, 1, 2, ... across the pages, each is a text of
      one page, and the chunks of a page follow those of the pages before it. */
  lemma ChunkShape(pages: seq<LoadedPage>, maxChars: int, overlap: int, k: nat) returns (p: nat)
    requires maxChars >= 1 && k < |DocumentChunks(pages, maxChars, overlap)|
    ensures p < |pages| && IsPlaced(RunsOf(pages, maxChars, overlap), p, k)
    ensures RunsOf(pages, maxChars, overlap)[p] == PageRun(PageTexts(pages[p].text, maxChars, overlap), pages[p].pageNumber)
    ensures 0 < |DocumentChunks(pages, maxChars, overlap)[k].text| <= maxChars
  {
    p := EveryChunkIsPlaced(RunsOf(pages, maxChars, overlap), k);
    RunsLength(pages, maxChars, overlap);
    RunAt(pages, maxChars, overlap, p);
    var bodies := PageIsCovered(pages[p].text, maxChars, overlap);
  }

  /** A page has a chunk exactly when its text is not all whitespace. */
  lemma PageHasChunk(pages: seq<LoadedPage>, maxChars: int, overlap: int, p: nat)
    requires maxChars >= 1 && p < |pages|
    ensures |RunsOf(pages, maxChars, overlap)| == |pages|
    ensures RunsOf(pages, maxChars, overlap)[p].page == pages[p].pageNumber
    ensures RunsOf(pages, maxChars, overlap)[p].texts != [] <==> Squeeze(pages[p].text) != ""
  {
    RunAt(pages, maxChars, overlap, p);
    var bodies := PageIsCovered(pages[p].text, maxChars, overlap);
  }
}
