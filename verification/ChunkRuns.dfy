/** Which pieces make up which chunk, stated on the texts alone: chunks are maximal runs of pieces, and each begins with the
    end of the chunk before it. */
module ChunkRuns {
  import opened Util
  import opened Text
  import opened Chunking
  import opened ChunkPages

  /** A text with further parts put behind it one by one, each behind the gap and the whole stripped. */
  function JoinedBy(start: string, gap: string, parts: seq<string>): string {
    if parts == [] then start
    else
      var before := JoinedBy(start, gap, parts[..|parts| - 1]);
      if before == "" then parts[|parts| - 1] else Strip(before + gap + parts[|parts| - 1])
  }

  /** The last characters of the text before, as many as the overlap says. */
  function Tail(previous: string, overlap: int): string {
    if overlap == 0 then ""
    else if overlap > 0 then previous[if overlap < |previous| then |previous| - overlap else 0..]
    else previous[if -overlap < |previous| then -overlap else |previous|..]
  }

  /** How a chunk starts behind another: with its tail, a blank line and the piece, if they fit together. */
  function StartAfter(previous: string, piece: string, maxChars: int, overlap: int): string {
    var tail := Tail(previous, overlap);
    if overlap != 0 && |tail| + 2 + |piece| <= maxChars then tail + "\n\n" + piece else piece
  }

  /** The text of the run of pieces from one position to another. */
  function RunText(before: seq<string>, pieces: seq<string>, from: nat, to: nat, maxChars: int, overlap: int): string
    requires from <= to <= |pieces|
  {
    if before == [] then JoinedBy("", "\n\n", pieces[from..to])
    else if from == to then ""
    else JoinedBy(StartAfter(before[|before| - 1], pieces[from], maxChars, overlap), "\n\n", pieces[from + 1..to])
  }

  /** The texts stand for runs of pieces between the cuts, and no run could take one more piece. */
  ghost predicate AreRuns(texts: seq<string>, cuts: seq<nat>, pieces: seq<string>, maxChars: int, overlap: int) {
    && |cuts| == |texts| + 1 && cuts[0] == 0
    && forall k :: 0 <= k < |texts| ==> IsRun(texts, cuts, pieces, k, maxChars, overlap)
  }

  ghost predicate IsRun(texts: seq<string>, cuts: seq<nat>, pieces: seq<string>, k: nat, maxChars: int, overlap: int)
    requires k < |texts| && |cuts| == |texts| + 1
  {
    && cuts[k] < cuts[k + 1] <= |pieces|
    && texts[k] == RunText(texts[..k], pieces, cuts[k], cuts[k + 1], maxChars, overlap)
    && (cuts[k + 1] < |pieces| ==> |Strip(texts[k] + "\n\n" + pieces[cuts[k + 1]])| > maxChars && Squeeze(pieces[cuts[k + 1]]) != "")
  }

  /** Finished runs, and a buffer that holds the run since the last cut. */
  ghost predicate Runs(p: Packer, cuts: seq<nat>, pieces: seq<string>, n: nat, maxChars: int, overlap: int)
    requires n <= |pieces|
  {
    && AreRuns(p.done, cuts, pieces, maxChars, overlap)
    && cuts[|p.done|] <= n && (cuts[|p.done|] == n ==> n == 0)
    && p.buffer == RunText(p.done, pieces, cuts[|p.done|], n, maxChars, overlap)
  }

  lemma RestartIsStart(emitted: string, piece: string, overlap: int, maxChars: int)
    ensures Restart(emitted, piece, overlap, maxChars) == StartAfter(emitted, piece, maxChars, overlap)
  {
  }

  lemma JoinedOnce(start: string, gap: string, parts: seq<string>, part: string)
    ensures JoinedBy(start, gap, parts + [part]) == Joined(JoinedBy(start, gap, parts), gap, part)
  {
    Appended(parts, part);
  }

  lemma RunGrows(before: seq<string>, pieces: seq<string>, from: nat, n: nat, maxChars: int, overlap: int)
    requires from <= n < |pieces| && (from == n ==> before == [])
    ensures RunText(before, pieces, from, n + 1, maxChars, overlap) ==
            Joined(RunText(before, pieces, from, n, maxChars, overlap), "\n\n", pieces[n])
  {
    if before == [] {
      assert pieces[from..n + 1] == pieces[from..n] + [pieces[n]];
      JoinedOnce("", "\n\n", pieces[from..n], pieces[n]);
    } else {
      assert pieces[from + 1..n + 1] == pieces[from + 1..n] + [pieces[n]];
      JoinedOnce(StartAfter(before[|before| - 1], pieces[from], maxChars, overlap), "\n\n", pieces[from + 1..n], pieces[n]);
    }
  }

  lemma {:induction false} PackedRuns(pieces: seq<string>, n: nat, maxChars: int, overlap: int) returns (cuts: seq<nat>)
    requires maxChars >= 1 && Fit(pieces, maxChars) && n <= |pieces|
    ensures Runs(Packed(pieces[..n], maxChars, overlap), cuts, pieces, n, maxChars, overlap)
  {
    if n == 0 {
      cuts := [0];
    } else {
      cuts := PackedRuns(pieces, n - 1, maxChars, overlap);
      PackedFits(pieces, n - 1, maxChars, overlap);
      cuts := OneMorePiece(Packed(pieces[..n - 1], maxChars, overlap), cuts, pieces, n - 1, maxChars, overlap);
      PackedStep(pieces, n - 1, maxChars, overlap);
    }
  }

  lemma PackedStep(pieces: seq<string>, n: nat, maxChars: int, overlap: int)
    requires n < |pieces|
    ensures Packed(pieces[..n + 1], maxChars, overlap) == PackOne(Packed(pieces[..n], maxChars, overlap), pieces[n], maxChars, overlap)
  {
    assert pieces[..n + 1][..n] == pieces[..n];
  }

  lemma PackedFits(pieces: seq<string>, n: nat, maxChars: int, overlap: int)
    requires maxChars >= 1 && Fit(pieces, maxChars) && n <= |pieces|
    ensures |Packed(pieces[..n], maxChars, overlap).buffer| <= maxChars
  {
    var bodies, carried := PackedPacks(pieces[..n], maxChars, overlap);
  }

  lemma OneMorePiece(p: Packer, cuts: seq<nat>, pieces: seq<string>, n: nat, maxChars: int, overlap: int) returns (cuts': seq<nat>)
    requires n < |pieces| && Runs(p, cuts, pieces, n, maxChars, overlap) && |p.buffer| <= maxChars && |pieces[n]| <= maxChars
    ensures Runs(PackOne(p, pieces[n], maxChars, overlap), cuts', pieces, n + 1, maxChars, overlap)
  {
    if |Joined(p.buffer, "\n\n", pieces[n])| <= maxChars {
      cuts' := cuts;
      assert p.done != [] ==> IsRun(p.done, cuts, pieces, |p.done| - 1, maxChars, overlap);
      RunGrows(p.done, pieces, cuts[|p.done|], n, maxChars, overlap);
    } else {
      cuts' := cuts + [n];
      NotBlank(p.buffer, pieces[n], maxChars);
      RunEmitted(p, cuts, pieces, n, maxChars, overlap);
      RestartIsStart(p.buffer, pieces[n], overlap, maxChars);
      assert pieces[n + 1..n + 1] == [];
    }
  }

  /** The buffer is empty before the first piece. */
  lemma NothingYet(p: Packer, cuts: seq<nat>, pieces: seq<string>, n: nat, maxChars: int, overlap: int)
    requires n <= |pieces| && Runs(p, cuts, pieces, n, maxChars, overlap) && p.buffer != ""
    ensures cuts[|p.done|] < n
  {
    if n == 0 {
      assert pieces[0..0] == [];
    }
  }

  lemma RunEmitted(p: Packer, cuts: seq<nat>, pieces: seq<string>, n: nat, maxChars: int, overlap: int)
    requires n < |pieces| && Runs(p, cuts, pieces, n, maxChars, overlap) && p.buffer != "" && Squeeze(pieces[n]) != ""
    requires |Strip(p.buffer + "\n\n" + pieces[n])| > maxChars
    ensures AreRuns(p.done + [p.buffer], cuts + [n], pieces, maxChars, overlap)
  {
    var texts, all := p.done + [p.buffer], cuts + [n];
    forall k | 0 <= k < |texts| ensures IsRun(texts, all, pieces, k, maxChars, overlap) {
      if k < |p.done| {
        assert IsRun(p.done, cuts, pieces, k, maxChars, overlap) && texts[..k] == p.done[..k];
      } else {
        assert texts[..k] == p.done;
        NothingYet(p, cuts, pieces, n, maxChars, overlap);
      }
    }
  }

  /** A page's chunks are maximal runs of its pieces: each starts behind the one before as StartAfter says and takes up
      pieces as long as the joined and stripped text fits, to the last piece of the page. */
  lemma PageRuns(text: string, maxChars: int, overlap: int) returns (cuts: seq<nat>)
    requires maxChars >= 1 && Strip(text) != ""
    ensures var pieces := AllPieces(ParagraphsFrom(text, 0, 0), maxChars);
            var texts := PageTexts(text, maxChars, overlap);
            AreRuns(texts, cuts, pieces, maxChars, overlap) && cuts[|texts|] == |pieces|
  {
    var pieces := AllPieces(ParagraphsFrom(text, 0, 0), maxChars);
    PagePiecesFit(text, maxChars);
    BlankStrips(text);
    cuts := PackedRuns(pieces, |pieces|, maxChars, overlap);
    assert pieces[..|pieces|] == pieces;
    var p := Packed(pieces, maxChars, overlap);
    BufferHolds(pieces, maxChars, overlap);
    cuts := LastRun(p, cuts, pieces, maxChars, overlap);
    PageTextsOf(text, pieces, maxChars, overlap);
  }

  lemma LastRun(p: Packer, cuts: seq<nat>, pieces: seq<string>, maxChars: int, overlap: int) returns (cuts': seq<nat>)
    requires Runs(p, cuts, pieces, |pieces|, maxChars, overlap) && p.buffer != ""
    ensures AreRuns(p.done + [p.buffer], cuts', pieces, maxChars, overlap) && cuts'[|p.done| + 1] == |pieces|
  {
    var texts := p.done + [p.buffer];
    cuts' := cuts + [|pieces|];
    forall k | 0 <= k < |texts| ensures IsRun(texts, cuts', pieces, k, maxChars, overlap) {
      if k < |p.done| {
        assert IsRun(p.done, cuts, pieces, k, maxChars, overlap) && texts[..k] == p.done[..k];
      } else {
        assert texts[..k] == p.done;
        NothingYet(p, cuts, pieces, |pieces|, maxChars, overlap);
      }
    }
  }

  /** The buffer is not blank once there is anything to hold. */
  lemma {:induction false} BufferHolds(pieces: seq<string>, maxChars: int, overlap: int)
    requires maxChars >= 1 && Fit(pieces, maxChars)
    ensures Content(pieces) != "" ==> Packed(pieces, maxChars, overlap).buffer != ""
    ensures Content(pieces) != "" ==> Squeeze(Packed(pieces, maxChars, overlap).buffer) != ""
  {
    if pieces != [] {
      var init, piece := pieces[..|pieces| - 1], pieces[|pieces| - 1];
      BufferHolds(init, maxChars, overlap);
      var bodies, carried := PackedPacks(init, maxChars, overlap);
      var p := Packed(init, maxChars, overlap);
      NewlinesAreBlank();
      Glue(p.buffer, "\n\n", piece);
      if |Joined(p.buffer, "\n\n", piece)| > maxChars {
        NotBlank(p.buffer, piece, maxChars);
        var left := RestartFacts(p.buffer, piece, overlap, maxChars);
        SqueezeCut(Restart(p.buffer, piece, overlap, maxChars), left);
      }
    }
  }

  // -------------------------------------------------------- how chunks begin

  lemma {:induction false} NotBlankMeans(s: string) returns (i: nat)
    requires Squeeze(s) != ""
    ensures i < |s| && !IsSpace(s[i])
  {
    var n := |s| - 1;
    if IsSpace(s[n]) {
      i := NotBlankMeans(s[..n]);
    } else {
      i := n;
    }
  }

  /** Everything outside a slice is space, and the slice neither begins nor ends with one. */
  ghost predicate IsTrim(s: string, from: nat, to: nat) {
    && from <= to <= |s| && (forall i :: 0 <= i < from || to <= i < |s| ==> IsSpace(s[i]))
    && (from < to ==> !IsSpace(s[from]) && !IsSpace(s[to - 1]))
  }

  lemma Inside(s: string, from: nat, to: nat, i: nat)
    requires IsTrim(s, from, to) && i < |s| && !IsSpace(s[i])
    ensures from <= i < to
  {
  }

  lemma BeginsAt(s: string, from: nat, to: nat, a: nat)
    requires IsTrim(s, from, to) && a < |s| && !IsSpace(s[a]) && forall i :: 0 <= i < a ==> IsSpace(s[i])
    ensures from == a
  {
    Inside(s, from, to, a);
  }

  lemma SliceOfFirst(x: string, y: string, a: nat, b: nat, d: nat)
    requires a <= b <= |x| && b <= d <= |x + y|
    ensures x[a..b] <= (x + y)[a..d]
  {
  }

  /** What follows a text that is not blank does not change where it begins once stripped. */
  lemma StripPrefix(x: string, y: string, i: nat)
    requires i < |x| && !IsSpace(x[i])
    ensures Strip(x) <= Strip(x + y)
  {
    var a, b := TrimMeans(x, IsSpace);
    var c, d := TrimMeans(x + y, IsSpace);
    Inside(x, a, b, i);
    assert (x + y)[a] == x[a] && (x + y)[b - 1] == x[b - 1];
    assert forall k :: 0 <= k < a ==> (x + y)[k] == x[k];
    BeginsAt(x + y, c, d, a);
    Inside(x + y, c, d, b - 1);
    SliceOfFirst(x, y, a, b, d);
  }

  lemma StripOfStripped(x: string, y: string, i: nat)
    requires i < |x| && !IsSpace(x[i]) && Strip(x) <= y
    ensures Strip(x) <= Strip(y)
  {
    var a, b := TrimMeans(x, IsSpace);
    var s := Strip(x);
    Inside(x, a, b, i);
    assert s[0] == x[a] && s[|s| - 1] == x[b - 1];
    var c, d := TrimMeans(s, IsSpace);
    Inside(s, c, d, 0);
    Inside(s, c, d, |s| - 1);
    assert s[0..|s|] == s;
    StripPrefix(s, y[|s|..], 0);
    assert s + y[|s|..] == y;
  }

  /** A run begins with its start: unchanged if nothing follows, stripped if something does. */
  lemma {:induction false} RunBegins(start: string, gap: string, parts: seq<string>)
    requires Squeeze(start) != ""
    ensures JoinedBy(start, gap, parts) == start || Strip(start) <= JoinedBy(start, gap, parts)
  {
    if parts != [] {
      var before, last := JoinedBy(start, gap, parts[..|parts| - 1]), parts[|parts| - 1];
      var i := NotBlankMeans(start);
      RunBegins(start, gap, parts[..|parts| - 1]);
      if before == start {
        StripPrefix(start, gap + last, i);
        assert start + (gap + last) == start + gap + last;
      } else {
        StrippedIsNotEmpty(start, i);
        assert Strip(start) <= before + gap + last;
        StripOfStripped(start, before + gap + last, i);
      }
    }
  }

  lemma StrippedIsNotEmpty(s: string, i: nat)
    requires i < |s| && !IsSpace(s[i])
    ensures Strip(s) != ""
  {
    var a, b := TrimMeans(s, IsSpace);
  }

  /** A chunk begins with the last characters of the chunk before, as many as the overlap says or that chunk has, then a
      blank line and the piece that the chunk before had no room for, if all that fits, and with that piece otherwise. If
      more pieces follow, whitespace in front of this start, and behind it, may be gone. */
  ghost predicate BeginsBehind(previous: string, chunk: string, piece: string, maxChars: int, overlap: nat) {
    var tail := if overlap < |previous| then previous[|previous| - overlap..] else previous;
    var start := if |tail| + 2 + |piece| <= maxChars then tail + "\n\n" + piece else piece;
    && |Strip(previous + "\n\n" + piece)| > maxChars
    && (chunk == start || Strip(start) <= chunk)
  }

  /** Every chunk of a page after the first begins behind the one before it. */
  lemma ChunkBeginsWithOverlap(text: string, maxChars: int, overlap: nat, k: nat) returns (piece: string)
    requires maxChars >= 1 && overlap > 0 && 0 < k < |PageTexts(text, maxChars, overlap)|
    ensures piece in AllPieces(ParagraphsFrom(text, 0, 0), maxChars)
    ensures BeginsBehind(PageTexts(text, maxChars, overlap)[k - 1], PageTexts(text, maxChars, overlap)[k], piece, maxChars, overlap)
  {
    var cuts := PageRuns(text, maxChars, overlap);
    piece := RunBeginsBehind(PageTexts(text, maxChars, overlap), cuts, AllPieces(ParagraphsFrom(text, 0, 0), maxChars), k, maxChars, overlap);
  }

  /** The same for two neighbouring chunks of a page as they are emitted. */
  lemma EmittedChunkBegins(page: LoadedPage, first: nat, maxChars: int, overlap: nat, k: nat) returns (piece: string)
    requires maxChars >= 1 && overlap > 0 && 0 < k < |PageTexts(page.text, maxChars, overlap)|
    ensures piece in AllPieces(ParagraphsFrom(page.text, 0, 0), maxChars)
    ensures var chunks := Labelled(PageTexts(page.text, maxChars, overlap), first, page.pageNumber);
            BeginsBehind(chunks[k - 1].text, chunks[k].text, piece, maxChars, overlap)
  {
    piece := ChunkBeginsWithOverlap(page.text, maxChars, overlap, k);
    LabelsKeepTexts(PageTexts(page.text, maxChars, overlap), first, page.pageNumber, k);
  }

  lemma LabelsKeepTexts(texts: seq<string>, first: nat, page: int, k: nat)
    requires 0 < k < |texts|
    ensures Labelled(texts, first, page)[k - 1].text == texts[k - 1] && Labelled(texts, first, page)[k].text == texts[k]
  {
    LabelledAt(texts, first, page, k - 1);
    LabelledAt(texts, first, page, k);
  }

  lemma RunBeginsBehind(texts: seq<string>, cuts: seq<nat>, pieces: seq<string>, k: nat, maxChars: int, overlap: nat) returns (piece: string)
    requires overlap > 0 && 0 < k < |texts| && AreRuns(texts, cuts, pieces, maxChars, overlap)
    ensures piece in pieces && BeginsBehind(texts[k - 1], texts[k], piece, maxChars, overlap)
  {
    assert IsRun(texts, cuts, pieces, k - 1, maxChars, overlap) && IsRun(texts, cuts, pieces, k, maxChars, overlap);
    piece := pieces[cuts[k]];
    var start := StartAfter(texts[k - 1], piece, maxChars, overlap);
    if start != piece {
      SqueezeConcat(Tail(texts[k - 1], overlap) + "\n\n", piece);
    }
    assert texts[..k][k - 1] == texts[k - 1];
    RunBegins(start, "\n\n", pieces[cuts[k] + 1..cuts[k + 1]]);
  }
}
