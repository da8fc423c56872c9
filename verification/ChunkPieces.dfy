/** Where paragraphs and sentences are split, and which pieces a paragraph gives. */
module ChunkPieces {
  import opened Util
  import opened Text
  import opened Chunking
  import opened ChunkRuns

  // ------------------------------------------------------------- paragraphs

  /** A newline at i, another at j, and only whitespace between. */
  ghost predicate IsBreak(t: string, i: nat, j: nat) {
    i < j < |t| && t[i] == '\n' && t[j] == '\n' && forall k :: i < k < j ==> IsSpace(t[k])
  }

  ghost predicate NoBreakFrom(t: string, from: nat, to: nat) {
    forall i, j :: from <= i < to ==> !IsBreak(t, i, j)
  }

  /** Paragraphs end where the first break begins, and the next one begins behind the longest break from there. */
  ghost predicate IsParagraphSplit(t: string, start: nat, pieces: seq<string>)
    requires start <= |t|
    decreases |pieces|
  {
    pieces != [] &&
    if |pieces| == 1 then pieces[0] == t[start..] && NoBreakFrom(t, start, |t|)
    else
      exists p, n :: start <= p < n <= |t| && pieces[0] == t[start..p] && IsSeparator(t, start, p, n) && IsParagraphSplit(t, n, pieces[1..])
  }

  ghost predicate IsSeparator(t: string, start: nat, p: nat, n: nat)
    requires p < n <= |t|
  {
    NoBreakFrom(t, start, p) && IsBreak(t, p, n - 1) && forall j :: n <= j ==> !IsBreak(t, p, j)
  }

  lemma NewlineIsSpace()
    ensures IsSpace('\n')
  {
    IsSpaceMeans('\n');
  }

  lemma {:induction false} SpaceEndMeans(t: string, p: nat)
    requires p <= |t|
    ensures forall k :: p <= k < SpaceEnd(t, p) ==> IsSpace(t[k])
    ensures SpaceEnd(t, p) < |t| ==> !IsSpace(t[SpaceEnd(t, p)])
    decreases |t| - p
  {
    if p < |t| && IsSpace(t[p]) {
      SpaceEndMeans(t, p + 1);
    }
  }

  lemma {:induction false} LastNewlineMeans(t: string, p: nat, e: nat)
    requires p <= e <= |t|
    ensures var n := AfterLastNewline(t, p, e);
            (n > p ==> t[n - 1] == '\n') && forall k :: n <= k < e ==> t[k] != '\n'
    decreases e - p
  {
    if p < e && t[e - 1] != '\n' {
      LastNewlineMeans(t, p, e - 1);
    }
  }

  /** The breaks that begin at p end at the newlines of the whitespace that follows. */
  lemma BreaksFrom(t: string, p: nat, j: nat)
    requires p < |t| && t[p] == '\n'
    ensures IsBreak(t, p, j) <==> p < j < SpaceEnd(t, p + 1) && t[j] == '\n'
  {
    var e := SpaceEnd(t, p + 1);
    SpaceEndMeans(t, p + 1);
    NewlineIsSpace();
    if e <= j < |t| && t[j] == '\n' {
      assert e < |t| && !IsSpace(t[e]);
    }
  }

  lemma LongestBreak(t: string, p: nat)
    requires p < |t| && t[p] == '\n'
    ensures var n := AfterLastNewline(t, p + 1, SpaceEnd(t, p + 1));
            if n > p + 1 then IsBreak(t, p, n - 1) && forall j :: n <= j ==> !IsBreak(t, p, j)
            else forall j :: !IsBreak(t, p, j)
  {
    var e := SpaceEnd(t, p + 1);
    var n := AfterLastNewline(t, p + 1, e);
    LastNewlineMeans(t, p + 1, e);
    forall j: nat ensures IsBreak(t, p, j) <==> p < j < e && t[j] == '\n' {
      BreaksFrom(t, p, j);
    }
  }

  lemma {:induction false} ParagraphsAreSplit(t: string, start: nat, p: nat)
    requires start <= p <= |t| && NoBreakFrom(t, start, p)
    ensures IsParagraphSplit(t, start, ParagraphsFrom(t, start, p))
    decreases |t| - p
  {
    if p < |t| {
      if t[p] == '\n' {
        LongestBreak(t, p);
        var n := AfterLastNewline(t, p + 1, SpaceEnd(t, p + 1));
        if n > p + 1 {
          ParagraphsAreSplit(t, n, n);
          SplitOnce(t, start, p, n, ParagraphsFrom(t, n, n));
        } else {
          ParagraphsAreSplit(t, start, p + 1);
        }
      } else {
        ParagraphsAreSplit(t, start, p + 1);
      }
    }
  }

  lemma SplitOnce(t: string, start: nat, p: nat, n: nat, rest: seq<string>)
    requires start <= p < n <= |t| && IsSeparator(t, start, p, n) && IsParagraphSplit(t, n, rest)
    ensures IsParagraphSplit(t, start, [t[start..p]] + rest)
  {
    var pieces := [t[start..p]] + rest;
    assert pieces[1..] == rest && pieces[0] == t[start..p];
  }

  // -------------------------------------------------------------- sentences

  /** Whitespace right behind a full stop, an exclamation or a question mark. */
  predicate IsPause(t: string, i: nat) {
    0 < i < |t| && (t[i - 1] == '.' || t[i - 1] == '!' || t[i - 1] == '?') && IsSpace(t[i])
  }

  ghost predicate NoPauseFrom(t: string, from: nat, to: nat) {
    forall i :: from <= i < to ==> !IsPause(t, i)
  }

  /** Sentences end at the first pause, and the next one begins behind all its whitespace. */
  ghost predicate IsSentenceSplit(t: string, start: nat, pieces: seq<string>)
    requires start <= |t|
    decreases |pieces|
  {
    pieces != [] &&
    if |pieces| == 1 then pieces[0] == t[start..] && NoPauseFrom(t, start, |t|)
    else
      exists p, n :: start <= p < n <= |t| && pieces[0] == t[start..p] && IsSentenceGap(t, start, p, n) && IsSentenceSplit(t, n, pieces[1..])
  }

  ghost predicate IsSentenceGap(t: string, start: nat, p: nat, n: nat)
    requires p < n <= |t|
  {
    NoPauseFrom(t, start, p) && IsPause(t, p) && (forall k :: p <= k < n ==> IsSpace(t[k])) && (n < |t| ==> !IsSpace(t[n]))
  }

  lemma {:induction false} SentencesAreSplit(t: string, start: nat, p: nat)
    requires start <= p <= |t| && NoPauseFrom(t, start, p)
    ensures IsSentenceSplit(t, start, SentencesFrom(t, start, p))
    decreases |t| - p
  {
    if p < |t| {
      if IsPause(t, p) {
        var n := SpaceEnd(t, p + 1);
        SpaceEndMeans(t, p + 1);
        SentencesAreSplit(t, n, n);
        SentenceOnce(t, start, p, n, SentencesFrom(t, n, n));
      } else {
        SentencesAreSplit(t, start, p + 1);
      }
    }
  }

  lemma SentenceOnce(t: string, start: nat, p: nat, n: nat, rest: seq<string>)
    requires start <= p < n <= |t| && IsSentenceGap(t, start, p, n) && IsSentenceSplit(t, n, rest)
    ensures IsSentenceSplit(t, start, [t[start..p]] + rest)
  {
    var pieces := [t[start..p]] + rest;
    assert pieces[1..] == rest && pieces[0] == t[start..p];
  }

  /** The splitters of a whole text. */
  lemma Splitters(t: string)
    ensures IsParagraphSplit(t, 0, ParagraphsFrom(t, 0, 0)) && IsSentenceSplit(t, 0, SentencesFrom(t, 0, 0))
  {
    ParagraphsAreSplit(t, 0, 0);
    SentencesAreSplit(t, 0, 0);
  }

  // ------------------------------------------------------- packing sentences

  /** Finished texts stand for maximal runs of sentences, joined by blanks: no finished text could take the next sentence,
      and within a run every sentence fitted when it was added. */
  ghost predicate AreSentenceRuns(texts: seq<string>, cuts: seq<nat>, sentences: seq<string>, maxChars: int) {
    && |cuts| == |texts| + 1 && cuts[0] == 0
    && forall k :: 0 <= k < |texts| ==> IsSentenceRun(texts[k], cuts[k], cuts[k + 1], sentences, maxChars)
  }

  ghost predicate IsSentenceRun(text: string, from: nat, to: nat, sentences: seq<string>, maxChars: int) {
    && from < to <= |sentences| && text != "" && text == JoinedBy("", " ", sentences[from..to])
    && AllFitted(from, to, sentences, maxChars)
    && (to < |sentences| ==> |Strip(text + " " + sentences[to])| > maxChars)
  }

  ghost predicate AllFitted(from: nat, to: nat, sentences: seq<string>, maxChars: int)
    requires from <= to <= |sentences|
  {
    forall m :: from < m < to ==> FittedAt(from, m, sentences, maxChars)
  }

  ghost predicate FittedAt(from: nat, m: nat, sentences: seq<string>, maxChars: int)
    requires from <= m < |sentences|
  {
    JoinedBy("", " ", sentences[from..m]) == "" || |JoinedBy("", " ", sentences[from..m + 1])| <= maxChars
  }

  ghost predicate SentenceRuns(b: Builder, cuts: seq<nat>, sentences: seq<string>, n: nat, maxChars: int)
    requires n <= |sentences|
  {
    && AreSentenceRuns(b.done, cuts, sentences, maxChars)
    && cuts[|b.done|] <= n && b.current == JoinedBy("", " ", sentences[cuts[|b.done|]..n])
    && AllFitted(cuts[|b.done|], n, sentences, maxChars)
  }

  lemma {:induction false} GluedRuns(sentences: seq<string>, n: nat, maxChars: int) returns (cuts: seq<nat>)
    requires n <= |sentences|
    ensures SentenceRuns(Glued(sentences[..n], maxChars), cuts, sentences, n, maxChars)
  {
    if n == 0 {
      cuts := [0];
      assert sentences[0..0] == [];
    } else {
      cuts := GluedRuns(sentences, n - 1, maxChars);
      GluedStep(sentences, n - 1, maxChars);
      cuts := OneMoreSentence(Glued(sentences[..n - 1], maxChars), cuts, sentences, n - 1, maxChars);
    }
  }

  lemma OneMoreSentence(b: Builder, cuts: seq<nat>, sentences: seq<string>, n: nat, maxChars: int) returns (cuts': seq<nat>)
    requires n < |sentences| && SentenceRuns(b, cuts, sentences, n, maxChars)
    ensures SentenceRuns(GlueOne(b, sentences[n], maxChars), cuts', sentences, n + 1, maxChars)
  {
    if |Joined(b.current, " ", sentences[n])| > maxChars && b.current != "" {
      cuts' := cuts + [n];
      NoSentenceYet(b, cuts, sentences, n, maxChars);
      SentenceRunEmitted(b, cuts, sentences, n, maxChars);
      LoneSentence(sentences, n, maxChars);
    } else {
      cuts' := cuts;
      RunTakesSentence(sentences, cuts[|b.done|], n, maxChars);
    }
  }

  lemma LoneSentence(sentences: seq<string>, n: nat, maxChars: int)
    requires n < |sentences|
    ensures JoinedBy("", " ", sentences[n..n + 1]) == sentences[n] && AllFitted(n, n + 1, sentences, maxChars)
  {
    JoinedOnce("", " ", [], sentences[n]);
    assert sentences[n..n + 1] == [] + [sentences[n]];
  }

  lemma RunTakesSentence(sentences: seq<string>, from: nat, n: nat, maxChars: int)
    requires from <= n < |sentences| && AllFitted(from, n, sentences, maxChars)
    requires var before := JoinedBy("", " ", sentences[from..n]);
             before == "" || |Joined(before, " ", sentences[n])| <= maxChars
    ensures JoinedBy("", " ", sentences[from..n + 1]) == Joined(JoinedBy("", " ", sentences[from..n]), " ", sentences[n])
    ensures AllFitted(from, n + 1, sentences, maxChars)
  {
    OneMoreJoined(sentences, from, n);
    OneMoreFits(sentences, from, n, maxChars);
  }

  lemma OneMoreFits(sentences: seq<string>, from: nat, n: nat, maxChars: int)
    requires from <= n < |sentences| && AllFitted(from, n, sentences, maxChars) && FittedAt(from, n, sentences, maxChars)
    ensures AllFitted(from, n + 1, sentences, maxChars)
  {
  }

  lemma OneMoreJoined(sentences: seq<string>, from: nat, n: nat)
    requires from <= n < |sentences|
    ensures JoinedBy("", " ", sentences[from..n + 1]) == Joined(JoinedBy("", " ", sentences[from..n]), " ", sentences[n])
  {
    assert sentences[from..n + 1] == sentences[from..n] + [sentences[n]];
    JoinedOnce("", " ", sentences[from..n], sentences[n]);
  }

  /** Nothing is held before the first sentence since the last cut. */
  lemma NoSentenceYet(b: Builder, cuts: seq<nat>, sentences: seq<string>, n: nat, maxChars: int)
    requires n <= |sentences| && SentenceRuns(b, cuts, sentences, n, maxChars) && b.current != ""
    ensures cuts[|b.done|] < n
  {
    assert sentences[n..n] == [];
  }

  lemma SentenceRunEmitted(b: Builder, cuts: seq<nat>, sentences: seq<string>, n: nat, maxChars: int)
    requires n <= |sentences| && SentenceRuns(b, cuts, sentences, n, maxChars) && b.current != "" && cuts[|b.done|] < n
    requires n < |sentences| ==> |Strip(b.current + " " + sentences[n])| > maxChars
    ensures AreSentenceRuns(b.done + [b.current], cuts + [n], sentences, maxChars)
  {
    var texts, all := b.done + [b.current], cuts + [n];
    forall k | 0 <= k < |texts| ensures IsSentenceRun(texts[k], all[k], all[k + 1], sentences, maxChars) {
      if k < |b.done| {
        assert IsSentenceRun(b.done[k], cuts[k], cuts[k + 1], sentences, maxChars);
      }
    }
  }

  /** A paragraph's packed sentences are maximal runs of its sentences; only empty sentences can be left behind them. */
  lemma SentencesAreRuns(paragraph: string, maxChars: int) returns (cuts: seq<nat>)
    ensures AreSentenceRuns(Sentences(paragraph, maxChars), cuts, SentencesFrom(paragraph, 0, 0), maxChars)
    ensures var sentences, last := SentencesFrom(paragraph, 0, 0), cuts[|cuts| - 1];
            last <= |sentences| && JoinedBy("", " ", sentences[last..]) == ""
  {
    var sentences := SentencesFrom(paragraph, 0, 0);
    cuts := GluedRuns(sentences, |sentences|, maxChars);
    assert sentences[..|sentences|] == sentences;
    var b := Glued(sentences, maxChars);
    if b.current != "" {
      NoSentenceYet(b, cuts, sentences, |sentences|, maxChars);
      SentenceRunEmitted(b, cuts, sentences, |sentences|, maxChars);
      cuts := cuts + [|sentences|];
      assert sentences[|sentences|..] == [];
    } else {
      assert sentences[cuts[|b.done|]..|sentences|] == sentences[cuts[|b.done|]..];
    }
  }

  // ------------------------------------------------------------ hard splits

  function Flat(pieces: seq<string>): string {
    if pieces == [] then "" else pieces[0] + Flat(pieces[1..])
  }

  /** A hard split is the text itself in slices, all of them full but the last. */
  lemma {:induction false} CutMeans(piece: string, maxChars: int)
    requires maxChars >= 1
    ensures Flat(Cut(piece, maxChars)) == piece && Cut(piece, maxChars) != []
    ensures forall k :: 0 <= k < |Cut(piece, maxChars)| - 1 ==> |Cut(piece, maxChars)[k]| == maxChars
    ensures |Cut(piece, maxChars)[|Cut(piece, maxChars)| - 1]| <= maxChars
    decreases |piece|
  {
    if |piece| > maxChars {
      var rest := Cut(piece[maxChars..], maxChars);
      CutMeans(piece[maxChars..], maxChars);
      assert Cut(piece, maxChars)[1..] == rest && piece[..maxChars] + piece[maxChars..] == piece;
    } else {
      assert [piece][1..] == [] && piece + "" == piece;
    }
  }

  /** A paragraph that fits is one piece; of a longer one each packed text is cut by itself. */
  lemma ParagraphMeans(paragraph: string, maxChars: int)
    requires maxChars >= 1
    ensures |paragraph| <= maxChars ==> ParagraphPieces(paragraph, maxChars) == [paragraph]
    ensures |paragraph| > maxChars ==> ParagraphPieces(paragraph, maxChars) == CutAll(Sentences(paragraph, maxChars), maxChars)
    ensures CutAll([], maxChars) == []
    ensures forall texts: seq<string>, text ::
              CutAll(texts + [text], maxChars) == CutAll(texts, maxChars) + if |text| <= maxChars then [text] else Cut(text, maxChars)
  {
    forall texts: seq<string>, text
      ensures CutAll(texts + [text], maxChars) == CutAll(texts, maxChars) + if |text| <= maxChars then [text] else Cut(text, maxChars) {
      Appended(texts, text);
    }
  }

  /** The pieces of a page are those of its paragraphs, stripped, in order; blank ones give none. */
  lemma PagePiecesMean(paragraphs: seq<string>, paragraph: string, maxChars: int)
    requires maxChars >= 1
    ensures AllPieces([], maxChars) == []
    ensures AllPieces(paragraphs + [paragraph], maxChars) ==
            AllPieces(paragraphs, maxChars) + if Strip(paragraph) == "" then [] else ParagraphPieces(Strip(paragraph), maxChars)
  {
    Appended(paragraphs, paragraph);
  }
}
