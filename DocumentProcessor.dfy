/**
  The document chunker of src/utils/documentProcessor.ts.

  `ChunkDocument` is the imperative routine itself: a `for` loop that packs
  sentences into a buffer, or a `while` loop that slides a fixed window,
  followed by a pass that stamps `totalChunks` on every chunk. It is
  proved equal to `ChunkResult`, a functional description of the same
  computation, and the properties of the chunks are lemmas about that
  description.

  The fixed-window loop only ends when the text is empty or when the
  overlap is at most zero and the window advances (`WindowLoopEnds`). For
  every other configuration the source loops forever; the model reports
  that outcome as `Hangs`, and `WindowLoopNeverEnds` proves that the loop
  condition then stays true for ever.
 */
module DocumentProcessor {
  import opened JsText

  datatype ChunkConfig = ChunkConfig(chunkSize: int, chunkOverlap: int, preserveSentences: bool)

  datatype ChunkMetadata = ChunkMetadata(
    documentId: string,
    documentName: string,
    chunkIndex: int,
    startPosition: int,
    endPosition: int,
    totalChunks: int)

  datatype DocumentChunk = DocumentChunk(id: string, content: string, metadata: ChunkMetadata)

  /** What a call of the chunker does: return chunks, or never return. */
  datatype ChunkOutcome = Finished(chunks: seq<DocumentChunk>) | Hangs

  // =====================================================================
  // Sentence splitting
  // =====================================================================

  predicate IsTerminator(c: char) { c == '.' || c == '!' || c == '?' }

  predicate StartsWith(s: string, prefix: string) {
    |prefix| <= |s| && s[..|prefix|] == prefix
  }

  predicate NoTerminator(s: string) {
    forall i :: 0 <= i < |s| ==> !IsTerminator(s[i])
  }

  /** `s.split(/[.!?]+/)`: the pieces between maximal runs of terminators,
      with an empty piece before a leading run and after a trailing one. */
  function SplitOnTerminators(s: string): (r: seq<string>)
    ensures |r| >= 1
    ensures forall k :: 0 <= k < |r| ==> NoTerminator(r[k])
    ensures s != [] ==> (r[0] == [] <==> IsTerminator(s[0]))
  {
    if s == [] then [[]]
    else
      var rest := SplitOnTerminators(s[1..]);
      if IsTerminator(s[0]) then
        (if |s| > 1 && IsTerminator(s[1]) then rest else [[]] + rest)
      else
        [[s[0]] + rest[0]] + rest[1..]
  }

  function Flatten(pieces: seq<string>): string {
    if pieces == [] then [] else pieces[0] + Flatten(pieces[1..])
  }

  function DropTerminators(s: string): (r: string)
    ensures NoTerminator(r)
  {
    if s == [] then []
    else if IsTerminator(s[0]) then DropTerminators(s[1..])
    else [s[0]] + DropTerminators(s[1..])
  }

  /** Splitting removes the terminators and nothing else. */
  lemma {:induction false} FlattenSplit(s: string)
    ensures Flatten(SplitOnTerminators(s)) == DropTerminators(s)
  {
    if s != [] {
      var rest := SplitOnTerminators(s[1..]);
      FlattenSplit(s[1..]);
      if !IsTerminator(s[0]) {
        var r := [[s[0]] + rest[0]] + rest[1..];
        assert r[1..] == rest[1..];
        assert Flatten(rest) == rest[0] + Flatten(rest[1..]);
      } else if !(|s| > 1 && IsTerminator(s[1])) {
        assert ([[]] + rest)[1..] == rest;
      }
    }
  }

  /** The runs of terminators the split cuts at, one between each two
      neighbouring pieces. */
  function TerminatorRuns(s: string): (r: seq<string>)
    ensures |r| == |SplitOnTerminators(s)| - 1
    ensures s != [] && IsTerminator(s[0]) ==> |r| >= 1
  {
    if s == [] then []
    else
      var rest := TerminatorRuns(s[1..]);
      if IsTerminator(s[0]) then
        (if |s| > 1 && IsTerminator(s[1]) then [[s[0]] + rest[0]] + rest[1..] else [[s[0]]] + rest)
      else rest
  }

  /** One or more terminators. */
  predicate TerminatorRun(run: string) {
    |run| > 0 && forall i :: 0 <= i < |run| ==> IsTerminator(run[i])
  }

  /** `pieces[0] + runs[0] + pieces[1] + ... + runs[|runs| - 1] + pieces[|runs|]`. */
  function Interleave(pieces: seq<string>, runs: seq<string>): string
    requires |pieces| == |runs| + 1
    decreases |runs|
  {
    if runs == [] then pieces[0] else pieces[0] + runs[0] + Interleave(pieces[1..], runs[1..])
  }

  /** `s` is `pieces` interleaved with `runs`: each run is a non-empty
      string of terminators, no piece holds one, and every piece between
      two runs is non-empty, so the runs are the maximal ones of `s`. */
  predicate CutAtRuns(s: string, pieces: seq<string>, runs: seq<string>) {
    && |pieces| == |runs| + 1
    && (forall k :: 0 <= k < |pieces| ==> NoTerminator(pieces[k]))
    && (forall k :: 0 <= k < |runs| ==> TerminatorRun(runs[k]))
    && (forall k :: 0 < k < |runs| ==> pieces[k] != [])
    && s == Interleave(pieces, runs)
  }

  /** How the split of `s` is built from the split of `s[1..]`. */
  lemma SplitStep(s: string)
    requires s != []
    ensures var rest, restRuns := SplitOnTerminators(s[1..]), TerminatorRuns(s[1..]);
      && (!IsTerminator(s[0]) ==>
            SplitOnTerminators(s) == [[s[0]] + rest[0]] + rest[1..] && TerminatorRuns(s) == restRuns)
      && (IsTerminator(s[0]) && |s| > 1 && IsTerminator(s[1]) ==>
            restRuns != [] && SplitOnTerminators(s) == rest
            && TerminatorRuns(s) == [[s[0]] + restRuns[0]] + restRuns[1..])
      && (IsTerminator(s[0]) && !(|s| > 1 && IsTerminator(s[1])) ==>
            SplitOnTerminators(s) == [[]] + rest && TerminatorRuns(s) == [[s[0]]] + restRuns)
  {
  }

  lemma {:induction false} InterleavePrepend(c: char, pieces: seq<string>, runs: seq<string>)
    requires |pieces| == |runs| + 1
    ensures Interleave([[c] + pieces[0]] + pieces[1..], runs) == [c] + Interleave(pieces, runs)
  {
    var p := [[c] + pieces[0]] + pieces[1..];
    assert p[1..] == pieces[1..];
  }

  lemma {:induction false} InterleaveRunPrepend(c: char, pieces: seq<string>, runs: seq<string>, longer: seq<string>)
    requires |pieces| == |runs| + 1 && runs != [] && pieces[0] == []
    requires |longer| == |runs| && longer[0] == [c] + runs[0] && longer[1..] == runs[1..]
    ensures Interleave(pieces, longer) == [c] + Interleave(pieces, runs)
  {
    var tail := Interleave(pieces[1..], runs[1..]);
    assert Interleave(pieces, longer) == [] + ([c] + runs[0]) + tail;
    assert Interleave(pieces, runs) == [] + runs[0] + tail;
  }

  /** A non-terminator in front of a cut text joins its first piece. */
  lemma {:induction false} CutConsPiece(c: char, t: string, pieces: seq<string>, runs: seq<string>)
    requires !IsTerminator(c) && CutAtRuns(t, pieces, runs)
    ensures CutAtRuns([c] + t, [[c] + pieces[0]] + pieces[1..], runs)
  {
    var p := [[c] + pieces[0]] + pieces[1..];
    InterleavePrepend(c, pieces, runs);
    forall k | 0 <= k < |p| ensures NoTerminator(p[k]) {
      if k == 0 {
        forall i | 0 <= i < |p[0]| ensures !IsTerminator(p[0][i]) {
          if i > 0 { assert p[0][i] == pieces[0][i - 1]; }
        }
      } else {
        assert p[k] == pieces[k];
      }
    }
    forall k | 0 < k < |runs| ensures p[k] != [] {
      assert p[k] == pieces[k];
    }
  }

  /** A terminator in front of a cut text that starts with a run joins that run. */
  lemma {:induction false} CutConsRun(c: char, t: string, pieces: seq<string>, runs: seq<string>)
    requires IsTerminator(c) && CutAtRuns(t, pieces, runs) && runs != [] && pieces[0] == []
    ensures CutAtRuns([c] + t, pieces, [[c] + runs[0]] + runs[1..])
  {
    var r := [[c] + runs[0]] + runs[1..];
    assert r[1..] == runs[1..];
    InterleaveRunPrepend(c, pieces, runs, r);
    forall k | 0 <= k < |r| ensures TerminatorRun(r[k]) {
      if k == 0 {
        forall i | 0 <= i < |r[0]| ensures IsTerminator(r[0][i]) {
          if i > 0 { assert r[0][i] == runs[0][i - 1]; }
        }
      } else {
        assert r[k] == runs[k];
      }
    }
  }

  /** A terminator in front of a cut text that does not start with a run
      opens a new run after an empty piece. */
  lemma {:induction false} CutConsNewRun(c: char, t: string, pieces: seq<string>, runs: seq<string>)
    requires IsTerminator(c) && CutAtRuns(t, pieces, runs) && (runs != [] ==> pieces[0] != [])
    ensures CutAtRuns([c] + t, [[]] + pieces, [[c]] + runs)
  {
    var p, r := [[]] + pieces, [[c]] + runs;
    assert p[1..] == pieces && r[1..] == runs;
    assert Interleave(p, r) == [] + [c] + Interleave(pieces, runs);
    forall k | 0 <= k < |p| ensures NoTerminator(p[k]) {
      if k > 0 { assert p[k] == pieces[k - 1]; }
    }
    forall k | 0 <= k < |r| ensures TerminatorRun(r[k]) {
      if k > 0 { assert r[k] == runs[k - 1]; }
    }
    forall k | 0 < k < |r| ensures p[k] != [] {
      assert p[k] == pieces[k - 1];
    }
  }

  /** The split puts the text back together: the pieces, interleaved with
      the terminator runs between them, are the text. */
  lemma {:induction false} SplitRebuildsText(s: string)
    ensures CutAtRuns(s, SplitOnTerminators(s), TerminatorRuns(s))
  {
    if s == [] {
      assert SplitOnTerminators(s) == [[]] && TerminatorRuns(s) == [];
    } else {
      var t := s[1..];
      assert s == [s[0]] + t;
      var rest, restRuns := SplitOnTerminators(t), TerminatorRuns(t);
      SplitRebuildsText(t);
      SplitStep(s);
      if !IsTerminator(s[0]) {
        CutConsPiece(s[0], t, rest, restRuns);
      } else if |s| > 1 && IsTerminator(s[1]) {
        assert rest[0] == [];
        CutConsRun(s[0], t, rest, restRuns);
      } else {
        assert restRuns != [] ==> t != [] && rest[0] != [];
        CutConsNewRun(s[0], t, rest, restRuns);
      }
    }
  }

  /** A terminator-free text is a single piece. */
  lemma {:induction false} SplitWithoutTerminators(s: string)
    requires NoTerminator(s)
    ensures SplitOnTerminators(s) == [s] && TerminatorRuns(s) == []
  {
    if s != [] {
      SplitWithoutTerminators(s[1..]);
      assert s == [s[0]] + s[1..];
    }
  }

  /** Taking the first character off a cut text whose first piece is non-empty. */
  lemma {:induction false} UncutPiece(s: string, pieces: seq<string>, runs: seq<string>)
    requires CutAtRuns(s, pieces, runs) && pieces[0] != []
    ensures s != [] && s[0] == pieces[0][0] && !IsTerminator(s[0])
    ensures CutAtRuns(s[1..], [pieces[0][1..]] + pieces[1..], runs)
  {
    var c := pieces[0][0];
    var p := [pieces[0][1..]] + pieces[1..];
    assert [c] + p[0] == pieces[0] && p[1..] == pieces[1..];
    assert [[c] + p[0]] + p[1..] == pieces;
    InterleavePrepend(c, p, runs);
    assert s == [c] + Interleave(p, runs);
    assert s[1..] == Interleave(p, runs);
    forall k | 0 <= k < |p| ensures NoTerminator(p[k]) {
      if k == 0 {
        forall i | 0 <= i < |p[0]| ensures !IsTerminator(p[0][i]) {
          assert p[0][i] == pieces[0][i + 1];
        }
      } else {
        assert p[k] == pieces[k];
      }
    }
    forall k | 0 < k < |runs| ensures p[k] != [] {
      assert p[k] == pieces[k];
    }
  }

  /** Taking the first terminator off a cut text that starts with a run of two or more. */
  lemma {:induction false} UncutRun(s: string, pieces: seq<string>, runs: seq<string>)
    requires CutAtRuns(s, pieces, runs) && runs != [] && pieces[0] == [] && |runs[0]| > 1
    ensures |s| > 1 && s[0] == runs[0][0] && IsTerminator(s[0]) && IsTerminator(s[1])
    ensures CutAtRuns(s[1..], pieces, [runs[0][1..]] + runs[1..])
  {
    var c := runs[0][0];
    var r := [runs[0][1..]] + runs[1..];
    assert [c] + r[0] == runs[0] && r[1..] == runs[1..];
    assert [[c] + r[0]] + r[1..] == runs;
    InterleaveRunPrepend(c, pieces, r, runs);
    assert s[1..] == Interleave(pieces, r);
    assert s == runs[0] + Interleave(pieces[1..], runs[1..]);
    assert s[0] == runs[0][0] && s[1] == runs[0][1];
    assert TerminatorRun(runs[0]);
    forall k | 0 <= k < |r| ensures TerminatorRun(r[k]) {
      if k == 0 {
        forall i | 0 <= i < |r[0]| ensures IsTerminator(r[0][i]) {
          assert r[0][i] == runs[0][i + 1];
        }
      } else {
        assert r[k] == runs[k];
      }
    }
  }

  /** Taking off a single leading terminator leaves the rest of the cut. */
  lemma {:induction false} UncutLastOfRun(s: string, pieces: seq<string>, runs: seq<string>)
    requires CutAtRuns(s, pieces, runs) && runs != [] && pieces[0] == [] && |runs[0]| == 1
    ensures s != [] && runs[0] == [s[0]] && IsTerminator(s[0]) && !(|s| > 1 && IsTerminator(s[1]))
    ensures CutAtRuns(s[1..], pieces[1..], runs[1..])
  {
    var c := runs[0][0];
    var p, r := pieces[1..], runs[1..];
    assert runs[0] == [c];
    assert s == [c] + Interleave(p, r);
    assert s[1..] == Interleave(p, r);
    assert TerminatorRun(runs[0]);
    forall k | 0 <= k < |p| ensures NoTerminator(p[k]) {
      assert p[k] == pieces[k + 1];
    }
    forall k | 0 <= k < |r| ensures TerminatorRun(r[k]) {
      assert r[k] == runs[k + 1];
    }
    forall k | 0 < k < |r| ensures p[k] != [] {
      assert p[k] == pieces[k + 1];
    }
    if |s| > 1 {
      if r == [] {
        assert s[1..] == p[0];
      } else {
        assert p[0] != [];
        assert s[1..] == p[0] + r[0] + Interleave(p[1..], r[1..]);
      }
      assert s[1] == s[1..][0] == p[0][0];
    }
  }

  /** Only one cut has that shape: any pieces and runs that rebuild the
      text that way are the split's. */
  lemma {:induction false} SplitUnique(s: string, pieces: seq<string>, runs: seq<string>)
    requires CutAtRuns(s, pieces, runs)
    ensures pieces == SplitOnTerminators(s) && runs == TerminatorRuns(s)
    decreases |s|
  {
    if runs == [] {
      SplitWithoutTerminators(s);
    } else if pieces[0] != [] {
      UncutPiece(s, pieces, runs);
      SplitUnique(s[1..], [pieces[0][1..]] + pieces[1..], runs);
      SplitAfterPiece(s, pieces, runs);
    } else if |runs[0]| > 1 {
      UncutRun(s, pieces, runs);
      SplitUnique(s[1..], pieces, [runs[0][1..]] + runs[1..]);
      SplitAfterRun(s, pieces, runs);
    } else {
      UncutLastOfRun(s, pieces, runs);
      SplitUnique(s[1..], pieces[1..], runs[1..]);
      SplitAfterLastOfRun(s, pieces, runs);
    }
  }

  lemma SplitAfterPiece(s: string, pieces: seq<string>, runs: seq<string>)
    requires pieces != [] && pieces[0] != [] && s != [] && s[0] == pieces[0][0] && !IsTerminator(s[0])
    requires SplitOnTerminators(s[1..]) == [pieces[0][1..]] + pieces[1..] && TerminatorRuns(s[1..]) == runs
    ensures pieces == SplitOnTerminators(s) && runs == TerminatorRuns(s)
  {
    SplitStep(s);
    var p := [pieces[0][1..]] + pieces[1..];
    assert [s[0]] + p[0] == pieces[0] && p[1..] == pieces[1..];
    assert [[s[0]] + p[0]] + p[1..] == pieces;
  }

  lemma SplitAfterRun(s: string, pieces: seq<string>, runs: seq<string>)
    requires runs != [] && |runs[0]| > 1 && |s| > 1 && s[0] == runs[0][0] && IsTerminator(s[0]) && IsTerminator(s[1])
    requires SplitOnTerminators(s[1..]) == pieces && TerminatorRuns(s[1..]) == [runs[0][1..]] + runs[1..]
    ensures pieces == SplitOnTerminators(s) && runs == TerminatorRuns(s)
  {
    SplitStep(s);
    var r := [runs[0][1..]] + runs[1..];
    assert [s[0]] + r[0] == runs[0] && r[1..] == runs[1..];
    assert [[s[0]] + r[0]] + r[1..] == runs;
  }

  lemma SplitAfterLastOfRun(s: string, pieces: seq<string>, runs: seq<string>)
    requires s != [] && IsTerminator(s[0]) && !(|s| > 1 && IsTerminator(s[1]))
    requires pieces != [] && pieces[0] == [] && runs != [] && runs[0] == [s[0]]
    requires SplitOnTerminators(s[1..]) == pieces[1..] && TerminatorRuns(s[1..]) == runs[1..]
    ensures pieces == SplitOnTerminators(s) && runs == TerminatorRuns(s)
  {
    SplitStep(s);
    assert pieces == [[]] + pieces[1..] && runs == [[s[0]]] + runs[1..];
  }

  /** What the filter and the map keep of one piece: nothing when it is
      blank, else the piece trimmed with a dot after it. */
  function SentenceOf(piece: string): seq<string> {
    if |Trim(piece)| > 0 then [Trim(piece) + "."] else []
  }

  /** The `filter(s => s.trim().length > 0).map(s => s.trim() + '.')` part. */
  function Sentences(pieces: seq<string>): (r: seq<string>)
  {
    if pieces == [] then [] else SentenceOf(pieces[0]) + Sentences(pieces[1..])
  }

  /** A sentence: non-empty trimmed text free of terminators, then `.`. */
  predicate IsSentence(s: string) {
    |s| >= 2 && s[|s| - 1] == '.'
    && !IsWhitespace(s[0]) && !IsWhitespace(s[|s| - 2])
    && NoTerminator(s[..|s| - 1])
  }

  /** Every element is a sentence. */
  predicate AllSentences(r: seq<string>) {
    forall k :: 0 <= k < |r| ==> IsSentence(r[k])
  }

  lemma {:induction false} AllSentencesConcat(a: seq<string>, b: seq<string>)
    requires AllSentences(a) && AllSentences(b)
    ensures AllSentences(a + b)
  {
    forall k | 0 <= k < |a + b| ensures IsSentence((a + b)[k]) {
      if k < |a| { assert (a + b)[k] == a[k]; } else { assert (a + b)[k] == b[k - |a|]; }
    }
  }

  lemma {:induction false} SentencesShape(pieces: seq<string>)
    requires forall k :: 0 <= k < |pieces| ==> NoTerminator(pieces[k])
    ensures AllSentences(Sentences(pieces))
  {
    if pieces != [] {
      var rest := pieces[1..];
      assert Sentences(pieces) == SentenceOf(pieces[0]) + Sentences(rest);
      forall k | 0 <= k < |rest| ensures NoTerminator(rest[k]) {
        assert rest[k] == pieces[k + 1];
      }
      SentenceOfShape(pieces[0]);
      SentencesShape(rest);
      AllSentencesConcat(SentenceOf(pieces[0]), Sentences(rest));
    }
  }

  /** A terminator-free piece gives no sentence or one. */
  lemma SentenceOfShape(piece: string)
    requires NoTerminator(piece)
    ensures AllSentences(SentenceOf(piece))
  {
    if |Trim(piece)| > 0 {
      SentenceOfPiece(piece);
      assert SentenceOf(piece)[0] == Trim(piece) + ".";
    }
  }

  /** A non-blank terminator-free piece, trimmed and given a dot, is a
      sentence. */
  lemma {:induction false} SentenceOfPiece(piece: string)
    requires NoTerminator(piece) && |Trim(piece)| > 0
    ensures IsSentence(Trim(piece) + ".")
  {
    var t := Trim(piece);
    var s := t + ".";
    assert s[..|s| - 1] == t;
    NoTerminatorSlice(piece, LeadLength(piece), LeadLength(piece) + |t|);
  }

  lemma NoTerminatorSlice(s: string, a: nat, b: nat)
    requires NoTerminator(s) && a <= b <= |s|
    ensures NoTerminator(s[a..b])
  {
    assert forall i :: 0 <= i < b - a ==> s[a..b][i] == s[a + i];
  }


  /** `splitIntoSentences`. */
  function SplitIntoSentences(text: string): (r: seq<string>)
    ensures forall k :: 0 <= k < |r| ==> IsSentence(r[k])
  {
    SentencesShape(SplitOnTerminators(text));
    Sentences(SplitOnTerminators(text))
  }

  /** The filter and the map work piece by piece, so the sentences keep
      the order of the pieces they come from. */
  lemma {:induction false} SentencesConcat(a: seq<string>, b: seq<string>)
    ensures Sentences(a + b) == Sentences(a) + Sentences(b)
  {
    if a == [] {
      assert a + b == b;
    } else {
      var ab := a + b;
      assert ab[0] == a[0] && ab[1..] == a[1..] + b;
      SentencesConcat(a[1..], b);
      calc {
        Sentences(ab);
        SentenceOf(a[0]) + Sentences(a[1..] + b);
        SentenceOf(a[0]) + (Sentences(a[1..]) + Sentences(b));
        (SentenceOf(a[0]) + Sentences(a[1..])) + Sentences(b);
      }
    }
  }

  /** The sentences of a text are the trimmed non-blank pieces, each with a
      dot, of the one cut of the text at its maximal terminator runs. */
  lemma {:induction false} SentencesOfCut(text: string, pieces: seq<string>, runs: seq<string>)
    requires CutAtRuns(text, pieces, runs)
    ensures SplitIntoSentences(text) == Sentences(pieces)
  {
    SplitUnique(text, pieces, runs);
  }

  /** Every piece is whitespace only. */
  predicate AllBlank(pieces: seq<string>) {
    forall k :: 0 <= k < |pieces| ==> AllWhitespace(pieces[k])
  }

  lemma AllBlankCons(pieces: seq<string>)
    requires pieces != []
    ensures AllBlank(pieces) <==> AllWhitespace(pieces[0]) && AllBlank(pieces[1..])
  {
    if AllWhitespace(pieces[0]) && AllBlank(pieces[1..]) {
      forall k | 0 <= k < |pieces| ensures AllWhitespace(pieces[k]) {
        if k > 0 { assert pieces[k] == pieces[1..][k - 1]; }
      }
    }
  }

  lemma {:induction false} SentencesEmptyIff(pieces: seq<string>)
    ensures Sentences(pieces) == [] <==> AllBlank(pieces)
  {
    if pieces != [] {
      SentencesEmptyIff(pieces[1..]);
      TrimEmptyIff(pieces[0]);
      AllBlankCons(pieces);
      assert Sentences(pieces) == SentenceOf(pieces[0]) + Sentences(pieces[1..]);
    }
  }

  lemma {:induction false} AllWhitespaceFlatten(pieces: seq<string>)
    ensures AllWhitespace(Flatten(pieces)) <==> AllBlank(pieces)
  {
    if pieces != [] {
      AllWhitespaceFlatten(pieces[1..]);
      AllBlankCons(pieces);
      assert Flatten(pieces) == pieces[0] + Flatten(pieces[1..]);
      AllWhitespaceConcat(pieces[0], Flatten(pieces[1..]));
    }
  }

  predicate BlankOrTerminators(s: string) {
    forall i :: 0 <= i < |s| ==> IsWhitespace(s[i]) || IsTerminator(s[i])
  }

  lemma {:induction false} DropTerminatorsWhitespace(s: string)
    ensures AllWhitespace(DropTerminators(s)) <==> BlankOrTerminators(s)
  {
    if s != [] {
      DropTerminatorsWhitespace(s[1..]);
      assert BlankOrTerminators(s) <==> (IsWhitespace(s[0]) || IsTerminator(s[0])) && BlankOrTerminators(s[1..]) by {
        assert forall i :: 0 < i < |s| ==> s[i] == s[1..][i - 1];
      }
      if !IsTerminator(s[0]) {
        AllWhitespaceConcat([s[0]], DropTerminators(s[1..]));
      }
    }
  }

  /** A text yields no sentence exactly when it holds nothing but
      whitespace and the terminators `.`, `!` and `?`. */
  lemma NoSentencesIff(text: string)
    ensures SplitIntoSentences(text) == []
        <==> BlankOrTerminators(text)
  {
    var pieces := SplitOnTerminators(text);
    SentencesEmptyIff(pieces);
    AllWhitespaceFlatten(pieces);
    FlattenSplit(text);
    DropTerminatorsWhitespace(text);
  }

  // =====================================================================
  // Chunks and their identifiers
  // =====================================================================

  /** `${documentId}_chunk_${chunkIndex}`. */
  function ChunkId(documentId: string, index: nat): (r: string)
    ensures StartsWith(r, documentId + "_chunk_")
    ensures |r| > |documentId| + 7
    ensures forall i :: |documentId| + 7 <= i < |r| ==> '0' <= r[i] <= '9'
  {
    NatToStringDigits(index);
    var r := documentId + "_chunk_" + NatToString(index);
    assert forall i :: |documentId| + 7 <= i < |r| ==> r[i] == NatToString(index)[i - |documentId| - 7];
    r
  }

  /** Two chunks of one document never share an id. */
  lemma ChunkIdInjective(documentId: string, i: nat, j: nat)
    requires ChunkId(documentId, i) == ChunkId(documentId, j)
    ensures i == j
  {
    var p := documentId + "_chunk_";
    assert ChunkId(documentId, i)[|p|..] == NatToString(i);
    assert ChunkId(documentId, j)[|p|..] == NatToString(j);
    NatToStringInjective(i, j);
  }

  /** A chunk as the source builds it, with `totalChunks` still `0`. */
  function MakeChunk(documentId: string, documentName: string, index: nat,
                     content: string, start: int, end: int): (r: DocumentChunk)
  {
    DocumentChunk(ChunkId(documentId, index), content,
      ChunkMetadata(documentId, documentName, index, start, end, 0))
  }

  /** Chunk `k` carries the document's id and name, index `first + k` and
      the id built from it. */
  predicate IndexedFrom(chunks: seq<DocumentChunk>, documentId: string, documentName: string, first: nat) {
    forall k :: 0 <= k < |chunks| ==>
      && chunks[k].id == ChunkId(documentId, first + k)
      && chunks[k].metadata.documentId == documentId
      && chunks[k].metadata.documentName == documentName
      && chunks[k].metadata.chunkIndex == first + k
  }

  // =====================================================================
  // Sentence mode
  // =====================================================================

  /** The loop state of sentence mode: `currentChunk`, `chunkIndex`,
      `startPosition` and the chunks pushed so far. */
  datatype Packing = Packing(buffer: string, chunkIndex: nat, startPosition: int, chunks: seq<DocumentChunk>)

  /** One iteration of the sentence loop. */
  /** `currentChunk + (currentChunk ? ' ' : '') + sentence`. */
  function Potential(buffer: string, sentence: string): string {
    buffer + (if buffer != [] then " " else "") + sentence
  }

  /** `potentialChunk.length > config.chunkSize && currentChunk.length > 0`. */
  predicate Closes(p: Packing, sentence: string, config: ChunkConfig) {
    |Potential(p.buffer, sentence)| > config.chunkSize && |p.buffer| > 0
  }

  /** One iteration of the sentence loop. A closed chunk ends at
      `startPosition + currentChunk.length`, and the next one starts
      `chunkOverlap` before that end. */
  function PackSentence(p: Packing, sentence: string, config: ChunkConfig,
                        documentId: string, documentName: string): (r: Packing)
    ensures |p.chunks| <= |r.chunks| <= |p.chunks| + 1
    ensures r.chunkIndex - p.chunkIndex == |r.chunks| - |p.chunks|
  {
    if Closes(p, sentence, config) then
      Packing(SliceFrom(p.buffer, -config.chunkOverlap) + " " + sentence,
              p.chunkIndex + 1,
              p.startPosition + |p.buffer| - config.chunkOverlap,
              p.chunks + [BufferChunk(p, documentId, documentName)])
    else
      Packing(Potential(p.buffer, sentence), p.chunkIndex, p.startPosition, p.chunks)
  }

  /** The loop state after the first `n` sentences. */
  function PackFirst(sentences: seq<string>, n: nat, config: ChunkConfig,
                     documentId: string, documentName: string): (r: Packing)
    requires n <= |sentences|
    ensures r.chunkIndex == |r.chunks| <= n
  {
    if n == 0 then Packing([], 0, 0, [])
    else
      PackSentence(PackFirst(sentences, n - 1, config, documentId, documentName),
                   sentences[n - 1], config, documentId, documentName)
  }

  /** The loop state after all the sentences. */
  function PackAll(sentences: seq<string>, config: ChunkConfig,
                   documentId: string, documentName: string): (r: Packing)
    ensures r.chunkIndex == |r.chunks| <= |sentences|
  {
    PackFirst(sentences, |sentences|, config, documentId, documentName)
  }

  /** The chunk the buffer becomes when it is closed or flushed. */
  function BufferChunk(p: Packing, documentId: string, documentName: string): DocumentChunk {
    MakeChunk(documentId, documentName, p.chunkIndex, Trim(p.buffer),
              p.startPosition, p.startPosition + |p.buffer|)
  }

  /** The chunks once the loop is over: a non-blank buffer is pushed last. */
  function Flush(p: Packing, documentId: string, documentName: string): (r: seq<DocumentChunk>)
    ensures |p.chunks| <= |r| <= |p.chunks| + 1 && r[..|p.chunks|] == p.chunks
    ensures |r| > |p.chunks| ==> r[|p.chunks|].content == Trim(p.buffer) && r[|p.chunks|].content != []
    ensures |r| > |p.chunks| ==> r[|p.chunks|].metadata.chunkIndex == p.chunkIndex
  {
    if |Trim(p.buffer)| > 0 then p.chunks + [BufferChunk(p, documentId, documentName)] else p.chunks
  }

  /** Sentence mode before the `totalChunks` pass. */
  function SentenceChunks(text: string, config: ChunkConfig,
                          documentId: string, documentName: string): seq<DocumentChunk>
  {
    Flush(PackAll(SplitIntoSentences(text), config, documentId, documentName), documentId, documentName)
  }

  /** When one iteration closes a chunk, and what the buffer becomes. The
      carried-over tail is `SliceFrom(buffer, -chunkOverlap)`, described
      by `JsText.SliceTail`: the whole buffer when the overlap is `0` or
      at least the buffer's length. */
  lemma PackSentenceSteps(p: Packing, sentence: string, config: ChunkConfig,
                          documentId: string, documentName: string)
    ensures var q := PackSentence(p, sentence, config, documentId, documentName);
      && (|q.chunks| == |p.chunks| + 1 <==> p.buffer != [] && |p.buffer| + 1 + |sentence| > config.chunkSize)
      && (|q.chunks| == |p.chunks| + 1 ==>
            && q.chunks[|p.chunks|].content == Trim(p.buffer)
            && q.buffer == SliceFrom(p.buffer, -config.chunkOverlap) + " " + sentence
            && q.startPosition == p.startPosition + |p.buffer| - config.chunkOverlap)
      && (|q.chunks| == |p.chunks| ==>
            q.buffer == (if p.buffer == [] then sentence else p.buffer + " " + sentence))
      && q.chunks[..|p.chunks|] == p.chunks
  {
    var q := PackSentence(p, sentence, config, documentId, documentName);
    if p.buffer != [] {
      assert |Potential(p.buffer, sentence)| == |p.buffer| + 1 + |sentence|;
    } else {
      assert Potential(p.buffer, sentence) == sentence;
    }
    if Closes(p, sentence, config) {
      PackCloseResult(p, sentence, config, documentId, documentName);
      assert q.chunks[..|p.chunks|] == p.chunks;
    } else {
      assert q.chunks == p.chunks;
    }
  }

  /** Offsets follow buffer lengths: the first chunk starts at `0`, every
      chunk ends its buffer's length after its start, and the next one
      starts `chunkOverlap` before that end. */
  predicate Chained(chunks: seq<DocumentChunk>, overlap: int) {
    && (chunks != [] ==> chunks[0].metadata.startPosition == 0)
    && (forall k :: 0 <= k < |chunks| - 1 ==>
          chunks[k + 1].metadata.startPosition == chunks[k].metadata.endPosition - overlap)
  }

  /** Every chunk's content is non-empty, trimmed, ends with `.`, and is
      no longer than its offset range. */
  predicate WellShaped(c: DocumentChunk) {
    && |c.content| > 0
    && c.content[|c.content| - 1] == '.'
    && !IsWhitespace(c.content[0])
    && c.metadata.endPosition - c.metadata.startPosition >= |c.content|
  }

  /** Numbered from `0`, chained by the overlap, every one well shaped. */
  predicate ChunksOk(chunks: seq<DocumentChunk>, overlap: int, documentId: string, documentName: string) {
    && IndexedFrom(chunks, documentId, documentName, 0)
    && Chained(chunks, overlap)
    && (forall k :: 0 <= k < |chunks| ==> WellShaped(chunks[k]))
  }

  /** Where the next chunk starts. */
  function NextStart(chunks: seq<DocumentChunk>, overlap: int): int {
    if chunks == [] then 0 else chunks[|chunks| - 1].metadata.endPosition - overlap
  }

  /** What the sentence loop keeps true. */
  predicate PackInvariant(p: Packing, n: nat, config: ChunkConfig, documentId: string, documentName: string) {
    && p.chunkIndex == |p.chunks|
    && ChunksOk(p.chunks, config.chunkOverlap, documentId, documentName)
    && (n == 0 ==> p.buffer == [] && p.chunks == [] && p.startPosition == 0)
    && (n > 0 ==> |p.chunks| < n && p.buffer != [] && p.buffer[|p.buffer| - 1] == '.')
    && p.startPosition == NextStart(p.chunks, config.chunkOverlap)
  }

  /** The buffer handed to `Trim` always ends in `.`, so the chunk is well shaped. */
  lemma BufferChunkShaped(p: Packing, documentId: string, documentName: string)
    requires p.buffer != [] && p.buffer[|p.buffer| - 1] == '.'
    ensures WellShaped(BufferChunk(p, documentId, documentName))
  {
    TrimKeepsLast(p.buffer);
  }

  lemma ChainedAppend(chunks: seq<DocumentChunk>, c: DocumentChunk, overlap: int)
    requires Chained(chunks, overlap)
    requires chunks == [] ==> c.metadata.startPosition == 0
    requires chunks != [] ==> c.metadata.startPosition == chunks[|chunks| - 1].metadata.endPosition - overlap
    ensures Chained(chunks + [c], overlap)
  {
    var r := chunks + [c];
    forall k | 0 <= k < |r| - 1
      ensures r[k + 1].metadata.startPosition == r[k].metadata.endPosition - overlap
    {
      if k + 1 < |chunks| { assert r[k] == chunks[k] && r[k + 1] == chunks[k + 1]; }
    }
  }

  lemma IndexedAppend(chunks: seq<DocumentChunk>, c: DocumentChunk, documentId: string, documentName: string)
    requires IndexedFrom(chunks, documentId, documentName, 0)
    requires c == MakeChunk(documentId, documentName, |chunks|, c.content,
                            c.metadata.startPosition, c.metadata.endPosition)
    ensures IndexedFrom(chunks + [c], documentId, documentName, 0)
  {
  }

  lemma ChunksOkAppend(chunks: seq<DocumentChunk>, c: DocumentChunk, overlap: int,
                       documentId: string, documentName: string)
    requires ChunksOk(chunks, overlap, documentId, documentName) && WellShaped(c)
    requires c == MakeChunk(documentId, documentName, |chunks|, c.content,
                            c.metadata.startPosition, c.metadata.endPosition)
    requires c.metadata.startPosition == NextStart(chunks, overlap)
    ensures ChunksOk(chunks + [c], overlap, documentId, documentName)
    ensures NextStart(chunks + [c], overlap) == c.metadata.endPosition - overlap
  {
    ChainedAppend(chunks, c, overlap);
    IndexedAppend(chunks, c, documentId, documentName);
    var r := chunks + [c];
    forall k | 0 <= k < |r| ensures WellShaped(r[k]) {
      if k < |chunks| { assert r[k] == chunks[k]; }
    }
  }

  /** What an iteration that closes a chunk produces. */
  lemma PackCloseResult(p: Packing, sentence: string, config: ChunkConfig,
                        documentId: string, documentName: string)
    requires Closes(p, sentence, config)
    ensures PackSentence(p, sentence, config, documentId, documentName)
         == Packing(SliceFrom(p.buffer, -config.chunkOverlap) + " " + sentence, p.chunkIndex + 1,
                    p.startPosition + |p.buffer| - config.chunkOverlap,
                    p.chunks + [BufferChunk(p, documentId, documentName)])
  {
  }

  /** The last character of `a + b` is the last of a non-empty `b`. */
  lemma EndsLike(a: string, b: string)
    requires b != []
    ensures a + b != [] && (a + b)[|a + b| - 1] == b[|b| - 1]
  {
  }

  /** Closing a chunk keeps the loop invariant. */
  lemma PackCloseKeeps(p: Packing, n: nat, sentence: string, config: ChunkConfig,
                       documentId: string, documentName: string)
    requires PackInvariant(p, n, config, documentId, documentName) && IsSentence(sentence)
    requires Closes(p, sentence, config)
    ensures PackInvariant(PackSentence(p, sentence, config, documentId, documentName), n + 1,
                          config, documentId, documentName)
  {
    var c := BufferChunk(p, documentId, documentName);
    BufferChunkShaped(p, documentId, documentName);
    ChunksOkAppend(p.chunks, c, config.chunkOverlap, documentId, documentName);
    var kept := SliceFrom(p.buffer, -config.chunkOverlap) + " ";
    var buffer := kept + sentence;
    EndsLike(kept, sentence);
    var q := Packing(buffer, p.chunkIndex + 1, p.startPosition + |p.buffer| - config.chunkOverlap,
                     p.chunks + [c]);
    assert c.metadata.endPosition == p.startPosition + |p.buffer|;
    assert q.startPosition == NextStart(q.chunks, config.chunkOverlap);
    assert PackInvariant(q, n + 1, config, documentId, documentName);
    PackCloseResult(p, sentence, config, documentId, documentName);
  }

  /** Appending a sentence to the buffer keeps the loop invariant. */
  lemma PackAppendKeeps(p: Packing, n: nat, sentence: string, config: ChunkConfig,
                        documentId: string, documentName: string)
    requires PackInvariant(p, n, config, documentId, documentName) && IsSentence(sentence)
    requires !Closes(p, sentence, config)
    ensures PackInvariant(PackSentence(p, sentence, config, documentId, documentName), n + 1,
                          config, documentId, documentName)
  {
    var q := PackSentence(p, sentence, config, documentId, documentName);
    assert q.chunks == p.chunks && q.chunkIndex == p.chunkIndex && q.startPosition == p.startPosition;
    assert q.buffer[|q.buffer| - 1] == sentence[|sentence| - 1];
  }

  lemma PackSentenceKeeps(p: Packing, n: nat, sentence: string, config: ChunkConfig,
                          documentId: string, documentName: string)
    requires PackInvariant(p, n, config, documentId, documentName) && IsSentence(sentence)
    ensures PackInvariant(PackSentence(p, sentence, config, documentId, documentName), n + 1,
                          config, documentId, documentName)
  {
    if Closes(p, sentence, config) {
      PackCloseKeeps(p, n, sentence, config, documentId, documentName);
    } else {
      PackAppendKeeps(p, n, sentence, config, documentId, documentName);
    }
  }

  lemma {:induction false} PackFirstInvariant(sentences: seq<string>, n: nat, config: ChunkConfig,
                                              documentId: string, documentName: string)
    requires n <= |sentences|
    requires forall k :: 0 <= k < |sentences| ==> IsSentence(sentences[k])
    ensures PackInvariant(PackFirst(sentences, n, config, documentId, documentName), n,
                          config, documentId, documentName)
  {
    if n > 0 {
      PackFirstInvariant(sentences, n - 1, config, documentId, documentName);
      PackSentenceKeeps(PackFirst(sentences, n - 1, config, documentId, documentName), n - 1,
                        sentences[n - 1], config, documentId, documentName);
    }
  }

  lemma PackAllInvariant(sentences: seq<string>, config: ChunkConfig,
                         documentId: string, documentName: string)
    requires forall k :: 0 <= k < |sentences| ==> IsSentence(sentences[k])
    ensures PackInvariant(PackAll(sentences, config, documentId, documentName), |sentences|,
                          config, documentId, documentName)
  {
    PackFirstInvariant(sentences, |sentences|, config, documentId, documentName);
  }

  lemma FlushCount(p: Packing, n: nat, config: ChunkConfig, documentId: string, documentName: string)
    requires PackInvariant(p, n, config, documentId, documentName)
    ensures var r := Flush(p, documentId, documentName);
      (r == [] <==> n == 0) && |r| <= n
  {
    var r := Flush(p, documentId, documentName);
    if n > 0 {
      TrimKeepsLast(p.buffer);
      assert r == p.chunks + [BufferChunk(p, documentId, documentName)];
    } else {
      assert r == [];
    }
  }

  lemma FlushFacts(p: Packing, n: nat, config: ChunkConfig, documentId: string, documentName: string)
    requires PackInvariant(p, n, config, documentId, documentName)
    ensures ChunksOk(Flush(p, documentId, documentName), config.chunkOverlap, documentId, documentName)
  {
    var r := Flush(p, documentId, documentName);
    if |Trim(p.buffer)| > 0 {
      var c := BufferChunk(p, documentId, documentName);
      assert p.buffer != [];
      BufferChunkShaped(p, documentId, documentName);
      ChunksOkAppend(p.chunks, c, config.chunkOverlap, documentId, documentName);
      assert r == p.chunks + [c];
    } else {
      assert r == p.chunks;
    }
  }

  /** Sentence mode gives no chunk exactly when there is no sentence, and
      otherwise at least one and at most one per sentence. */
  lemma SentenceChunkCount(text: string, config: ChunkConfig, documentId: string, documentName: string)
    ensures var n := |SplitIntoSentences(text)|;
      var r := SentenceChunks(text, config, documentId, documentName);
      (r == [] <==> n == 0) && |r| <= n
  {
    var sentences := SplitIntoSentences(text);
    PackAllInvariant(sentences, config, documentId, documentName);
    FlushCount(PackAll(sentences, config, documentId, documentName), |sentences|, config, documentId, documentName);
  }

  /** Indices, ids, offsets and content shape of the sentence-mode chunks. */
  lemma SentenceChunksFacts(text: string, config: ChunkConfig, documentId: string, documentName: string)
    ensures ChunksOk(SentenceChunks(text, config, documentId, documentName), config.chunkOverlap,
                     documentId, documentName)
  {
    var sentences := SplitIntoSentences(text);
    PackAllInvariant(sentences, config, documentId, documentName);
    FlushFacts(PackAll(sentences, config, documentId, documentName), |sentences|, config, documentId, documentName);
  }

  /** With `chunkOverlap == 0`, `slice(-0)` keeps the whole buffer, so
      every chunk starts with the document's first sentence: each chunk
      repeats everything before it instead of overlapping by nothing. */
  lemma ZeroOverlapRepeatsFirstSentence(text: string, config: ChunkConfig,
                                        documentId: string, documentName: string)
    requires config.chunkOverlap == 0
    ensures var sentences := SplitIntoSentences(text);
      var r := SentenceChunks(text, config, documentId, documentName);
      sentences != [] ==> forall k :: 0 <= k < |r| ==> StartsWith(r[k].content, sentences[0])
  {
    var sentences := SplitIntoSentences(text);
    if sentences != [] {
      ZeroOverlapPrefix(sentences, config, documentId, documentName);
      FlushPrefix(PackAll(sentences, config, documentId, documentName), sentences[0], documentId, documentName);
    }
  }

  lemma FlushPrefix(p: Packing, s0: string, documentId: string, documentName: string)
    requires IsSentence(s0) && AllStartWith(p, s0)
    ensures var r := Flush(p, documentId, documentName);
      forall k :: 0 <= k < |r| ==> StartsWith(r[k].content, s0)
  {
    var r := Flush(p, documentId, documentName);
    TrimKeepsPrefix(s0, p.buffer);
    var c := BufferChunk(p, documentId, documentName);
    assert StartsWith(c.content, s0);
    assert r == p.chunks + [c];
    forall k | 0 <= k < |r| ensures StartsWith(r[k].content, s0) {
      if k < |p.chunks| { assert r[k] == p.chunks[k]; }
    }
  }

  lemma ZeroOverlapPrefix(sentences: seq<string>, config: ChunkConfig,
                          documentId: string, documentName: string)
    requires config.chunkOverlap == 0 && sentences != []
    requires forall k :: 0 <= k < |sentences| ==> IsSentence(sentences[k])
    ensures AllStartWith(PackAll(sentences, config, documentId, documentName), sentences[0])
  {
    ZeroOverlapFirst(sentences, |sentences|, config, documentId, documentName);
  }

  predicate AllStartWith(p: Packing, s0: string) {
    && StartsWith(p.buffer, s0)
    && forall k :: 0 <= k < |p.chunks| ==> StartsWith(p.chunks[k].content, s0)
  }

  /** With no overlap, one iteration keeps every chunk and the buffer
      starting with the first sentence. */
  lemma ZeroOverlapStep(p: Packing, s: string, s0: string, config: ChunkConfig,
                        documentId: string, documentName: string)
    requires config.chunkOverlap == 0 && IsSentence(s0) && AllStartWith(p, s0)
    ensures AllStartWith(PackSentence(p, s, config, documentId, documentName), s0)
  {
    var q := PackSentence(p, s, config, documentId, documentName);
    SliceTail(p.buffer, 0);
    assert q.buffer == p.buffer + " " + s;
    assert StartsWith(q.buffer, s0);
    if |p.buffer| + 1 + |s| > config.chunkSize {
      TrimKeepsPrefix(s0, p.buffer);
      var c := BufferChunk(p, documentId, documentName);
      assert StartsWith(c.content, s0);
      assert q.chunks == p.chunks + [c];
      forall k | 0 <= k < |q.chunks| ensures StartsWith(q.chunks[k].content, s0) {
        if k < |p.chunks| { assert q.chunks[k] == p.chunks[k]; }
      }
    } else {
      assert q.chunks == p.chunks;
    }
  }

  lemma {:induction false} ZeroOverlapFirst(sentences: seq<string>, n: nat, config: ChunkConfig,
                                            documentId: string, documentName: string)
    requires config.chunkOverlap == 0 && 0 < n <= |sentences|
    requires forall k :: 0 <= k < |sentences| ==> IsSentence(sentences[k])
    ensures AllStartWith(PackFirst(sentences, n, config, documentId, documentName), sentences[0])
  {
    var s0 := sentences[0];
    assert IsSentence(s0);
    var p := PackFirst(sentences, n - 1, config, documentId, documentName);
    if n == 1 {
      assert p == Packing([], 0, 0, []);
      assert Potential([], s0) == s0;
      assert s0[..|s0|] == s0;
    } else {
      ZeroOverlapFirst(sentences, n - 1, config, documentId, documentName);
      ZeroOverlapStep(p, sentences[n - 1], s0, config, documentId, documentName);
    }
  }

  // =====================================================================
  // Fixed-window mode
  // =====================================================================

  /** The configurations for which `while (position < text.length)` ends. */
  predicate WindowLoopEnds(length: nat, config: ChunkConfig) {
    length == 0 || (config.chunkOverlap <= 0 && config.chunkSize - config.chunkOverlap > 0)
  }

  /** `position = Math.min(position + chunkSize, text.length) - chunkOverlap`. */
  function NextPosition(position: int, length: nat, config: ChunkConfig): int {
    WindowEnd(position, length, config) - config.chunkOverlap
  }

  /** `Math.min(position + chunkSize, text.length)`. */
  function WindowEnd(position: int, length: nat, config: ChunkConfig): int {
    Min(position + config.chunkSize, length)
  }

  /** The window the loop cuts at `position`:
      `text.slice(position, Math.min(position + chunkSize, text.length))`. */
  function WindowAt(text: string, config: ChunkConfig, position: int, chunkIndex: nat,
                    documentId: string, documentName: string): DocumentChunk
  {
    MakeChunk(documentId, documentName, chunkIndex,
      Slice(text, position, WindowEnd(position, |text|, config)), position, WindowEnd(position, |text|, config))
  }

  /** The windows from `position` on, numbered from `chunkIndex`. */
  function Windows(text: string, config: ChunkConfig, position: int, chunkIndex: nat,
                   documentId: string, documentName: string): (r: seq<DocumentChunk>)
    requires WindowLoopEnds(|text|, config) && position >= 0
    ensures r == [] <==> position >= |text|
    decreases |text| - position
  {
    if position >= |text| then []
    else
      [WindowAt(text, config, position, chunkIndex, documentId, documentName)]
      + Windows(text, config, NextPosition(position, |text|, config), chunkIndex + 1, documentId, documentName)
  }

  lemma {:induction false} WindowsUnfold(text: string, config: ChunkConfig, position: int, chunkIndex: nat,
                                         documentId: string, documentName: string)
    requires WindowLoopEnds(|text|, config) && 0 <= position < |text|
    ensures Windows(text, config, position, chunkIndex, documentId, documentName)
      == [WindowAt(text, config, position, chunkIndex, documentId, documentName)]
         + Windows(text, config, NextPosition(position, |text|, config), chunkIndex + 1, documentId, documentName)
  {
  }

  lemma {:induction false} WindowsIndexed(text: string, config: ChunkConfig, position: int, chunkIndex: nat,
                                          documentId: string, documentName: string)
    requires WindowLoopEnds(|text|, config) && position >= 0
    ensures IndexedFrom(Windows(text, config, position, chunkIndex, documentId, documentName),
                        documentId, documentName, chunkIndex)
    decreases |text| - position
  {
    if position < |text| {
      var next := NextPosition(position, |text|, config);
      WindowsUnfold(text, config, position, chunkIndex, documentId, documentName);
      WindowsIndexed(text, config, next, chunkIndex + 1, documentId, documentName);
      var first := WindowAt(text, config, position, chunkIndex, documentId, documentName);
      IndexedCons(first, Windows(text, config, next, chunkIndex + 1, documentId, documentName),
                  documentId, documentName, chunkIndex);
    }
  }

  /** Numbering is kept by putting chunk number `first` in front. */
  lemma IndexedCons(c: DocumentChunk, rest: seq<DocumentChunk>, documentId: string, documentName: string, first: nat)
    requires c.id == ChunkId(documentId, first) && c.metadata.chunkIndex == first
    requires c.metadata.documentId == documentId && c.metadata.documentName == documentName
    requires IndexedFrom(rest, documentId, documentName, first + 1)
    ensures IndexedFrom([c] + rest, documentId, documentName, first)
  {
    var w := [c] + rest;
    forall k | 0 <= k < |w|
      ensures w[k].id == ChunkId(documentId, first + k)
      ensures w[k].metadata.documentId == documentId && w[k].metadata.documentName == documentName
      ensures w[k].metadata.chunkIndex == first + k
    {
      if k > 0 { assert w[k] == rest[k - 1]; }
    }
  }

  function Contents(chunks: seq<DocumentChunk>): (r: seq<string>)
    ensures |r| == |chunks|
    ensures forall k :: 0 <= k < |chunks| ==> r[k] == chunks[k].content
  {
    if chunks == [] then [] else [chunks[0].content] + Contents(chunks[1..])
  }

  /** With no overlap and a positive size, the window at `position` is the
      next `chunkSize` characters (or what is left), and the rest start
      where it ends. */
  lemma {:induction false} WindowsStep(text: string, config: ChunkConfig, position: nat, chunkIndex: nat,
                                       documentId: string, documentName: string)
    requires config.chunkOverlap == 0 && config.chunkSize > 0 && position < |text|
    ensures var end := WindowEnd(position, |text|, config);
      && position < end <= |text|
      && Windows(text, config, position, chunkIndex, documentId, documentName)
         == [WindowAt(text, config, position, chunkIndex, documentId, documentName)]
            + Windows(text, config, end, chunkIndex + 1, documentId, documentName)
  {
    WindowsUnfold(text, config, position, chunkIndex, documentId, documentName);
  }

  /** The window at `position < text.length` is `text[position..end]` for
      the `end` the loop computes. */
  lemma WindowAtFacts(text: string, config: ChunkConfig, position: nat, chunkIndex: nat,
                      documentId: string, documentName: string)
    requires config.chunkSize > 0 && position < |text|
    ensures var c, end := WindowAt(text, config, position, chunkIndex, documentId, documentName),
                          WindowEnd(position, |text|, config);
      && position < end <= |text|
      && c.metadata.startPosition == position && c.metadata.endPosition == end
      && c.content == text[position..end]
      && end - position <= config.chunkSize
      && (end < |text| ==> end - position == config.chunkSize)
  {
  }

  /** With no overlap and a positive size, the contents of the windows
      from `position` concatenate back to `text[position..]`. */
  lemma {:induction false} WindowsCover(text: string, config: ChunkConfig, position: nat, chunkIndex: nat,
                                        documentId: string, documentName: string)
    requires config.chunkOverlap == 0 && config.chunkSize > 0 && position <= |text|
    ensures Flatten(Contents(Windows(text, config, position, chunkIndex, documentId, documentName)))
            == text[position..]
    decreases |text| - position
  {
    var w := Windows(text, config, position, chunkIndex, documentId, documentName);
    if position < |text| {
      var end := WindowEnd(position, |text|, config);
      var first := WindowAt(text, config, position, chunkIndex, documentId, documentName);
      var rest := Windows(text, config, end, chunkIndex + 1, documentId, documentName);
      WindowsStep(text, config, position, chunkIndex, documentId, documentName);
      assert text[position..] == text[position..end] + text[end..];
      assert w == [first] + rest;
      assert w[1..] == rest;
      var cw := Contents(w);
      assert cw[1..] == Contents(rest);
      assert Flatten(cw) == cw[0] + Flatten(Contents(rest));
      WindowAtFacts(text, config, position, chunkIndex, documentId, documentName);
      WindowsCover(text, config, end, chunkIndex + 1, documentId, documentName);
    } else {
      assert w == [];
    }
  }

  /** With no overlap and a positive size, there is a window from
      `position` exactly when `position` is inside the text; the first
      starts at `position` and the last ends the text. */
  lemma {:induction false} WindowsEnds(text: string, config: ChunkConfig, position: nat, chunkIndex: nat,
                                       documentId: string, documentName: string)
    requires config.chunkOverlap == 0 && config.chunkSize > 0 && position <= |text|
    ensures var w := Windows(text, config, position, chunkIndex, documentId, documentName);
      && (w == [] <==> position == |text|)
      && (w != [] ==> w[0].metadata.startPosition == position
                      && w[|w| - 1].metadata.endPosition == |text|)
    decreases |text| - position
  {
    if position < |text| {
      var end := WindowEnd(position, |text|, config);
      var w := Windows(text, config, position, chunkIndex, documentId, documentName);
      var first := WindowAt(text, config, position, chunkIndex, documentId, documentName);
      var rest := Windows(text, config, end, chunkIndex + 1, documentId, documentName);
      WindowsStep(text, config, position, chunkIndex, documentId, documentName);
      assert w == [first] + rest;
      if rest != [] {
        assert w[|w| - 1] == rest[|rest| - 1];
      }
      WindowAtFacts(text, config, position, chunkIndex, documentId, documentName);
      WindowsEnds(text, config, end, chunkIndex + 1, documentId, documentName);
    }
  }

  /** With no overlap and a positive size, the windows are consecutive, each
      one is `text[start..end]`, and all have `chunkSize` characters but the
      last. */
  lemma {:induction false} WindowsTile(text: string, config: ChunkConfig, position: nat, chunkIndex: nat,
                                       documentId: string, documentName: string)
    requires config.chunkOverlap == 0 && config.chunkSize > 0 && position <= |text|
    ensures var w := Windows(text, config, position, chunkIndex, documentId, documentName);
      && (forall k :: 0 <= k < |w| - 1 ==> w[k + 1].metadata.startPosition == w[k].metadata.endPosition)
      && (forall k :: 0 <= k < |w| ==>
            && position <= w[k].metadata.startPosition <= w[k].metadata.endPosition <= |text|
            && w[k].content == text[w[k].metadata.startPosition..w[k].metadata.endPosition]
            && |w[k].content| <= config.chunkSize
            && (k < |w| - 1 ==> |w[k].content| == config.chunkSize))
    decreases |text| - position
  {
    if position < |text| {
      var end := WindowEnd(position, |text|, config);
      var w := Windows(text, config, position, chunkIndex, documentId, documentName);
      var first := WindowAt(text, config, position, chunkIndex, documentId, documentName);
      var rest := Windows(text, config, end, chunkIndex + 1, documentId, documentName);
      WindowsStep(text, config, position, chunkIndex, documentId, documentName);
      assert w == [first] + rest;
      WindowAtFacts(text, config, position, chunkIndex, documentId, documentName);
      WindowsTile(text, config, end, chunkIndex + 1, documentId, documentName);
      if rest != [] {
        WindowsEnds(text, config, end, chunkIndex + 1, documentId, documentName);
      }
      forall k | 0 <= k < |w| - 1
        ensures w[k + 1].metadata.startPosition == w[k].metadata.endPosition
      {
        assert w[k + 1] == rest[k];
        if k > 0 { assert w[k] == rest[k - 1]; }
      }
      forall k | 0 <= k < |w|
        ensures position <= w[k].metadata.startPosition <= w[k].metadata.endPosition <= |text|
        ensures w[k].content == text[w[k].metadata.startPosition..w[k].metadata.endPosition]
        ensures |w[k].content| <= config.chunkSize
        ensures k < |w| - 1 ==> |w[k].content| == config.chunkSize
      {
        if k > 0 { assert w[k] == rest[k - 1]; }
      }
    }
  }

  /** With no overlap and a positive size there are as few windows as can
      hold `text[position..]` at `chunkSize` characters each: `n` windows
      where `(n - 1) * chunkSize < text.length - position <= n * chunkSize`. */
  lemma {:induction false} WindowsCount(text: string, config: ChunkConfig, position: nat, chunkIndex: nat,
                                        documentId: string, documentName: string)
    requires config.chunkOverlap == 0 && config.chunkSize > 0 && position <= |text|
    ensures var n := |Windows(text, config, position, chunkIndex, documentId, documentName)|;
      && |text| - position <= n * config.chunkSize
      && (n > 0 ==> (n - 1) * config.chunkSize < |text| - position)
    decreases |text| - position
  {
    if position < |text| {
      var end := WindowEnd(position, |text|, config);
      WindowsStep(text, config, position, chunkIndex, documentId, documentName);
      WindowAtFacts(text, config, position, chunkIndex, documentId, documentName);
      WindowsCount(text, config, end, chunkIndex + 1, documentId, documentName);
      var m := |Windows(text, config, end, chunkIndex + 1, documentId, documentName)|;
      assert |Windows(text, config, position, chunkIndex, documentId, documentName)| == m + 1;
      CeilStep(|text| - position, config.chunkSize, m);
    }
  }

  /** One window more covers `cs` characters more. */
  lemma CeilStep(remaining: int, cs: int, m: nat)
    requires cs > 0 && remaining > 0
    requires remaining <= cs ==> m == 0
    requires remaining > cs ==> remaining - cs <= m * cs && (m > 0 ==> (m - 1) * cs < remaining - cs)
    ensures remaining <= (m + 1) * cs && m * cs < remaining
  {
    assert (m + 1) * cs == m * cs + cs;
    if m > 0 {
      assert (m - 1) * cs == m * cs - cs;
    }
  }

  /** The windows of a whole text, with no overlap and a positive size.
      Empty text gives no chunk. */
  lemma WindowsCoverText(text: string, config: ChunkConfig, documentId: string, documentName: string)
    requires config.chunkOverlap == 0 && config.chunkSize > 0
    ensures var w := Windows(text, config, 0, 0, documentId, documentName);
      && Flatten(Contents(w)) == text
      && (w == [] <==> text == [])
      && (w != [] ==> w[0].metadata.startPosition == 0 && w[|w| - 1].metadata.endPosition == |text|)
  {
    WindowsCover(text, config, 0, 0, documentId, documentName);
    WindowsEnds(text, config, 0, 0, documentId, documentName);
    assert text[0..] == text;
  }

  /** The window start after `steps` iterations from `position`. */
  function PositionFrom(position: int, steps: nat, length: nat, config: ChunkConfig): int
    decreases steps
  {
    if steps == 0 then position
    else PositionFrom(NextPosition(position, length, config), steps - 1, length, config)
  }

  lemma {:induction false} PositionStaysBelow(position: int, steps: nat, length: nat, config: ChunkConfig)
    requires length > 0 && !WindowLoopEnds(length, config)
    requires config.chunkOverlap > 0 ==> position < length
    requires config.chunkOverlap <= 0 ==> position <= 0
    ensures config.chunkOverlap > 0 ==> PositionFrom(position, steps, length, config) < length
    ensures config.chunkOverlap <= 0 ==> PositionFrom(position, steps, length, config) <= 0
    decreases steps
  {
    if steps > 0 {
      PositionStaysBelow(NextPosition(position, length, config), steps - 1, length, config);
    }
  }

  /** Outside `WindowLoopEnds`, on a non-empty text, the loop condition
      `position < text.length` holds after any number of iterations. */
  lemma WindowLoopNeverEnds(length: nat, config: ChunkConfig, steps: nat)
    requires length > 0 && !WindowLoopEnds(length, config)
    ensures PositionFrom(0, steps, length, config) < length
  {
    PositionStaysBelow(0, steps, length, config);
  }

  /** With `0 < chunkOverlap <= chunkSize`, the window that ends the text
      is its own successor: the position goes back to
      `text.length - chunkOverlap` and the same window is cut again. */
  lemma LastWindowRepeats(length: nat, config: ChunkConfig)
    requires length > 0 && 0 < config.chunkOverlap <= config.chunkSize
    ensures Min(length - config.chunkOverlap + config.chunkSize, length) == length
    ensures NextPosition(length - config.chunkOverlap, length, config) == length - config.chunkOverlap
  {
  }

  /** With `0 < chunkOverlap < chunkSize`, the loop does reach that window. */
  lemma {:induction false} ReachesLastWindow(position: int, length: nat, config: ChunkConfig)
    requires 0 <= position < length && 0 < config.chunkOverlap < config.chunkSize
    ensures exists steps: nat :: PositionFrom(position, steps, length, config) == length - config.chunkOverlap
    decreases length - position
  {
    var next := NextPosition(position, length, config);
    if position + config.chunkSize >= length {
      assert PositionFrom(position, 1, length, config) == next == length - config.chunkOverlap;
    } else {
      ReachesLastWindow(next, length, config);
      var steps: nat :| PositionFrom(next, steps, length, config) == length - config.chunkOverlap;
      assert PositionFrom(position, steps + 1, length, config) == length - config.chunkOverlap;
    }
  }

  // =====================================================================
  // The whole chunker
  // =====================================================================

  /** The `forEach` pass: every chunk gets `totalChunks == chunks.length`. */
  function WithTotal(chunks: seq<DocumentChunk>): (r: seq<DocumentChunk>)
    ensures |r| == |chunks|
    ensures forall k :: 0 <= k < |r| ==>
      && r[k].id == chunks[k].id && r[k].content == chunks[k].content
      && r[k].metadata == chunks[k].metadata.(totalChunks := |chunks|)
  {
    seq(|chunks|, k requires 0 <= k < |chunks| =>
      chunks[k].(metadata := chunks[k].metadata.(totalChunks := |chunks|)))
  }

  /** What `chunkDocument` computes. */
  function ChunkResult(text: string, config: ChunkConfig, documentId: string, documentName: string): (r: ChunkOutcome)
    ensures r.Hangs? <==> !config.preserveSentences && !WindowLoopEnds(|text|, config)
  {
    if config.preserveSentences then Finished(WithTotal(SentenceChunks(text, config, documentId, documentName)))
    else if WindowLoopEnds(|text|, config) then Finished(WithTotal(Windows(text, config, 0, 0, documentId, documentName)))
    else Hangs
  }

  /** Chunk `i` of a result has index `i`, id `documentId_chunk_i`, the
      document's id and name, and the result's length as `totalChunks`. */
  predicate WellNumbered(chunks: seq<DocumentChunk>, documentId: string, documentName: string) {
    forall i :: 0 <= i < |chunks| ==>
      && chunks[i].id == ChunkId(documentId, i)
      && chunks[i].metadata.documentId == documentId
      && chunks[i].metadata.documentName == documentName
      && chunks[i].metadata.chunkIndex == i
      && chunks[i].metadata.totalChunks == |chunks|
  }

  /** `WithTotal` turns consecutive numbering into `WellNumbered`. */
  lemma WithTotalNumbered(chunks: seq<DocumentChunk>, documentId: string, documentName: string)
    requires IndexedFrom(chunks, documentId, documentName, 0)
    ensures WellNumbered(WithTotal(chunks), documentId, documentName)
  {
  }

  /** One iteration of the sentence loop of `chunkDocument`. It computes
      `PackSentence`. */
  method PackStep(currentChunk: string, chunkIndex: nat, startPosition: int, chunks: seq<DocumentChunk>,
                  sentence: string, config: ChunkConfig, documentId: string, documentName: string)
    returns (currentChunk': string, chunkIndex': nat, startPosition': int, chunks': seq<DocumentChunk>)
    ensures Packing(currentChunk', chunkIndex', startPosition', chunks')
         == PackSentence(Packing(currentChunk, chunkIndex, startPosition, chunks), sentence,
                         config, documentId, documentName)
  {
    currentChunk', chunkIndex', startPosition', chunks' := currentChunk, chunkIndex, startPosition, chunks;
    var potentialChunk := currentChunk + (if currentChunk != "" then " " else "") + sentence;
    if |potentialChunk| > config.chunkSize && |currentChunk| > 0 {
      var chunk := DocumentChunk(
        ChunkId(documentId, chunkIndex),
        Trim(currentChunk),
        ChunkMetadata(documentId, documentName, chunkIndex,
                      startPosition, startPosition + |currentChunk|, 0));
      assert chunk == MakeChunk(documentId, documentName, chunkIndex, Trim(currentChunk),
                                startPosition, startPosition + |currentChunk|);
      chunks' := chunks + [chunk];
      var overlapText := SliceFrom(currentChunk, -config.chunkOverlap);
      currentChunk' := overlapText + " " + sentence;
      startPosition' := chunk.metadata.endPosition - config.chunkOverlap;
      chunkIndex' := chunkIndex + 1;
    } else {
      currentChunk' := potentialChunk;
    }
  }

  /** The sentence loop of `chunkDocument` and the final flush. They
      compute `Flush(PackAll(...))`. */
  method PackSentences(sentences: seq<string>, config: ChunkConfig, documentId: string, documentName: string)
    returns (chunks: seq<DocumentChunk>)
    ensures chunks == Flush(PackAll(sentences, config, documentId, documentName), documentId, documentName)
  {
    chunks := [];
    var currentChunk: string := "";
    var chunkIndex: nat := 0;
    var startPosition: int := 0;

    for i := 0 to |sentences|
      invariant Packing(currentChunk, chunkIndex, startPosition, chunks)
             == PackFirst(sentences, i, config, documentId, documentName)
    {
      currentChunk, chunkIndex, startPosition, chunks :=
        PackStep(currentChunk, chunkIndex, startPosition, chunks, sentences[i], config, documentId, documentName);
    }

    ghost var packed := Packing(currentChunk, chunkIndex, startPosition, chunks);
    assert packed == PackAll(sentences, config, documentId, documentName);
    if |Trim(currentChunk)| > 0 {
      var chunk := DocumentChunk(
        ChunkId(documentId, chunkIndex),
        Trim(currentChunk),
        ChunkMetadata(documentId, documentName, chunkIndex,
                      startPosition, startPosition + |currentChunk|, 0));
      assert chunk == MakeChunk(documentId, documentName, chunkIndex, Trim(currentChunk),
                                startPosition, startPosition + |currentChunk|);
      assert chunk == BufferChunk(packed, documentId, documentName);
      chunks := chunks + [chunk];
    }
  }

  /** The fixed-window loop of `chunkDocument`, for the configurations
      where it ends. It computes `Windows` from position 0. */
  method CutWindows(text: string, config: ChunkConfig, documentId: string, documentName: string)
    returns (chunks: seq<DocumentChunk>)
    requires WindowLoopEnds(|text|, config)
    ensures chunks == Windows(text, config, 0, 0, documentId, documentName)
  {
    chunks := [];
    var position: int := 0;
    var chunkIndex: nat := 0;
    ghost var all := Windows(text, config, 0, 0, documentId, documentName);
    assert [] + all == all;
    while position < |text|
      invariant position >= 0
      invariant chunks + Windows(text, config, position, chunkIndex, documentId, documentName) == all
      decreases |text| - position
    {
      var endPosition := Min(position + config.chunkSize, |text|);
      var chunkContent := Slice(text, position, endPosition);
      var chunk := DocumentChunk(
        ChunkId(documentId, chunkIndex),
        chunkContent,
        ChunkMetadata(documentId, documentName, chunkIndex, position, endPosition, 0));
      assert endPosition == WindowEnd(position, |text|, config);
      assert chunk == WindowAt(text, config, position, chunkIndex, documentId, documentName);
      WindowsAppend(chunks, all, text, config, position, chunkIndex, documentId, documentName);
      ghost var next := NextPosition(position, |text|, config);
      chunks := chunks + [chunk];
      position := endPosition - config.chunkOverlap;
      assert position == next;
      chunkIndex := chunkIndex + 1;
    }
    WindowsDone(chunks, all, text, config, position, chunkIndex, documentId, documentName);
  }

  /** One iteration of the window loop keeps `chunks + windows == all`. */
  lemma WindowsAppend(chunks: seq<DocumentChunk>, all: seq<DocumentChunk>, text: string, config: ChunkConfig,
                      position: int, chunkIndex: nat, documentId: string, documentName: string)
    requires WindowLoopEnds(|text|, config) && 0 <= position < |text|
    requires chunks + Windows(text, config, position, chunkIndex, documentId, documentName) == all
    ensures NextPosition(position, |text|, config) > position
    ensures (chunks + [WindowAt(text, config, position, chunkIndex, documentId, documentName)])
      + Windows(text, config, NextPosition(position, |text|, config), chunkIndex + 1, documentId, documentName)
      == all
  {
    WindowsUnfold(text, config, position, chunkIndex, documentId, documentName);
  }

  lemma WindowsDone(chunks: seq<DocumentChunk>, all: seq<DocumentChunk>, text: string, config: ChunkConfig,
                    position: int, chunkIndex: nat, documentId: string, documentName: string)
    requires WindowLoopEnds(|text|, config) && position >= |text| && position >= 0
    requires chunks + Windows(text, config, position, chunkIndex, documentId, documentName) == all
    ensures chunks == all
  {
    assert chunks + [] == chunks;
  }

  /** The `forEach` pass that sets `totalChunks`. It computes `WithTotal`. */
  method SetTotals(produced: seq<DocumentChunk>) returns (chunks: seq<DocumentChunk>)
    ensures chunks == WithTotal(produced)
  {
    chunks := produced;
    var total := |chunks|;
    ghost var target := WithTotal(produced);
    for k := 0 to total
      invariant |chunks| == total
      invariant forall j :: 0 <= j < k ==> chunks[j] == target[j]
      invariant forall j :: k <= j < total ==> chunks[j] == produced[j]
    {
      chunks := chunks[k := chunks[k].(metadata := chunks[k].metadata.(totalChunks := total))];
    }
  }

  /** Every chunk the chunker returns is numbered in order. */
  lemma ChunkResultNumbered(text: string, config: ChunkConfig, documentId: string, documentName: string)
    ensures ChunkResult(text, config, documentId, documentName).Finished? ==>
      WellNumbered(ChunkResult(text, config, documentId, documentName).chunks, documentId, documentName)
  {
    if config.preserveSentences {
      SentenceChunksFacts(text, config, documentId, documentName);
      WithTotalNumbered(SentenceChunks(text, config, documentId, documentName), documentId, documentName);
    } else if WindowLoopEnds(|text|, config) {
      WindowsIndexed(text, config, 0, 0, documentId, documentName);
      WithTotalNumbered(Windows(text, config, 0, 0, documentId, documentName), documentId, documentName);
    }
  }

  /** `chunkDocument`. It computes `ChunkResult`. */
  method ChunkDocument(text: string, config: ChunkConfig, documentId: string, documentName: string)
    returns (outcome: ChunkOutcome)
    ensures outcome == ChunkResult(text, config, documentId, documentName)
    ensures outcome.Hangs? <==> !config.preserveSentences && !WindowLoopEnds(|text|, config)
    ensures outcome.Finished? ==> WellNumbered(outcome.chunks, documentId, documentName)
  {
    var chunks: seq<DocumentChunk>;
    if config.preserveSentences {
      var sentences := SplitIntoSentences(text);
      chunks := PackSentences(sentences, config, documentId, documentName);
      SentenceChunksFacts(text, config, documentId, documentName);
    } else {
      if !WindowLoopEnds(|text|, config) {
        // The source's loop never exits here (WindowLoopNeverEnds).
        return Hangs;
      }
      chunks := CutWindows(text, config, documentId, documentName);
      WindowsIndexed(text, config, 0, 0, documentId, documentName);
    }
    WithTotalNumbered(chunks, documentId, documentName);
    chunks := SetTotals(chunks);
    outcome := Finished(chunks);
  }
}
