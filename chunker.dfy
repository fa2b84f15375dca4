/**
 * The document chunker (`chunk_text`): a character-window splitter that cuts
 * at paragraph, sentence or word boundaries in the second half of each window
 * and lets consecutive windows overlap.
 */
module Chunker {
  import opened Wrappers
  import opened PyText

  /** Characters per token in the size approximation. */
  const CharsPerToken: nat := 4

  /** A cut-point marker; none is empty. */
  type Separator = s: string | s != [] witness " "

  /** The paragraph break, tried first. */
  const ParagraphSeparator: Separator := "\n\n"

  /** The sentence markers tried, in order, after the paragraph break. */
  const SentenceSeparators: seq<Separator> := [". ", ".\n", ";\n", "\n"]

  /** The word break, tried last. */
  const WordSeparator: Separator := " "

  /**
   * Every cut point, in the order the chunker tries them: a paragraph break,
   * the sentence markers, then a single space.
   */
  const BreakSeparators: seq<Separator> := [ParagraphSeparator] + (SentenceSeparators + [WordSeparator])

  /**
   * Sizes for which the cursor always moves forward: a window that found a
   * separator is longer than half the budget, and the overlap is at most half.
   */
  predicate ValidParams(chunkSize: int, overlap: int)
  {
    chunkSize * CharsPerToken >= 1 &&
    0 <= overlap * CharsPerToken <= (chunkSize * CharsPerToken) / 2
  }

  /** `e` ends the rightmost occurrence of `sep` lying inside `text[lo:hi]`. */
  predicate IsLastBreak(text: string, sep: string, lo: int, hi: int, e: int)
  {
    lo <= e - |sep| && e <= hi && OccursAt(text, sep, e - |sep|) &&
    forall i :: e - |sep| < i && i + |sep| <= hi ==> !OccursAt(text, sep, i)
  }

  /**
   * The cut-point search of `chunk_text`: try the separators of `seps` in
   * order and end the window after the rightmost occurrence in `text[lo:hi]`
   * of the first one found.
   */
  function FirstBreak(text: string, seps: seq<Separator>, lo: nat, hi: nat): (r: Option<nat>)
    requires hi <= |text|
    ensures r.Some? ==> lo < r.value <= hi
  {
    if seps == [] then None
    else
      var found := RFind(text, seps[0], lo, hi);
      if found != -1 then Some(found + |seps[0]|)
      else FirstBreak(text, seps[1..], lo, hi)
  }

  /** Searching `a + b` is searching `a`, then `b` when `a` found nothing. */
  lemma {:induction false} FirstBreakAppend(text: string, a: seq<Separator>, b: seq<Separator>, lo: nat, hi: nat)
    requires hi <= |text|
    ensures FirstBreak(text, a + b, lo, hi)
            == if FirstBreak(text, a, lo, hi).Some? then FirstBreak(text, a, lo, hi) else FirstBreak(text, b, lo, hi)
  {
    assert forall m :: 0 <= m < |a + b| ==> (a + b)[m] == if m < |a| then a[m] else b[m - |a|];
    if a != [] {
      assert (a + b)[0] == a[0];
      assert (a + b)[1..] == a[1..] + b;
      FirstBreakAppend(text, a[1..], b, lo, hi);
    } else {
      assert a + b == b;
    }
  }

  /** Searching a single separator is one `rfind`. */
  lemma FirstBreakSingle(text: string, sep: Separator, lo: nat, hi: nat)
    requires hi <= |text|
    ensures FirstBreak(text, [sep], lo, hi)
            == var found := RFind(text, sep, lo, hi); if found != -1 then Some(found + |sep|) else None
  {
    assert [sep][1..] == [];
  }

  /**
   * The three stages of the cut-point search in `chunk_text`: the paragraph
   * break, then the sentence markers in order, then the word break.
   */
  function StagedBreak(text: string, para: Separator, sentences: seq<Separator>, word: Separator,
                       lo: nat, hi: nat): (r: Option<nat>)
    requires hi <= |text|
    ensures r.Some? ==> lo < r.value <= hi
  {
    var paraBreak := RFind(text, para, lo, hi);
    if paraBreak != -1 then Some(paraBreak + |para|)
    else
      var sentBreak := FirstBreak(text, sentences, lo, hi);
      if sentBreak.Some? then sentBreak
      else
        var wordBreak := RFind(text, word, lo, hi);
        if wordBreak != -1 then Some(wordBreak + |word|) else None
  }

  /** The staged search is the single search over all its separators in order. */
  lemma StagedBreakIsFirstBreak(text: string, para: Separator, sentences: seq<Separator>, word: Separator,
                                lo: nat, hi: nat)
    requires hi <= |text|
    ensures StagedBreak(text, para, sentences, word, lo, hi)
            == FirstBreak(text, [para] + (sentences + [word]), lo, hi)
  {
    FirstBreakSingle(text, para, lo, hi);
    FirstBreakSingle(text, word, lo, hi);
    FirstBreakAppend(text, sentences, [word], lo, hi);
    FirstBreakAppend(text, [para], sentences + [word], lo, hi);
  }

  /** The window end the search puts in `text[lo:hi]`: after the break found, else a hard cut at `hi`. */
  function BreakEnd(text: string, seps: seq<Separator>, lo: nat, hi: nat): (end: nat)
    requires lo < hi <= |text|
    ensures lo < end <= hi
  {
    match FirstBreak(text, seps, lo, hi)
    case Some(e) => e
    case None => hi
  }

  /**
   * Where the window starting at `start` ends: `start + charChunk` when that
   * reaches the end of the text, otherwise just after the best cut point in
   * the second half of the window, or `start + charChunk` when it has none.
   */
  function WindowEnd(text: string, seps: seq<Separator>, start: nat, charChunk: nat): (end: nat)
    requires charChunk >= 1
    ensures start + charChunk / 2 < end <= start + charChunk
    ensures start + charChunk >= |text| ==> end == start + charChunk
  {
    var hardEnd := start + charChunk;
    if hardEnd < |text| then BreakEnd(text, seps, start + charChunk / 2, hardEnd)
    else hardEnd
  }

  /**
   * The break rule for a window end `end` searched in `text[lo:hi]`: the
   * first separator of `seps`, in order, that occurs there wins and the
   * window ends after its rightmost occurrence; when none occurs the window
   * is cut hard at `hi`.
   */
  predicate ObeysBreakRule(text: string, seps: seq<Separator>, lo: int, hi: int, end: int)
  {
    if seps == [] then end == hi
    else if OccursIn(text, seps[0], lo, hi) then IsLastBreak(text, seps[0], lo, hi, end)
    else ObeysBreakRule(text, seps[1..], lo, hi, end)
  }

  /** Ending the window at what the search finds, or at `hi` when it finds nothing, obeys the break rule. */
  lemma {:induction false} BreakEndObeysBreakRule(text: string, seps: seq<Separator>, lo: nat, hi: nat)
    requires lo < hi <= |text|
    ensures ObeysBreakRule(text, seps, lo, hi, BreakEnd(text, seps, lo, hi))
  {
    if seps != [] {
      RFindIsLast(text, seps[0], lo, hi);
      if RFind(text, seps[0], lo, hi) == -1 {
        BreakEndObeysBreakRule(text, seps[1..], lo, hi);
      }
    }
  }

  /**
   * The break rule of `chunk_text`: a window that reaches the end of the
   * text is not shortened; otherwise its end obeys the break rule for the
   * separators in priority order, searched in the second half of the window.
   */
  lemma WindowEndBreakRule(text: string, start: nat, charChunk: nat)
    requires charChunk >= 1 && start + charChunk < |text|
    ensures ObeysBreakRule(text, BreakSeparators, start + charChunk / 2, start + charChunk,
                           WindowEnd(text, BreakSeparators, start, charChunk))
  {
    BreakEndObeysBreakRule(text, BreakSeparators, start + charChunk / 2, start + charChunk);
  }


  /** A window `text[start:end]` of one iteration; `end` may lie past the text. */
  datatype Window = Window(start: nat, end: nat)

  /**
   * A cut function makes the cursor advance: every window it cuts ends
   * more than `overlap` past its start.
   */
  ghost predicate Advances(cut: nat -> nat, overlap: nat)
  {
    forall s: nat :: s + overlap < cut(s)
  }

  /**
   * The cursor walk of `chunk_text` over a text of length `len`: a window
   * from the cursor to `cut(start)`, then the walk from `overlap` before
   * that end, until the cursor leaves the text.
   */
  function Walk(cut: nat -> nat, len: nat, overlap: nat, start: nat): seq<Window>
    requires Advances(cut, overlap)
    decreases len - start
  {
    if start >= len then []
    else
      var end := cut(start);
      [Window(start, end)] + Walk(cut, len, overlap, end - overlap)
  }

  /** Unfolding the walk once at a cursor inside the text. */
  lemma WalkUnfold(cut: nat -> nat, len: nat, overlap: nat, start: nat)
    requires Advances(cut, overlap) && start < len
    ensures cut(start) > start + overlap
    ensures Walk(cut, len, overlap, start)
            == [Window(start, cut(start))] + Walk(cut, len, overlap, cut(start) - overlap)
  {
  }

  /**
   * The windows of a walk from `start` run to the end of a text of length
   * `len`: there are some exactly when `start` is inside the text, the first
   * starts at `start`, the last reaches the end, and every one starts inside.
   */
  predicate SpansRest(len: nat, start: nat, ws: seq<Window>)
  {
    ((|ws| > 0) == (start < len)) &&
    (|ws| > 0 ==> ws[0].start == start && ws[|ws| - 1].end >= len) &&
    (forall k :: 0 <= k < |ws| ==> start <= ws[k].start < len)
  }

  /**
   * Consecutive windows overlap by `overlap`: each next one starts that far
   * before the previous end, and strictly further right.
   */
  predicate Overlapping(overlap: nat, ws: seq<Window>)
  {
    forall k :: 0 <= k < |ws| - 1 ==>
      ws[k + 1].start == ws[k].end - overlap && ws[k].start < ws[k + 1].start
  }

  /** Each window ends where `cut` puts the end of a window at its start. */
  predicate EndsAtCut(cut: nat -> nat, ws: seq<Window>)
  {
    forall k :: 0 <= k < |ws| ==> ws[k].end == cut(ws[k].start)
  }

  /** Position `j` lies inside one of the windows `ws`. */
  predicate Covered(ws: seq<Window>, j: int)
  {
    exists k :: 0 <= k < |ws| && ws[k].start <= j < ws[k].end
  }

  lemma {:induction false} WalkSpansRest(cut: nat -> nat, len: nat, overlap: nat, start: nat)
    requires Advances(cut, overlap)
    ensures SpansRest(len, start, Walk(cut, len, overlap, start))
    decreases len - start
  {
    if start < len {
      var next := cut(start) - overlap;
      WalkSpansRest(cut, len, overlap, next);
      WalkUnfold(cut, len, overlap, start);
      var rest := Walk(cut, len, overlap, next);
      var ws := Walk(cut, len, overlap, start);
      forall k | 0 < k < |ws|
        ensures start <= ws[k].start < len
      {
        assert ws[k] == rest[k - 1];
      }
      if rest != [] {
        assert ws[|ws| - 1] == rest[|rest| - 1];
      }
    }
  }

  lemma {:induction false} WalkOverlapping(cut: nat -> nat, len: nat, overlap: nat, start: nat)
    requires Advances(cut, overlap)
    ensures Overlapping(overlap, Walk(cut, len, overlap, start))
    decreases len - start
  {
    if start < len {
      var next := cut(start) - overlap;
      WalkOverlapping(cut, len, overlap, next);
      WalkSpansRest(cut, len, overlap, next);
      WalkUnfold(cut, len, overlap, start);
      var rest := Walk(cut, len, overlap, next);
      var ws := Walk(cut, len, overlap, start);
      forall k | 0 <= k < |ws| - 1
        ensures ws[k + 1].start == ws[k].end - overlap && ws[k].start < ws[k + 1].start
      {
        assert ws[k + 1] == rest[k];
        if k > 0 {
          assert ws[k] == rest[k - 1];
        }
      }
    }
  }

  lemma {:induction false} WalkEndsAtCut(cut: nat -> nat, len: nat, overlap: nat, start: nat)
    requires Advances(cut, overlap)
    ensures EndsAtCut(cut, Walk(cut, len, overlap, start))
    decreases len - start
  {
    if start < len {
      var next := cut(start) - overlap;
      WalkEndsAtCut(cut, len, overlap, next);
      WalkUnfold(cut, len, overlap, start);
      var rest := Walk(cut, len, overlap, next);
      var ws := Walk(cut, len, overlap, start);
      forall k | 0 < k < |ws|
        ensures ws[k].end == cut(ws[k].start)
      {
        assert ws[k] == rest[k - 1];
      }
    }
  }

  lemma {:induction false} WalkCovers(cut: nat -> nat, len: nat, overlap: nat, start: nat)
    requires Advances(cut, overlap)
    ensures forall j :: start <= j < len ==> Covered(Walk(cut, len, overlap, start), j)
    decreases len - start
  {
    if start < len {
      var end := cut(start);
      var next := end - overlap;
      WalkCovers(cut, len, overlap, next);
      WalkUnfold(cut, len, overlap, start);
      var rest := Walk(cut, len, overlap, next);
      var ws := Walk(cut, len, overlap, start);
      forall j | start <= j < len
        ensures Covered(ws, j)
      {
        if j < end {
          assert ws[0].start <= j < ws[0].end;
        } else {
          assert Covered(rest, j);
          var k :| 0 <= k < |rest| && rest[k].start <= j < rest[k].end;
          assert ws[k + 1] == rest[k];
        }
      }
    }
  }

  /** The window end of `chunk_text` as a function of the start, for a text, a separator list and a character budget. */
  function Cut(text: string, seps: seq<Separator>, charChunk: nat): nat -> nat
    requires charChunk >= 1
  {
    (s: nat) => WindowEnd(text, seps, s, charChunk)
  }

  /** With an overlap of at most half the budget, the cursor of `chunk_text` advances. */
  lemma CutAdvances(text: string, seps: seq<Separator>, charChunk: nat, charOverlap: nat)
    requires charChunk >= 1 && charOverlap <= charChunk / 2
    ensures Advances(Cut(text, seps, charChunk), charOverlap)
  {
    forall s: nat
      ensures s + charOverlap < Cut(text, seps, charChunk)(s)
    {
      assert Cut(text, seps, charChunk)(s) == WindowEnd(text, seps, s, charChunk);
    }
  }

  /**
   * The windows the loop visits from cursor `start` on: each next one starts
   * `charOverlap` before the previous end, until the cursor leaves the text.
   */
  function WindowsFrom(text: string, seps: seq<Separator>, start: nat, charChunk: nat, charOverlap: nat): seq<Window>
    requires charChunk >= 1 && charOverlap <= charChunk / 2
  {
    CutAdvances(text, seps, charChunk, charOverlap);
    Walk(Cut(text, seps, charChunk), |text|, charOverlap, start)
  }

  /**
   * The chunks a walk yields from cursor `start` on: the piece `piece` makes
   * of the window at the cursor, unless it is empty, then those of the walk
   * from `overlap` before that window's end.
   */
  function WalkChunks(piece: Window -> string, cut: nat -> nat, len: nat, overlap: nat, start: nat): seq<string>
    requires Advances(cut, overlap)
    decreases len - start
  {
    if start >= len then []
    else
      var chunk := piece(Window(start, cut(start)));
      (if chunk != [] then [chunk] else []) + WalkChunks(piece, cut, len, overlap, cut(start) - overlap)
  }

  /** One step of the walk at a cursor inside the text. */
  lemma {:induction false} WalkChunksStep(piece: Window -> string, cut: nat -> nat, len: nat, overlap: nat,
                                          start: nat, end: nat)
    requires Advances(cut, overlap) && start < len && cut(start) == end
    ensures end > start + overlap
    ensures var chunk := piece(Window(start, end));
      WalkChunks(piece, cut, len, overlap, start)
      == (if chunk != [] then [chunk] else []) + WalkChunks(piece, cut, len, overlap, end - overlap)
  {
  }

  /**
   * A walk yields at most one chunk per window, and each is the non-empty
   * piece of one of its windows.
   */
  lemma {:induction false} WalkChunksShape(piece: Window -> string, cut: nat -> nat, len: nat, overlap: nat, start: nat)
    requires Advances(cut, overlap)
    ensures var ws := Walk(cut, len, overlap, start);
      var cs := WalkChunks(piece, cut, len, overlap, start);
      |cs| <= |ws| &&
      forall c :: c in cs ==> c != [] && exists k :: 0 <= k < |ws| && c == piece(ws[k])
    decreases len - start
  {
    if start < len {
      var next := cut(start) - overlap;
      WalkChunksShape(piece, cut, len, overlap, next);
      WalkUnfold(cut, len, overlap, start);
      var ws := Walk(cut, len, overlap, start);
      var rest := Walk(cut, len, overlap, next);
      var cs := WalkChunks(piece, cut, len, overlap, start);
      var later := WalkChunks(piece, cut, len, overlap, next);
      forall c | c in cs
        ensures c != [] && exists k :: 0 <= k < |ws| && c == piece(ws[k])
      {
        if c !in later {
          assert c == piece(ws[0]);
        } else {
          var k :| 0 <= k < |rest| && c == piece(rest[k]);
          assert rest[k] == ws[k + 1];
        }
      }
    }
  }

  /** Conversely, the non-empty piece of every window of a walk is one of its chunks. */
  lemma {:induction false} WalkChunksKeep(piece: Window -> string, cut: nat -> nat, len: nat, overlap: nat,
                                          start: nat, k: nat)
    requires Advances(cut, overlap)
    requires k < |Walk(cut, len, overlap, start)| && piece(Walk(cut, len, overlap, start)[k]) != []
    ensures piece(Walk(cut, len, overlap, start)[k]) in WalkChunks(piece, cut, len, overlap, start)
    decreases len - start
  {
    var next := cut(start) - overlap;
    WalkUnfold(cut, len, overlap, start);
    if k > 0 {
      WalkChunksKeep(piece, cut, len, overlap, next, k - 1);
    }
  }

  /** The non-empty pieces of the windows `ws`, in window order. */
  function KeptPieces(piece: Window -> string, ws: seq<Window>): seq<string>
  {
    if ws == [] then []
    else (if piece(ws[0]) != [] then [piece(ws[0])] else []) + KeptPieces(piece, ws[1..])
  }

  /** The chunks of a walk are exactly the non-empty pieces of its windows, in window order. */
  lemma {:induction false} WalkChunksKept(piece: Window -> string, cut: nat -> nat, len: nat, overlap: nat, start: nat)
    requires Advances(cut, overlap)
    ensures WalkChunks(piece, cut, len, overlap, start) == KeptPieces(piece, Walk(cut, len, overlap, start))
    decreases len - start
  {
    if start < len {
      var next := cut(start) - overlap;
      WalkUnfold(cut, len, overlap, start);
      WalkChunksKept(piece, cut, len, overlap, next);
      var ws := Walk(cut, len, overlap, start);
      assert ws[0] == Window(start, cut(start)) && ws[1..] == Walk(cut, len, overlap, next);
    }
  }

  /**
   * A position `j` inside the text whose every window gives a non-empty
   * piece lies in a window of the walk whose piece is one of its chunks.
   */
  lemma WalkKeepsPosition(piece: Window -> string, cut: nat -> nat, len: nat, overlap: nat, start: nat, j: nat)
    requires Advances(cut, overlap) && start <= j < len
    requires forall w: Window :: w.start <= j < w.end ==> piece(w) != []
    ensures var ws := Walk(cut, len, overlap, start);
      exists k :: 0 <= k < |ws| && ws[k].start <= j < ws[k].end &&
                  piece(ws[k]) in WalkChunks(piece, cut, len, overlap, start)
  {
    var ws := Walk(cut, len, overlap, start);
    WalkCovers(cut, len, overlap, start);
    assert Covered(ws, j);
    var k :| 0 <= k < |ws| && ws[k].start <= j < ws[k].end;
    WalkChunksKeep(piece, cut, len, overlap, start, k);
  }

  /** What the chunker makes of one window: `text[start:end].strip()`. */
  function PieceOf(text: string): Window -> string
  {
    (w: Window) => Strip(Slice(text, w.start, w.end))
  }

  /** All windows of a text longer than the budget. */
  function Windows(text: string, chunkSize: int, overlap: int): seq<Window>
    requires ValidParams(chunkSize, overlap)
  {
    WindowsFrom(text, BreakSeparators, 0, chunkSize * CharsPerToken, overlap * CharsPerToken)
  }

  /**
   * The chunks the cursor loop of `chunk_text` appends from cursor `start`
   * on: the non-empty stripped slices of the windows it visits, in order.
   */
  function ChunksFrom(text: string, seps: seq<Separator>, start: nat, charChunk: nat, charOverlap: nat): seq<string>
    requires charChunk >= 1 && charOverlap <= charChunk / 2
  {
    CutAdvances(text, seps, charChunk, charOverlap);
    WalkChunks(PieceOf(text), Cut(text, seps, charChunk), |text|, charOverlap, start)
  }

  lemma AppendAssociates(a: seq<string>, b: seq<string>, c: seq<string>)
    ensures (a + b) + c == a + (b + c)
  {
  }

  /** One turn of the loop: the window at the cursor, then the chunks from `charOverlap` before its end. */
  lemma ChunksFromStep(text: string, seps: seq<Separator>, start: nat, end: nat, charChunk: nat, charOverlap: nat)
    requires charChunk >= 1 && charOverlap <= charChunk / 2 && start < |text|
    requires end == WindowEnd(text, seps, start, charChunk)
    ensures end > start + charOverlap
    ensures var chunk := Strip(Slice(text, start, end));
      ChunksFrom(text, seps, start, charChunk, charOverlap)
      == (if chunk != [] then [chunk] else []) + ChunksFrom(text, seps, end - charOverlap, charChunk, charOverlap)
  {
    CutAdvances(text, seps, charChunk, charOverlap);
    assert PieceOf(text)(Window(start, end)) == Strip(Slice(text, start, end));
    WalkChunksStep(PieceOf(text), Cut(text, seps, charChunk), |text|, charOverlap, start, end);
  }

  /** What `chunk_text(text, chunk_size, overlap)` returns. */
  function Chunks(text: string, chunkSize: int, overlap: int): seq<string>
    requires ValidParams(chunkSize, overlap)
  {
    if |text| <= chunkSize * CharsPerToken then
      var t := Strip(text);
      if t != [] then [t] else []
    else
      ChunksFrom(text, BreakSeparators, 0, chunkSize * CharsPerToken, overlap * CharsPerToken)
  }

  /**
   * A text within the budget gives at most one chunk, its `strip()`, and
   * none exactly when it is all whitespace.
   */
  lemma ShortTextChunks(text: string, chunkSize: int, overlap: int)
    requires ValidParams(chunkSize, overlap) && |text| <= chunkSize * CharsPerToken
    ensures var cs := Chunks(text, chunkSize, overlap);
      |cs| <= 1 && (cs == [] <==> AllSpace(text)) && (cs != [] ==> cs[0] == Strip(text))
  {
    StripShape(text);
  }

  /**
   * The windows of a text longer than the budget: the first starts at 0,
   * each is no longer than the budget and longer than half of it, each ends
   * where the break rule puts the end of a window at its start, each next
   * one starts exactly `overlap` before the previous end and strictly
   * further right, every one starts inside the text and the last reaches
   * its end, so every position of the text lies in some window.
   */
  lemma WindowsCoverText(text: string, chunkSize: int, overlap: int)
    requires ValidParams(chunkSize, overlap) && |text| > chunkSize * CharsPerToken
    ensures var ws := Windows(text, chunkSize, overlap);
      var charChunk := chunkSize * CharsPerToken;
      var charOverlap := overlap * CharsPerToken;
      ws != [] && ws[0].start == 0 && ws[|ws| - 1].end >= |text| &&
      (forall k :: 0 <= k < |ws| ==>
         ws[k].start < |text| && ws[k].end == WindowEnd(text, BreakSeparators, ws[k].start, charChunk) &&
         ws[k].start + charChunk / 2 < ws[k].end <= ws[k].start + charChunk) &&
      (forall k :: 0 <= k < |ws| - 1 ==>
         ws[k + 1].start == ws[k].end - charOverlap && ws[k].start < ws[k + 1].start) &&
      (forall j :: 0 <= j < |text| ==> Covered(ws, j))
  {
    var charChunk := chunkSize * CharsPerToken;
    var charOverlap := overlap * CharsPerToken;
    var cut := Cut(text, BreakSeparators, charChunk);
    CutAdvances(text, BreakSeparators, charChunk, charOverlap);
    WalkSpansRest(cut, |text|, charOverlap, 0);
    WalkOverlapping(cut, |text|, charOverlap, 0);
    WalkEndsAtCut(cut, |text|, charOverlap, 0);
    WalkCovers(cut, |text|, charOverlap, 0);
    var ws := Windows(text, chunkSize, overlap);
    forall k | 0 <= k < |ws|
      ensures ws[k].end == WindowEnd(text, BreakSeparators, ws[k].start, charChunk)
    {
      assert ws[k].end == cut(ws[k].start);
    }
  }

  /**
   * Every chunk is non-empty and its own `strip()`; a chunk of a text longer
   * than the budget is the stripped slice of one of its windows, and there
   * are no more chunks than windows.
   */
  lemma ChunksAreStrippedWindows(text: string, chunkSize: int, overlap: int)
    requires ValidParams(chunkSize, overlap)
    ensures forall c :: c in Chunks(text, chunkSize, overlap) ==> c != [] && Strip(c) == c
    ensures var ws := Windows(text, chunkSize, overlap);
      var cs := Chunks(text, chunkSize, overlap);
      |text| > chunkSize * CharsPerToken ==>
        |cs| <= |ws| &&
        forall c :: c in cs ==> exists k :: 0 <= k < |ws| && c == Strip(Slice(text, ws[k].start, ws[k].end))
  {
    var charChunk := chunkSize * CharsPerToken;
    var charOverlap := overlap * CharsPerToken;
    var cs := Chunks(text, chunkSize, overlap);
    if |text| <= charChunk {
      StripShape(text);
      StrippedIsFixed(Strip(text));
    } else {
      var cut := Cut(text, BreakSeparators, charChunk);
      CutAdvances(text, BreakSeparators, charChunk, charOverlap);
      var ws := Walk(cut, |text|, charOverlap, 0);
      WalkChunksShape(PieceOf(text), cut, |text|, charOverlap, 0);
      forall c | c in cs
        ensures c != [] && Strip(c) == c
        ensures exists k :: 0 <= k < |ws| && c == Strip(Slice(text, ws[k].start, ws[k].end))
      {
        var k :| 0 <= k < |ws| && c == PieceOf(text)(ws[k]);
        var slice := Slice(text, ws[k].start, ws[k].end);
        assert c == Strip(slice);
        StripShape(slice);
        StrippedIsFixed(c);
      }
    }
  }

  /**
   * The chunks of a text longer than the budget are exactly the stripped
   * slices of its windows, in window order, with the empty ones dropped.
   */
  lemma ChunksInWindowOrder(text: string, chunkSize: int, overlap: int)
    requires ValidParams(chunkSize, overlap) && |text| > chunkSize * CharsPerToken
    ensures Chunks(text, chunkSize, overlap) == KeptPieces(PieceOf(text), Windows(text, chunkSize, overlap))
  {
    var charChunk := chunkSize * CharsPerToken;
    var charOverlap := overlap * CharsPerToken;
    var cut := Cut(text, BreakSeparators, charChunk);
    CutAdvances(text, BreakSeparators, charChunk, charOverlap);
    WalkChunksKept(PieceOf(text), cut, |text|, charOverlap, 0);
    assert Walk(cut, |text|, charOverlap, 0) == Windows(text, chunkSize, overlap);
    assert WalkChunks(PieceOf(text), cut, |text|, charOverlap, 0) == Chunks(text, chunkSize, overlap);
  }

  /**
   * No text is lost: every window of a text longer than the budget whose
   * slice is not all whitespace gives a chunk, so every non-whitespace
   * character lies in a window whose stripped slice is a chunk.
   */
  lemma ChunksKeepText(text: string, chunkSize: int, overlap: int, j: nat)
    requires ValidParams(chunkSize, overlap) && |text| > chunkSize * CharsPerToken
    requires j < |text| && !IsSpace(text[j])
    ensures var ws := Windows(text, chunkSize, overlap);
      exists k :: 0 <= k < |ws| && ws[k].start <= j < ws[k].end &&
                  Strip(Slice(text, ws[k].start, ws[k].end)) in Chunks(text, chunkSize, overlap)
  {
    var charChunk := chunkSize * CharsPerToken;
    var charOverlap := overlap * CharsPerToken;
    var cut := Cut(text, BreakSeparators, charChunk);
    var piece := PieceOf(text);
    CutAdvances(text, BreakSeparators, charChunk, charOverlap);
    forall w: Window | w.start <= j < w.end
      ensures piece(w) != []
    {
      var slice := Slice(text, w.start, w.end);
      assert slice[j - w.start] == text[j];
      StripKeepsNonSpace(slice, j - w.start);
    }
    WalkKeepsPosition(piece, cut, |text|, charOverlap, 0, j);
    assert Walk(cut, |text|, charOverlap, 0) == Windows(text, chunkSize, overlap);
    assert WalkChunks(piece, cut, |text|, charOverlap, 0) == Chunks(text, chunkSize, overlap);
  }

  /**
   * The `for sep in [...]: ... break` loop of `chunk_text` over the sentence
   * markers `sentences`, with the `else` branch of the loop reported as `None`.
   */
  method SearchSentenceBreak(text: string, sentences: seq<Separator>, lo: nat, hi: nat) returns (r: Option<nat>)
    requires hi <= |text|
    ensures r == FirstBreak(text, sentences, lo, hi)
  {
    r := None;
    var k := 0;
    while k < |sentences|
      invariant 0 <= k <= |sentences|
      invariant FirstBreak(text, sentences, lo, hi) == FirstBreak(text, sentences[k..], lo, hi)
    {
      var sep := sentences[k];
      var sentBreak := RFind(text, sep, lo, hi);
      assert sentences[k..][0] == sep;
      assert sentences[k..][1..] == sentences[k + 1..];
      if sentBreak != -1 {
        r := Some(sentBreak + |sep|);
        return;
      }
      k := k + 1;
    }
  }

  /**
   * One iteration's search for the window end in `chunk_text`: the paragraph
   * break `para`, then the sentence markers in order, then the word break
   * `word`, else a hard cut. It agrees with the single search in `WindowEnd`
   * over all these separators in that order.
   */
  method FindWindowEnd(text: string, para: Separator, sentences: seq<Separator>, word: Separator,
                       start: nat, charChunk: nat) returns (end: nat)
    requires charChunk >= 1
    ensures end == WindowEnd(text, [para] + (sentences + [word]), start, charChunk)
  {
    end := start + charChunk;
    if end < |text| {
      var lo := start + charChunk / 2;
      StagedBreakIsFirstBreak(text, para, sentences, word, lo, end);
      var paraBreak := RFind(text, para, lo, end);
      if paraBreak != -1 {
        end := paraBreak + |para|;
      } else {
        var sentBreak := SearchSentenceBreak(text, sentences, lo, end);
        if sentBreak.Some? {
          end := sentBreak.value;
        } else {
          var wordBreak := RFind(text, word, lo, end);
          if wordBreak != -1 {
            end := wordBreak + |word|;
          }
        }
      }
    }
  }

  /**
   * One turn of the cursor loop of `chunk_text`: cut the window at `start`,
   * keep its stripped slice if it is not empty, and move the cursor to
   * `charOverlap` before the window's end. The chunks kept so far followed by
   * those still to come stay the same, and the cursor moves right.
   */
  method VisitWindow(text: string, para: Separator, sentences: seq<Separator>, word: Separator,
                     start: nat, charChunk: nat, charOverlap: nat, chunks: seq<string>)
      returns (chunks': seq<string>, next: nat)
    requires charChunk >= 1 && charOverlap <= charChunk / 2 && start < |text|
    ensures start < next
    ensures chunks' + ChunksFrom(text, [para] + (sentences + [word]), next, charChunk, charOverlap)
            == chunks + ChunksFrom(text, [para] + (sentences + [word]), start, charChunk, charOverlap)
  {
    var end := FindWindowEnd(text, para, sentences, word, start, charChunk);
    var chunk := Strip(Slice(text, start, end));
    next := end - charOverlap;
    var kept := if chunk != [] then [chunk] else [];
    chunks' := chunks + kept;
    ghost var seps := [para] + (sentences + [word]);
    ChunksFromStep(text, seps, start, end, charChunk, charOverlap);
    AppendAssociates(chunks, kept, ChunksFrom(text, seps, next, charChunk, charOverlap));
  }

  /** The cursor loop of `chunk_text`, for a text longer than the budget. */
  method CollectChunks(text: string, para: Separator, sentences: seq<Separator>, word: Separator,
                       charChunk: nat, charOverlap: nat) returns (chunks: seq<string>)
    requires charChunk >= 1 && charOverlap <= charChunk / 2
    ensures chunks == ChunksFrom(text, [para] + (sentences + [word]), 0, charChunk, charOverlap)
  {
    ghost var seps := [para] + (sentences + [word]);
    chunks := [];
    var start: nat := 0;
    while start < |text|
      invariant chunks + ChunksFrom(text, seps, start, charChunk, charOverlap) == ChunksFrom(text, seps, 0, charChunk, charOverlap)
      decreases |text| - start
    {
      chunks, start := VisitWindow(text, para, sentences, word, start, charChunk, charOverlap, chunks);
      if start >= |text| {
        break;
      }
    }
    CutAdvances(text, seps, charChunk, charOverlap);
    assert ChunksFrom(text, seps, start, charChunk, charOverlap) == [];
    assert chunks + [] == chunks;
  }

  /** `chunk_text`: a text within the budget is one chunk, a longer one is cut into windows. */
  method ChunkText(text: string, chunkSize: int, overlap: int) returns (chunks: seq<string>)
    requires ValidParams(chunkSize, overlap)
    ensures chunks == Chunks(text, chunkSize, overlap)
  {
    var charChunk := chunkSize * CharsPerToken;
    var charOverlap := overlap * CharsPerToken;
    if |text| <= charChunk {
      var t := Strip(text);
      chunks := if t != [] then [t] else [];
    } else {
      chunks := CollectChunks(text, ParagraphSeparator, SentenceSeparators, WordSeparator, charChunk, charOverlap);
    }
  }
}
