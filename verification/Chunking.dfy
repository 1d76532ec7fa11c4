/** Paragraph chunks with character offsets, and sliding windows over paragraphs that
    are too long. */
module Chunking {
  import opened Text

  datatype Chunk = Chunk(text: string, start: int, end: int)

  const CHUNK_SIZE_CHARS := 1200
  const CHUNK_OVERLAP_CHARS := 150
  const PARAGRAPH_BREAK := "\n\n"

  // --------------------------------------------------------------------- windows

  /** Where the window after one that ends at `end` begins. */
  function NextStart(end: nat, overlap: nat): nat {
    if end > overlap then end - overlap else 0
  }

  /** From `start` on, windows advance or a single one suffices. */
  predicate Covers(text: string, size: nat, overlap: nat, start: nat) {
    start <= |text| && (overlap < size || |text| <= start + size)
  }

  function Windows(text: string, size: nat, overlap: nat, start: nat): seq<Chunk>
    requires Covers(text, size, overlap, start)
    decreases |text| - start
  {
    if start == |text| then []
    else
      var end := if |text| < start + size then |text| else start + size;
      [Chunk(text[start..end], start, end)]
      + if end == |text| then [] else Windows(text, size, overlap, end - overlap)
  }

  lemma WindowsStep(text: string, size: nat, overlap: nat, start: nat)
    requires Covers(text, size, overlap, start) && start < |text|
    ensures start + size < |text| ==>
              Windows(text, size, overlap, start)
              == [Chunk(text[start..start + size], start, start + size)]
                 + Windows(text, size, overlap, start + size - overlap)
    ensures start + size >= |text| ==>
              Windows(text, size, overlap, start) == [Chunk(text[start..|text|], start, |text|)]
  {
  }

  /** `rest` are the windows from `start` on. */
  ghost predicate Rest(rest: seq<Chunk>, text: string, size: nat, overlap: nat, start: nat) {
    Covers(text, size, overlap, start) && rest == Windows(text, size, overlap, start)
  }

  lemma FullWindow(rest: seq<Chunk>, text: string, size: nat, overlap: nat, start: nat)
    requires Rest(rest, text, size, overlap, start) && start + size < |text|
    ensures start < NextStart(start + size, overlap)
    ensures rest != [] && rest[0] == Chunk(text[start..start + size], start, start + size)
    ensures Rest(rest[1..], text, size, overlap, NextStart(start + size, overlap))
  {
    WindowsStep(text, size, overlap, start);
    TailOfCons(Chunk(text[start..start + size], start, start + size),
               Windows(text, size, overlap, start + size - overlap));
  }

  lemma LastWindow(rest: seq<Chunk>, text: string, size: nat, overlap: nat, start: nat)
    requires Rest(rest, text, size, overlap, start) && start < |text| <= start + size
    ensures rest == [Chunk(text[start..|text|], start, |text|)]
  {
    WindowsStep(text, size, overlap, start);
  }

  lemma NoWindow(rest: seq<Chunk>, text: string, size: nat, overlap: nat)
    requires Rest(rest, text, size, overlap, |text|)
    ensures rest == []
  {
  }

  lemma MoveOver(windows: seq<Chunk>, rest: seq<Chunk>)
    requires rest != []
    ensures windows + [rest[0]] + rest[1..] == windows + rest
  {
  }

  /** The loop ends, with the specified windows, whenever some window reaches the end of
      the text; WindowsEndExactly says when that is. */
  method WindowText(text: string, size: nat, overlap: nat) returns (windows: seq<Chunk>)
    requires overlap < size || |text| <= size
    ensures windows == Windows(text, size, overlap, 0)
  {
    windows := [];
    var start := 0;
    var length := |text|;
    ghost var rest := Windows(text, size, overlap, 0);
    ghost var all := rest;
    while start < length
      invariant Rest(rest, text, size, overlap, start)
      invariant windows + rest == all
      decreases length - start
    {
      var end := if length < start + size then length else start + size;
      ghost var before := windows;
      windows := windows + [Chunk(text[start..end], start, end)];
      if end == length {
        LastWindow(rest, text, size, overlap, start);
        return;
      }
      FullWindow(rest, text, size, overlap, start);
      MoveOver(before, rest);
      rest := rest[1..];
      start := NextStart(end, overlap);
    }
    NoWindow(rest, text, size, overlap);
  }

  /** Where the loop's start stands after `k` windows that stop short of the end. */
  function StartAfter(k: nat, size: nat, overlap: nat): nat {
    if k == 0 then 0 else NextStart(StartAfter(k - 1, size, overlap) + size, overlap)
  }

  lemma {:induction false} StartsGrow(k: nat, size: nat, overlap: nat)
    ensures overlap < size ==> StartAfter(k, size, overlap) >= k
    ensures overlap >= size ==> StartAfter(k, size, overlap) == 0
  {
    if k > 0 {
      StartsGrow(k - 1, size, overlap);
    }
  }

  /** The windows begin where the loop's start stands. */
  lemma {:induction false} WindowsBeginAtStarts(text: string, size: nat, overlap: nat, k: nat)
    requires Covers(text, size, overlap, 0) && k < |Windows(text, size, overlap, 0)|
    ensures Windows(text, size, overlap, 0)[k].start == StartAfter(k, size, overlap)
  {
    WindowsAreSlices(text, size, overlap, 0);
    if k > 0 {
      WindowsBeginAtStarts(text, size, overlap, k - 1);
      WindowsOverlap(text, size, overlap, 0, k - 1);
      assert IsSlice(Windows(text, size, overlap, 0)[k - 1], text, size);
    }
  }

  /** Some window reaches the end of the text, and the loop ends, exactly when the overlap
      is smaller than the window or the text fits in one. */
  lemma WindowsEndExactly(text: string, size: nat, overlap: nat)
    ensures (exists k: nat :: StartAfter(k, size, overlap) + size >= |text|) <==> overlap < size || |text| <= size
  {
    if overlap < size {
      StartsGrow(|text|, size, overlap);
    } else if |text| <= size {
      assert StartAfter(0, size, overlap) + size >= |text|;
    } else {
      forall k: nat ensures StartAfter(k, size, overlap) + size < |text| {
        StartsGrow(k, size, overlap);
      }
    }
  }

  /** At the default sizes windows are 1200 long and begin 1050 after each other. */
  lemma {:induction false} DefaultWindowsBegin(k: nat)
    ensures StartAfter(k, CHUNK_SIZE_CHARS, CHUNK_OVERLAP_CHARS) == 1050 * k && CHUNK_SIZE_CHARS == 1200
  {
    if k > 0 {
      DefaultWindowsBegin(k - 1);
    }
  }

  ghost predicate IsSlice(w: Chunk, text: string, size: nat) {
    0 <= w.start < w.end <= |text| && w.text == text[w.start..w.end] && |w.text| <= size
  }

  /** Nonempty slices of the text, the first from `start` and the last to the end. */
  ghost predicate Slices(ws: seq<Chunk>, text: string, size: nat, start: nat) {
    && (forall i | 0 <= i < |ws| :: IsSlice(ws[i], text, size))
    && (ws == [] <==> start == |text|)
    && (ws != [] ==> ws[0].start == start && Last(ws).end == |text|)
  }

  lemma SliceThenSlices(first: Chunk, rest: seq<Chunk>, text: string, size: nat, next: nat)
    requires IsSlice(first, text, size) && Slices(rest, text, size, next) && next < |text|
    ensures Slices([first] + rest, text, size, first.start)
  {
    assert Last([first] + rest) == Last(rest);
  }

  lemma FirstIsSlice(text: string, size: nat, overlap: nat, start: nat)
    requires overlap < size && start + size < |text|
    requires Slices(Windows(text, size, overlap, start + size - overlap), text, size, start + size - overlap)
    ensures Slices(Windows(text, size, overlap, start), text, size, start)
  {
    WindowsStep(text, size, overlap, start);
    SliceThenSlices(Chunk(text[start..start + size], start, start + size),
                    Windows(text, size, overlap, start + size - overlap), text, size, start + size - overlap);
  }

  lemma LastIsSlice(text: string, size: nat, overlap: nat, start: nat)
    requires start < |text| <= start + size
    ensures Slices(Windows(text, size, overlap, start), text, size, start)
  {
    WindowsStep(text, size, overlap, start);
  }

  /** Windows are slices of the text at their offsets, none empty or longer than
      `size`, from the start of the text to its end. */
  lemma {:induction false} WindowsAreSlices(text: string, size: nat, overlap: nat, start: nat)
    requires Covers(text, size, overlap, start)
    ensures Slices(Windows(text, size, overlap, start), text, size, start)
    decreases |text| - start
  {
    if start + size < |text| {
      WindowsAreSlices(text, size, overlap, start + size - overlap);
      FirstIsSlice(text, size, overlap, start);
    } else if start < |text| {
      LastIsSlice(text, size, overlap, start);
    }
  }

  /** Each window but the last is full, and the next begins `overlap` before its end. */
  lemma {:induction false} WindowsOverlap(text: string, size: nat, overlap: nat, start: nat, i: nat)
    requires Covers(text, size, overlap, start) && i + 1 < |Windows(text, size, overlap, start)|
    ensures var ws := Windows(text, size, overlap, start);
            |ws[i].text| == size && ws[i + 1].start == ws[i].end - overlap
    decreases |text| - start
  {
    var next := start + size - overlap;
    var first, later := Chunk(text[start..start + size], start, start + size), Windows(text, size, overlap, next);
    WindowsStep(text, size, overlap, start);
    if i == 0 {
      WindowsAreSlices(text, size, overlap, next);
    } else {
      assert ([first] + later)[i] == later[i - 1] && ([first] + later)[i + 1] == later[i];
      WindowsOverlap(text, size, overlap, next, i - 1);
    }
  }

  /** What windows after the first add: all but their first `overlap` characters. */
  function Additions(windows: seq<Chunk>, overlap: nat): string
    requires forall w <- windows :: |w.text| >= overlap
  {
    if windows == [] then "" else windows[0].text[overlap..] + Additions(windows[1..], overlap)
  }

  lemma {:induction false} LaterWindowsAddTheRest(text: string, size: nat, overlap: nat, start: nat)
    requires overlap < size && start + overlap < |text|
    ensures forall w <- Windows(text, size, overlap, start) :: |w.text| >= overlap
    ensures Additions(Windows(text, size, overlap, start), overlap) == text[start + overlap..]
    decreases |text| - start
  {
    var ws := Windows(text, size, overlap, start);
    if start + size >= |text| {
      assert ws[1..] == [];
    } else {
      var end := start + size;
      LaterWindowsAddTheRest(text, size, overlap, end - overlap);
      assert ws[1..] == Windows(text, size, overlap, end - overlap);
      SliceOfSlice(text, start, end, overlap, size);
      CutTwice(text[start + overlap..], 0, size - overlap);
      SliceOfSlice(text, start + overlap, |text|, 0, size - overlap);
      SliceOfSlice(text, start + overlap, |text|, size - overlap, |text| - start - overlap);
    }
  }

  lemma TailOfCons(first: Chunk, rest: seq<Chunk>)
    ensures ([first] + rest)[0] == first && ([first] + rest)[1..] == rest
    ensures [first] + [] == [first]
  {
  }

  /** The text comes back: the first window, then every later one without the
      characters it repeats. */
  lemma WindowsRebuildText(text: string, size: nat, overlap: nat)
    requires Covers(text, size, overlap, 0) && text != ""
    ensures var ws := Windows(text, size, overlap, 0);
            && ws != []
            && (forall w <- ws[1..] :: |w.text| >= overlap)
            && ws[0].text + Additions(ws[1..], overlap) == text
  {
    if size < |text| {
      SeveralWindowsRebuild(text, size, overlap);
    } else {
      WindowsStep(text, size, overlap, 0);
      FirstThenAdditions(Windows(text, size, overlap, 0), Chunk(text[0..|text|], 0, |text|), [], text, overlap);
    }
  }

  lemma SeveralWindowsRebuild(text: string, size: nat, overlap: nat)
    requires overlap < size < |text|
    ensures var ws := Windows(text, size, overlap, 0);
            && ws != [] && (forall w <- ws[1..] :: |w.text| >= overlap)
            && ws[0].text + Additions(ws[1..], overlap) == text
  {
    WindowsStep(text, size, overlap, 0);
    LaterWindowsAddTheRest(text, size, overlap, size - overlap);
    FirstThenAdditions(Windows(text, size, overlap, 0), Chunk(text[0..size], 0, size),
                       Windows(text, size, overlap, size - overlap), text, overlap);
  }

  lemma FirstThenAdditions(ws: seq<Chunk>, first: Chunk, later: seq<Chunk>, text: string, overlap: nat)
    requires ws == [first] + later && first.text <= text && (forall w <- later :: |w.text| >= overlap)
    requires Additions(later, overlap) == text[|first.text|..]
    ensures ws != [] && (forall w <- ws[1..] :: |w.text| >= overlap)
    ensures ws[0].text + Additions(ws[1..], overlap) == text
  {
    TailOfCons(first, later);
    assert text == text[..|first.text|] + text[|first.text|..];
  }

  function CeilDiv(a: nat, b: nat): nat
    requires b > 0
  {
    (a + b - 1) / b
  }

  lemma CeilDivStep(a: nat, b: nat)
    requires b > 0
    ensures a >= b ==> CeilDiv(a, b) == 1 + CeilDiv(a - b, b)
    ensures 0 < a <= b ==> CeilDiv(a, b) == 1
  {
    if a >= b {
      var x := a - 1;
      DivUnique(x + b, b, x / b + 1, x % b);
    } else if 0 < a {
      DivUnique(a + b - 1, b, 1, a - 1);
    }
    if a == b {
      DivUnique(b + b - 1, b, 1, b - 1);
      DivUnique(b - 1, b, 0, b - 1);
    }
  }

  lemma DivUnique(x: nat, b: nat, k: nat, r: nat)
    requires b > 0 && x == k * b + r && r < b
    ensures x / b == k
  {
    var q := x / b;
    MulApart(k - q, b);
    assert (k - q) * b == x % b - r;
  }

  lemma MulApart(m: int, b: nat)
    requires b > 0
    ensures m >= 1 ==> m * b >= b
    ensures m <= -1 ==> m * b + b <= 0
  {
  }

  /** A text longer than a window takes one window and one more for every step of
      `size - overlap` still to go. */
  lemma {:induction false} WindowCount(text: string, size: nat, overlap: nat, start: nat)
    requires overlap < size && start + size < |text|
    ensures |Windows(text, size, overlap, start)| == 1 + CeilDiv(|text| - start - size, size - overlap)
    decreases |text| - start
  {
    var next, left := start + size - overlap, |text| - start - size;
    CeilDivStep(left, size - overlap);
    if next + size < |text| {
      WindowCount(text, size, overlap, next);
    }
  }

  // ------------------------------------------------------------------- paragraphs

  function Paragraphs(pieces: seq<string>, space: char -> bool): (paragraphs: seq<string>)
    ensures forall i | 0 <= i < |paragraphs| :: paragraphs[i] != ""
  {
    if pieces == [] then []
    else
      var p := Trim(pieces[0], space);
      (if p == "" then [] else [p]) + Paragraphs(pieces[1..], space)
  }

  lemma TrimmedTrim(s: string, space: char -> bool)
    ensures Trimmed(Trim(s, space), space)
  {
    var lead, tail := TrimParts(s, space);
  }

  function ParagraphsOf(text: string): seq<string> {
    Paragraphs(Split(text, PARAGRAPH_BREAK), PythonSpace)
  }

  /** Only a paragraph that does not fit needs the windows to advance. */
  predicate Windowable(paragraphs: seq<string>, size: nat, overlap: nat) {
    forall i | 0 <= i < |paragraphs| :: paragraphs[i] != "" && (|paragraphs[i]| > size ==> overlap < size)
  }

  /** The chunks of one paragraph: itself, at the first place it occurs from the
      cursor on, or its windows, with offsets within the paragraph. */
  function Section(text: string, p: string, cursor: nat, size: nat, overlap: nat): seq<Chunk>
    requires |p| > size ==> overlap < size
  {
    if |p| <= size then
      var start := Find(text, p, cursor);
      [Chunk(p, start, start + |p|)]
    else
      Windows(p, size, overlap, 0)
  }

  /** Only a paragraph that fits moves the cursor. */
  function CursorAfter(text: string, p: string, cursor: nat, size: nat): nat
    requires p != ""
  {
    if |p| <= size then Find(text, p, cursor) + |p| else cursor
  }

  function Sections(text: string, paragraphs: seq<string>, cursor: nat, size: nat, overlap: nat)
    : (sections: seq<seq<Chunk>>)
    requires Windowable(paragraphs, size, overlap)
    ensures |sections| == |paragraphs|
  {
    if paragraphs == [] then []
    else
      [Section(text, paragraphs[0], cursor, size, overlap)]
      + Sections(text, paragraphs[1..], CursorAfter(text, paragraphs[0], cursor, size), size, overlap)
  }

  function Flatten(sections: seq<seq<Chunk>>): seq<Chunk> {
    if sections == [] then [] else sections[0] + Flatten(sections[1..])
  }

  function Chunks(text: string, size: nat, overlap: nat): seq<Chunk>
    requires Windowable(ParagraphsOf(text), size, overlap)
  {
    Flatten(Sections(text, ParagraphsOf(text), 0, size, overlap))
  }

  /** The chunks of the paragraphs from the `i`-th on. */
  ghost function Pending(text: string, paragraphs: seq<string>, i: nat, cursor: nat, size: nat, overlap: nat)
    : seq<Chunk>
    requires Windowable(paragraphs, size, overlap) && i <= |paragraphs|
  {
    Flatten(Sections(text, paragraphs[i..], cursor, size, overlap))
  }

  lemma PendingStep(before: seq<Chunk>, text: string, paragraphs: seq<string>, i: nat, cursor: nat,
                    size: nat, overlap: nat)
    requires Windowable(paragraphs, size, overlap) && i < |paragraphs|
    ensures before + Pending(text, paragraphs, i, cursor, size, overlap)
         == before + Section(text, paragraphs[i], cursor, size, overlap)
            + Pending(text, paragraphs, i + 1, CursorAfter(text, paragraphs[i], cursor, size), size, overlap)
  {
    var next := CursorAfter(text, paragraphs[i], cursor, size);
    assert paragraphs[i..] == [paragraphs[i]] + paragraphs[i + 1..];
    SectionsPrepend(text, paragraphs[i], paragraphs[i + 1..], cursor, size, overlap);
    FlattenPrepend(Section(text, paragraphs[i], cursor, size, overlap),
                   Sections(text, paragraphs[i + 1..], next, size, overlap));
    Associate(before, Section(text, paragraphs[i], cursor, size, overlap),
              Pending(text, paragraphs, i + 1, next, size, overlap));
  }

  lemma SectionsPrepend(text: string, p: string, rest: seq<string>, cursor: nat, size: nat, overlap: nat)
    requires Windowable([p] + rest, size, overlap)
    ensures p != "" && (|p| > size ==> overlap < size) && Windowable(rest, size, overlap)
    ensures Sections(text, [p] + rest, cursor, size, overlap)
         == [Section(text, p, cursor, size, overlap)]
            + Sections(text, rest, CursorAfter(text, p, cursor, size), size, overlap)
  {
    WindowableParts(p, rest, size, overlap);
    assert ([p] + rest)[1..] == rest;
  }

  lemma FlattenPrepend(section: seq<Chunk>, sections: seq<seq<Chunk>>)
    ensures Flatten([section] + sections) == section + Flatten(sections)
  {
    assert ([section] + sections)[1..] == sections;
  }

  method ChunkText(text: string, size: nat := CHUNK_SIZE_CHARS, overlap: nat := CHUNK_OVERLAP_CHARS)
    returns (chunks: seq<Chunk>)
    requires Windowable(ParagraphsOf(text), size, overlap)
    ensures chunks == Chunks(text, size, overlap)
  {
    chunks := ChunkParagraphs(text, ParagraphsOf(text), size, overlap);
  }

  method ChunkParagraphs(text: string, paragraphs: seq<string>, size: nat, overlap: nat) returns (chunks: seq<Chunk>)
    requires Windowable(paragraphs, size, overlap)
    ensures chunks == Flatten(Sections(text, paragraphs, 0, size, overlap))
  {
    ghost var all := Flatten(Sections(text, paragraphs, 0, size, overlap));
    chunks := [];
    var cursor: nat := 0;
    assert paragraphs[0..] == paragraphs;
    for i := 0 to |paragraphs|
      invariant chunks + Pending(text, paragraphs, i, cursor, size, overlap) == all
    {
      var paragraph := paragraphs[i];
      PendingStep(chunks, text, paragraphs, i, cursor, size, overlap);
      if |paragraph| <= size {
        var start := Find(text, paragraph, cursor);
        var end := start + |paragraph|;
        cursor := end;
        chunks := chunks + [Chunk(paragraph, start, end)];
        continue;
      }
      var windows := WindowText(paragraph, size, overlap);
      chunks := AppendAll(chunks, windows);
    }
    assert chunks + [] == chunks;
  }

  method AppendAll(chunks: seq<Chunk>, windows: seq<Chunk>) returns (all: seq<Chunk>)
    ensures all == chunks + windows
  {
    all := chunks;
    for j := 0 to |windows|
      invariant all == chunks + windows[..j]
    {
      all := all + [windows[j]];
    }
  }

  // ---------------------------------------------------------------------- offsets

  ghost predicate Placed(text: string, p: string, section: seq<Chunk>, size: nat, overlap: nat) {
    if |p| <= size then
      && |section| == 1
      && section[0].text == p
      && 0 <= section[0].start <= section[0].end <= |text|
      && text[section[0].start..section[0].end] == p
    else overlap < size && section == Windows(p, size, overlap, 0)
  }

  /** What is left of the text, as pieces: `pieces` joined again from `pos` on. */
  ghost predicate Remaining(text: string, pieces: seq<string>, pos: nat) {
    && pos <= |text|
    && (pieces == [] ==> pos == |text|)
    && (pieces != [] ==> text[pos..] == JoinPieces(pieces, PARAGRAPH_BREAK))
  }

  function AfterPiece(pieces: seq<string>, pos: nat): nat
    requires pieces != []
  {
    pos + |pieces[0]| + if |pieces| == 1 then 0 else 2
  }

  lemma RemainingAfterPiece(text: string, pieces: seq<string>, pos: nat, space: char -> bool)
    requires space('\n')
    requires Remaining(text, pieces, pos) && pieces != []
    ensures Remaining(text, pieces[1..], AfterPiece(pieces, pos))
    ensures pos + |pieces[0]| <= AfterPiece(pieces, pos)
    ensures text[pos..pos + |pieces[0]|] == pieces[0]
    ensures AllSpace(text[pos + |pieces[0]|..AfterPiece(pieces, pos)], space)
  {
    var end, next := pos + |pieces[0]|, AfterPiece(pieces, pos);
    var rest := text[pos..];
    assert rest[..|pieces[0]|] == pieces[0];
    if |pieces| > 1 {
      assert rest[|pieces[0]|..|pieces[0]| + 2] == PARAGRAPH_BREAK;
      assert text[end..next] == PARAGRAPH_BREAK;
      assert rest[|pieces[0]| + 2..] == JoinPieces(pieces[1..], PARAGRAPH_BREAK);
      assert text[next..] == rest[|pieces[0]| + 2..];
    }
  }

  /** The paragraph in a piece, where it truly is. */
  lemma ParagraphInPiece(text: string, piece: string, pos: nat, space: char -> bool) returns (start: nat)
    requires pos + |piece| <= |text| && text[pos..pos + |piece|] == piece && Trim(piece, space) != ""
    ensures pos <= start && start + |Trim(piece, space)| <= pos + |piece|
    ensures Occurs(text, Trim(piece, space), start)
    ensures AllSpace(text[pos..start], space)
    ensures AllSpace(text[start + |Trim(piece, space)|..pos + |piece|], space)
  {
    var p := Trim(piece, space);
    var lead, tail := TrimParts(piece, space);
    start := pos + |lead|;
    SliceParts(text, pos, lead, p, tail);
  }

  lemma ParagraphsStep(pieces: seq<string>, space: char -> bool)
    requires pieces != []
    ensures Trim(pieces[0], space) == "" ==> Paragraphs(pieces, space) == Paragraphs(pieces[1..], space)
    ensures Trim(pieces[0], space) != "" ==>
              Paragraphs(pieces, space) == [Trim(pieces[0], space)] + Paragraphs(pieces[1..], space)
  {
  }

  lemma WindowableParts(p: string, rest: seq<string>, size: nat, overlap: nat)
    requires Windowable([p] + rest, size, overlap)
    ensures p != "" && (|p| > size ==> overlap < size) && Windowable(rest, size, overlap)
  {
    var all := [p] + rest;
    assert all[0] == p;
    forall i | 0 <= i < |rest| ensures rest[i] != "" && (|rest[i]| > size ==> overlap < size) {
      assert all[i + 1] == rest[i];
    }
  }

  lemma WindowableRest(pieces: seq<string>, size: nat, overlap: nat, space: char -> bool)
    requires pieces != [] && Windowable(Paragraphs(pieces, space), size, overlap)
    ensures Windowable(Paragraphs(pieces[1..], space), size, overlap)
    ensures Trim(pieces[0], space) == "" ==> Paragraphs(pieces, space) == Paragraphs(pieces[1..], space)
    ensures Trim(pieces[0], space) != "" ==>
              && Paragraphs(pieces, space) == [Trim(pieces[0], space)] + Paragraphs(pieces[1..], space)
              && (|Trim(pieces[0], space)| > size ==> overlap < size)
  {
    ParagraphsStep(pieces, space);
    if Trim(pieces[0], space) != "" {
      WindowableParts(Trim(pieces[0], space), Paragraphs(pieces[1..], space), size, overlap);
    }
  }

  ghost predicate InOrder(paragraphs: seq<string>, sections: seq<seq<Chunk>>, cursor: int, size: nat)
    requires |sections| == |paragraphs|
  {
    forall i, j | 0 <= i <= j < |paragraphs| && |paragraphs[i]| <= size && |paragraphs[j]| <= size ::
      && |sections[i]| == 1 && |sections[j]| == 1
      && cursor <= sections[i][0].start
      && (i < j ==> sections[i][0].end <= sections[j][0].start)
  }

  ghost predicate AllPlaced(text: string, ps: seq<string>, sections: seq<seq<Chunk>>, cursor: int, size: nat, overlap: nat) {
    && |sections| == |ps|
    && (forall i | 0 <= i < |ps| :: Placed(text, ps[i], sections[i], size, overlap))
    && InOrder(ps, sections, cursor, size)
  }

  lemma PlacedFirst(text: string, p: string, section: seq<Chunk>, ps: seq<string>, sections: seq<seq<Chunk>>,
                    cursor: int, cursor': int, size: nat, overlap: nat)
    requires AllPlaced(text, ps, sections, cursor', size, overlap)
    requires Placed(text, p, section, size, overlap) && cursor <= cursor'
    requires |p| <= size ==> cursor <= section[0].start && section[0].end <= cursor'
    ensures AllPlaced(text, [p] + ps, [section] + sections, cursor, size, overlap)
  {
    var all, placed := [p] + ps, [section] + sections;
    forall i | 0 <= i < |all| ensures Placed(text, all[i], placed[i], size, overlap) {
      if i > 0 {
        assert all[i] == ps[i - 1] && placed[i] == sections[i - 1];
      }
    }
    forall i, j | 0 <= i <= j < |all| && |all[i]| <= size && |all[j]| <= size
      ensures |placed[i]| == 1 && |placed[j]| == 1 && cursor <= placed[i][0].start
      ensures i < j ==> placed[i][0].end <= placed[j][0].start
    {
      if j > 0 {
        assert all[j] == ps[j - 1] && placed[j] == sections[j - 1] && cursor' <= sections[j - 1][0].start;
      }
      if i > 0 {
        assert all[i] == ps[i - 1] && placed[i] == sections[i - 1];
      }
    }
  }

  lemma {:induction false} FindSucceedsFrom(text: string, pieces: seq<string>, pos: nat, cursor: nat, size: nat,
                                            overlap: nat, space: char -> bool)
    requires space('\n')
    requires Remaining(text, pieces, pos) && cursor <= pos
    requires Windowable(Paragraphs(pieces, space), size, overlap)
    ensures AllPlaced(text, Paragraphs(pieces, space), Sections(text, Paragraphs(pieces, space), cursor, size, overlap),
                      cursor, size, overlap)
    decreases |pieces|
  {
    if pieces != [] {
      var p, rest, next := Trim(pieces[0], space), Paragraphs(pieces[1..], space), AfterPiece(pieces, pos);
      RemainingAfterPiece(text, pieces, pos, space);
      WindowableRest(pieces, size, overlap, space);
      if p == "" {
        FindSucceedsFrom(text, pieces[1..], next, cursor, size, overlap, space);
      } else {
        var start := ParagraphInPiece(text, pieces[0], pos, space);
        SectionPlaced(text, p, cursor, start, size, overlap);
        FindSucceedsFrom(text, pieces[1..], next, CursorAfter(text, p, cursor, size), size, overlap, space);
        SectionsPrepend(text, p, rest, cursor, size, overlap);
        PlacedFirst(text, p, Section(text, p, cursor, size, overlap), rest,
                    Sections(text, rest, CursorAfter(text, p, cursor, size), size, overlap),
                    cursor, CursorAfter(text, p, cursor, size), size, overlap);
      }
    }
  }

  lemma SectionPlaced(text: string, p: string, cursor: nat, start: nat, size: nat, overlap: nat)
    requires p != "" && (|p| > size ==> overlap < size) && cursor <= start && Occurs(text, p, start)
    ensures Placed(text, p, Section(text, p, cursor, size, overlap), size, overlap)
    ensures cursor <= CursorAfter(text, p, cursor, size) <= start + |p|
    ensures |p| <= size ==>
              && cursor <= Section(text, p, cursor, size, overlap)[0].start
              && Section(text, p, cursor, size, overlap)[0].end == CursorAfter(text, p, cursor, size)
  {
    FindsFirst(text, p, cursor);
  }

  /** The search for a paragraph never fails: every paragraph that fits is the slice
      of the text at its offsets, in order and without overlap, whatever longer
      paragraphs lie between; the offsets of a longer one are those of its windows
      within it. */
  lemma OffsetsLocateParagraphs(text: string, size: nat, overlap: nat)
    requires Windowable(ParagraphsOf(text), size, overlap)
    ensures AllPlaced(text, ParagraphsOf(text), Sections(text, ParagraphsOf(text), 0, size, overlap), 0, size, overlap)
  {
    SplitIsExact(text, PARAGRAPH_BREAK);
    assert text[0..] == text;
    FindSucceedsFrom(text, Split(text, PARAGRAPH_BREAK), 0, 0, size, overlap, PythonSpace);
  }

  lemma FirstOfSections(text: string, ps: seq<string>, cursor: nat, size: nat, overlap: nat)
    requires ps != [] && Windowable(ps, size, overlap)
    ensures Windowable(ps[1..], size, overlap) && ps[0] != "" && (|ps[0]| > size ==> overlap < size)
    ensures Sections(text, ps, cursor, size, overlap)
         == [Section(text, ps[0], cursor, size, overlap)]
            + Sections(text, ps[1..], CursorAfter(text, ps[0], cursor, size), size, overlap)
  {
    assert ps == [ps[0]] + ps[1..];
    SectionsPrepend(text, ps[0], ps[1..], cursor, size, overlap);
  }

  lemma SectionMoves(text: string, p: string, cursor: nat, size: nat, overlap: nat)
    requires p != "" && (|p| > size ==> overlap < size)
    ensures |p| <= size ==>
              && Section(text, p, cursor, size, overlap) == [Chunk(p, Find(text, p, cursor), Find(text, p, cursor) + |p|)]
              && CursorAfter(text, p, cursor, size) == Find(text, p, cursor) + |p|
    ensures |p| > size ==> CursorAfter(text, p, cursor, size) == cursor
  {
  }

  /** A paragraph that fits is looked for from the end of the last one before it that fits,
      at `j`, or from the start of the text if none does (`j` is -1): longer paragraphs
      between them are not skipped, so it is found inside one that holds it too. */
  lemma {:induction false} FoundFromLastFitting(text: string, ps: seq<string>, cursor: nat, size: nat, overlap: nat,
                                                i: nat, j: int)
    requires Windowable(ps, size, overlap) && -1 <= j < i < |ps| && |ps[i]| <= size
    requires (j >= 0 ==> |ps[j]| <= size) && forall k | j < k < i :: |ps[k]| > size
    ensures var sections := Sections(text, ps, cursor, size, overlap);
            && |sections[i]| == 1 && (j >= 0 ==> |sections[j]| == 1)
            && var from := if j >= 0 then sections[j][0].end else cursor;
               from >= 0 && sections[i][0].start == Find(text, ps[i], from)
    decreases i
  {
    FirstOfSections(text, ps, cursor, size, overlap);
    SectionMoves(text, ps[0], cursor, size, overlap);
    if i > 0 {
      FoundFromLastFitting(text, ps[1..], CursorAfter(text, ps[0], cursor, size), size, overlap, i - 1,
                           if j > 0 then j - 1 else -1);
    }
  }

  /** So the offsets of a short paragraph behind a long one that opens the text are its true
      ones exactly when it does not occur any earlier. */
  lemma ShortBehindLongIsPlacedExactly(text: string, p: string, q: string, size: nat, overlap: nat, at: nat)
    requires ParagraphsOf(text) == [p, q] && |p| > size >= |q| && overlap < size
    requires Windowable([p, q], size, overlap) && Occurs(text, q, at)
    ensures var start := Sections(text, ParagraphsOf(text), 0, size, overlap)[1];
            |start| == 1 && (start[0].start == at <==> forall i: nat | i < at :: !Occurs(text, q, i))
  {
    FoundFromLastFitting(text, [p, q], 0, size, overlap, 1, -1);
    FindsFirst(text, q, 0);
  }

  predicate AllFit(paragraphs: seq<string>, size: nat) {
    forall i | 0 <= i < |paragraphs| :: |paragraphs[i]| <= size
  }

  lemma AllFitParts(p: string, rest: seq<string>, size: nat)
    requires AllFit([p] + rest, size)
    ensures |p| <= size && AllFit(rest, size)
  {
    var all := [p] + rest;
    assert all[0] == p;
    forall i | 0 <= i < |rest| ensures |rest[i]| <= size {
      assert all[i + 1] == rest[i];
    }
  }

  /** From `cursor` on, the text is the chunks, in order, with white space between,
      before and after them and nothing else. */
  ghost predicate Tiles(text: string, chunks: seq<Chunk>, cursor: int, space: char -> bool)
    decreases |chunks|
  {
    if chunks == [] then 0 <= cursor <= |text| && AllSpace(text[cursor..], space)
    else
      var c := chunks[0];
      && 0 <= cursor <= c.start < c.end <= |text|
      && AllSpace(text[cursor..c.start], space)
      && text[c.start..c.end] == c.text
      && Trimmed(c.text, space)
      && Tiles(text, chunks[1..], c.end, space)
  }

  lemma SpaceJoins(text: string, i: nat, j: nat, k: nat, space: char -> bool)
    requires i <= j <= k <= |text|
    requires AllSpace(text[i..j], space) && AllSpace(text[j..k], space)
    ensures AllSpace(text[i..k], space)
  {
    forall n | 0 <= n < k - i ensures space(text[i..k][n]) {
      assert n < j - i ==> text[i..k][n] == text[i..j][n];
      assert n >= j - i ==> text[i..k][n] == text[j..k][n - (j - i)];
    }
  }

  /** A paragraph is not found among white space: the first occurrence is the true one. */
  lemma FoundWhereItIs(text: string, p: string, cursor: nat, start: nat, space: char -> bool)
    requires p != "" && Trimmed(p, space) && cursor <= start && Occurs(text, p, start)
    requires AllSpace(text[cursor..start], space)
    ensures Find(text, p, cursor) == start
  {
    forall j: nat | cursor <= j < start ensures !Occurs(text, p, j) {
      assert text[j] == text[cursor..start][j - cursor];
      OccurrenceShows(text, p, j);
    }
    FirstIsFound(text, p, cursor, start);
  }

  lemma TilesCons(text: string, c: Chunk, chunks: seq<Chunk>, cursor: int, space: char -> bool)
    requires 0 <= cursor <= c.start < c.end <= |text| && AllSpace(text[cursor..c.start], space)
    requires text[c.start..c.end] == c.text && Trimmed(c.text, space) && Tiles(text, chunks, c.end, space)
    ensures Tiles(text, [c] + chunks, cursor, space)
  {
    assert ([c] + chunks)[1..] == chunks;
  }

  lemma FitSectionsStep(text: string, p: string, rest: seq<string>, cursor: nat, size: nat, overlap: nat)
    requires Windowable([p] + rest, size, overlap) && |p| <= size
    ensures p != "" && Windowable(rest, size, overlap)
    ensures Flatten(Sections(text, [p] + rest, cursor, size, overlap))
         == [Chunk(p, Find(text, p, cursor), Find(text, p, cursor) + |p|)]
            + Flatten(Sections(text, rest, Find(text, p, cursor) + |p|, size, overlap))
  {
    SectionsPrepend(text, p, rest, cursor, size, overlap);
    FlattenPrepend(Section(text, p, cursor, size, overlap),
                   Sections(text, rest, CursorAfter(text, p, cursor, size), size, overlap));
  }

  /** Where the paragraph of a piece is found, and what surrounds it. */
  lemma ParagraphFound(text: string, pieces: seq<string>, pos: nat, cursor: nat, space: char -> bool)
    returns (start: nat, next: nat)
    requires space('\n')
    requires Remaining(text, pieces, pos) && cursor <= pos && AllSpace(text[cursor..pos], space)
    requires pieces != [] && Trim(pieces[0], space) != ""
    ensures var p := Trim(pieces[0], space);
            && cursor <= start && start + |p| <= next <= |text|
            && FoundNext(text, p, cursor, start, space)
            && AllSpace(text[start + |p|..next], space)
            && Remaining(text, pieces[1..], next)
  {
    var p := Trim(pieces[0], space);
    next := AfterPiece(pieces, pos);
    RemainingAfterPiece(text, pieces, pos, space);
    start := ParagraphInPiece(text, pieces[0], pos, space);
    SpaceJoins(text, cursor, pos, start, space);
    SpaceJoins(text, start + |p|, pos + |pieces[0]|, next, space);
    TrimmedTrim(pieces[0], space);
    FoundWhereItIs(text, p, cursor, start, space);
  }

  lemma BlankSkipped(text: string, pieces: seq<string>, pos: nat, cursor: nat, space: char -> bool) returns (next: nat)
    requires space('\n')
    requires Remaining(text, pieces, pos) && cursor <= pos && AllSpace(text[cursor..pos], space)
    requires pieces != [] && Trim(pieces[0], space) == ""
    ensures pos <= next <= |text| && AllSpace(text[cursor..next], space)
    ensures Remaining(text, pieces[1..], next)
  {
    next := AfterPiece(pieces, pos);
    RemainingAfterPiece(text, pieces, pos, space);
    BlankPieceIsSpace(pieces[0], space);
    SpaceJoins(text, cursor, pos, pos + |pieces[0]|, space);
    SpaceJoins(text, cursor, pos + |pieces[0]|, next, space);
  }

  /** The paragraph is found at `start`, past nothing but white space. */
  ghost predicate FoundNext(text: string, p: string, cursor: nat, start: int, space: char -> bool) {
    && p != "" && Trimmed(p, space)
    && start == Find(text, p, cursor) && start != -1
    && AllSpace(text[cursor..start], space)
  }

  /** Each paragraph in turn is found past nothing but white space, up to the end. */
  ghost predicate FoundInTurn(text: string, paragraphs: seq<string>, cursor: nat, space: char -> bool) {
    if paragraphs == [] then cursor <= |text| && AllSpace(text[cursor..], space)
    else
      var p := paragraphs[0];
      var start := Find(text, p, cursor);
      && FoundNext(text, p, cursor, start, space)
      && FoundInTurn(text, paragraphs[1..], start + |p|, space)
  }

  lemma FoundFirst(text: string, paragraphs: seq<string>, cursor: nat, start: nat, space: char -> bool)
    requires paragraphs != [] && FoundNext(text, paragraphs[0], cursor, start, space)
    requires FoundInTurn(text, paragraphs[1..], start + |paragraphs[0]|, space)
    ensures FoundInTurn(text, paragraphs, cursor, space)
  {
  }

  lemma NothingRemains(text: string, pos: nat, cursor: nat, space: char -> bool)
    requires Remaining(text, [], pos) && cursor <= pos && AllSpace(text[cursor..pos], space)
    ensures FoundInTurn(text, [], cursor, space)
  {
    assert text[cursor..pos] == text[cursor..];
  }

  lemma FoundAfterBlank(text: string, pieces: seq<string>, cursor: nat, space: char -> bool)
    requires pieces != [] && Trim(pieces[0], space) == "" && FoundInTurn(text, Paragraphs(pieces[1..], space), cursor, space)
    ensures FoundInTurn(text, Paragraphs(pieces, space), cursor, space)
  {
    ParagraphsStep(pieces, space);
  }

  lemma ParagraphFirst(pieces: seq<string>, space: char -> bool)
    requires pieces != [] && Trim(pieces[0], space) != ""
    ensures var paragraphs := Paragraphs(pieces, space);
            paragraphs != [] && paragraphs[0] == Trim(pieces[0], space)
            && paragraphs[1..] == Paragraphs(pieces[1..], space)
  {
    ParagraphsStep(pieces, space);
  }

  lemma FoundThenRest(text: string, p: string, rest: seq<string>, paragraphs: seq<string>, cursor: nat, start: nat,
                      space: char -> bool)
    requires paragraphs != [] && paragraphs[0] == p && paragraphs[1..] == rest
    requires FoundNext(text, p, cursor, start, space) && FoundInTurn(text, rest, start + |p|, space)
    ensures FoundInTurn(text, paragraphs, cursor, space)
  {
    FoundFirst(text, paragraphs, cursor, start, space);
  }

  lemma {:induction false} ParagraphsFoundInTurn(text: string, pieces: seq<string>, pos: nat, cursor: nat, space: char -> bool)
    requires space('\n')
    requires Remaining(text, pieces, pos) && cursor <= pos && AllSpace(text[cursor..pos], space)
    ensures FoundInTurn(text, Paragraphs(pieces, space), cursor, space)
    decreases |pieces|
  {
    if pieces == [] {
      NothingRemains(text, pos, cursor, space);
    } else if Trim(pieces[0], space) == "" {
      var next := BlankSkipped(text, pieces, pos, cursor, space);
      ParagraphsFoundInTurn(text, pieces[1..], next, cursor, space);
      FoundAfterBlank(text, pieces, cursor, space);
    } else {
      var start, next := ParagraphFound(text, pieces, pos, cursor, space);
      ParagraphsFoundInTurn(text, pieces[1..], next, start + |Trim(pieces[0], space)|, space);
      ParagraphFirst(pieces, space);
      FoundThenRest(text, Trim(pieces[0], space), Paragraphs(pieces[1..], space), Paragraphs(pieces, space), cursor, start,
                    space);
    }
  }

  lemma FirstFound(text: string, ps: seq<string>, cursor: nat, space: char -> bool)
    requires ps != [] && FoundInTurn(text, ps, cursor, space)
    ensures FoundNext(text, ps[0], cursor, Find(text, ps[0], cursor), space)
    ensures FoundInTurn(text, ps[1..], Find(text, ps[0], cursor) + |ps[0]|, space)
  {
  }

  lemma FoundTiles(text: string, p: string, cursor: nat, start: nat, later: seq<Chunk>, chunks: seq<Chunk>,
                   space: char -> bool)
    requires FoundNext(text, p, cursor, start, space) && Tiles(text, later, start + |p|, space)
    requires chunks == [Chunk(p, start, start + |p|)] + later
    ensures Tiles(text, chunks, cursor, space)
  {
    FindsFirst(text, p, cursor);
    TilesCons(text, Chunk(p, start, start + |p|), later, cursor, space);
  }

  /** The chunks of paragraphs that all fit. */
  ghost function FitChunks(text: string, ps: seq<string>, cursor: nat): seq<Chunk>
    requires forall i | 0 <= i < |ps| :: ps[i] != ""
  {
    if ps == [] then []
    else
      var start := Find(text, ps[0], cursor);
      [Chunk(ps[0], start, start + |ps[0]|)] + FitChunks(text, ps[1..], start + |ps[0]|)
  }

  lemma {:induction false} FittingChunksAre(text: string, ps: seq<string>, cursor: nat, size: nat, overlap: nat)
    requires AllFit(ps, size) && Windowable(ps, size, overlap)
    ensures Flatten(Sections(text, ps, cursor, size, overlap)) == FitChunks(text, ps, cursor)
    decreases |ps|
  {
    if ps != [] {
      FirstFits(text, ps, cursor, size, overlap);
      FittingChunksAre(text, ps[1..], Find(text, ps[0], cursor) + |ps[0]|, size, overlap);
    }
  }

  lemma {:induction false} FoundInTurnTiles(text: string, ps: seq<string>, cursor: nat, space: char -> bool)
    requires FoundInTurn(text, ps, cursor, space) && forall i | 0 <= i < |ps| :: ps[i] != ""
    ensures Tiles(text, FitChunks(text, ps, cursor), cursor, space)
    decreases |ps|
  {
    if ps != [] {
      var start := Find(text, ps[0], cursor);
      FirstFound(text, ps, cursor, space);
      FoundInTurnTiles(text, ps[1..], start + |ps[0]|, space);
      FoundTiles(text, ps[0], cursor, start, FitChunks(text, ps[1..], start + |ps[0]|), FitChunks(text, ps, cursor), space);
    }
  }

  lemma FirstFits(text: string, ps: seq<string>, cursor: nat, size: nat, overlap: nat)
    requires ps != [] && AllFit(ps, size) && Windowable(ps, size, overlap)
    ensures ps[0] != "" && AllFit(ps[1..], size) && Windowable(ps[1..], size, overlap)
    ensures Flatten(Sections(text, ps, cursor, size, overlap))
         == [Chunk(ps[0], Find(text, ps[0], cursor), Find(text, ps[0], cursor) + |ps[0]|)]
            + Flatten(Sections(text, ps[1..], Find(text, ps[0], cursor) + |ps[0]|, size, overlap))
  {
    assert ps == [ps[0]] + ps[1..];
    AllFitParts(ps[0], ps[1..], size);
    FitSectionsStep(text, ps[0], ps[1..], cursor, size, overlap);
  }

  lemma BlankPieceIsSpace(piece: string, space: char -> bool)
    requires Trim(piece, space) == ""
    ensures AllSpace(piece, space)
  {
    TrimmedAwayExactly(piece, space);
  }

  /** When every paragraph fits, the offsets are the true positions: the chunks tile
      the text, in order and without overlap, with only white space outside them. */
  lemma ChunksTileText(text: string, size: nat, overlap: nat)
    requires AllFit(ParagraphsOf(text), size)
    ensures Tiles(text, Chunks(text, size, overlap), 0, PythonSpace)
  {
    SplitIsExact(text, PARAGRAPH_BREAK);
    assert text[0..] == text && text[0..0] == "";
    ParagraphsFoundInTurn(text, Split(text, PARAGRAPH_BREAK), 0, 0, PythonSpace);
    FoundInTurnTiles(text, ParagraphsOf(text), 0, PythonSpace);
    FittingChunksAre(text, ParagraphsOf(text), 0, size, overlap);
  }
}
