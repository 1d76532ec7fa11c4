/** Searching, splitting and trimming strings, as Python and JavaScript do it. */
module Text {

  predicate Occurs(s: string, pattern: string, i: nat) {
    i + |pattern| <= |s| && s[i..i + |pattern|] == pattern
  }

  /** The first occurrence at or after `from`, or -1. */
  function Find(s: string, pattern: string, from: nat): (at: int)
    ensures at == -1 || from <= at <= |s| - |pattern|
    decreases |s| - from
  {
    if from + |pattern| > |s| then -1
    else if s[from..from + |pattern|] == pattern then from
    else Find(s, pattern, from + 1)
  }

  lemma {:induction false} FindsFirst(s: string, pattern: string, from: nat)
    ensures Find(s, pattern, from) != -1 ==> Occurs(s, pattern, Find(s, pattern, from))
    ensures forall i: nat | from <= i && (Find(s, pattern, from) == -1 || i < Find(s, pattern, from)) ::
              !Occurs(s, pattern, i)
    decreases |s| - from
  {
    if from + |pattern| <= |s| && s[from..from + |pattern|] != pattern {
      FindsFirst(s, pattern, from + 1);
    }
  }

  /** The first occurrence is the one that has none before it. */
  lemma FirstIsFound(s: string, pattern: string, from: nat, at: nat)
    requires from <= at && Occurs(s, pattern, at)
    requires forall i: nat | from <= i < at :: !Occurs(s, pattern, i)
    ensures Find(s, pattern, from) == at
  {
    FindsFirst(s, pattern, from);
  }

  lemma OccurrenceShows(s: string, pattern: string, i: nat)
    requires pattern != ""
    ensures Occurs(s, pattern, i) ==> s[i] == pattern[0]
    ensures Occurs(s, pattern, i) && |pattern| > 1 ==> s[i + 1] == pattern[1]
  {
    if Occurs(s, pattern, i) {
      assert s[i] == s[i..i + |pattern|][0];
      assert |pattern| > 1 ==> s[i + 1] == s[i..i + |pattern|][1];
    }
  }

  /** The pieces between successive occurrences of the separator, leftmost first. */
  function Split(s: string, separator: string): (pieces: seq<string>)
    requires separator != ""
    ensures |pieces| >= 1
    decreases |s|
  {
    var at := Find(s, separator, 0);
    if at == -1 then [s] else [s[..at]] + Split(s[at + |separator|..], separator)
  }

  function Last<T>(xs: seq<T>): T
    requires xs != []
  {
    xs[|xs| - 1]
  }

  function Front<T>(xs: seq<T>): seq<T>
    requires xs != []
  {
    xs[..|xs| - 1]
  }

  lemma Associate<T>(x: seq<T>, y: seq<T>, z: seq<T>)
    ensures (x + y) + z == x + (y + z)
  {
  }

  function JoinPieces(pieces: seq<string>, separator: string): string
    requires pieces != []
  {
    if |pieces| == 1 then pieces[0] else pieces[0] + separator + JoinPieces(pieces[1..], separator)
  }

  /** Splitting loses nothing and leaves no separator inside a piece. */
  lemma {:induction false} SplitIsExact(s: string, separator: string)
    requires separator != ""
    ensures JoinPieces(Split(s, separator), separator) == s
    ensures forall piece <- Split(s, separator) :: Find(piece, separator, 0) == -1
    decreases |s|
  {
    var at := Find(s, separator, 0);
    if at == -1 {
      assert Split(s, separator) == [s];
    } else {
      var rest := s[at + |separator|..];
      FindsFirst(s, separator, 0);
      SplitStep(s, separator, at, rest);
      SplitIsExact(rest, separator);
      JoinPiecesStep(s[..at], Split(rest, separator), separator);
      FindBefore(s, separator, at);
    }
  }

  lemma SplitStep(s: string, separator: string, at: nat, rest: string)
    requires separator != "" && Find(s, separator, 0) == at && rest == s[at + |separator|..]
    ensures Split(s, separator) == [s[..at]] + Split(rest, separator)
    ensures s == s[..at] + separator + rest
  {
    FindsFirst(s, separator, 0);
    CutTwice(s, at, at + |separator|);
  }

  lemma SliceOfSlice<T>(s: seq<T>, from: nat, to: nat, i: nat, j: nat)
    requires from <= to <= |s| && i <= j <= to - from
    ensures s[from..to][i..j] == s[from + i..from + j]
  {
    forall k | 0 <= k < j - i
      ensures s[from..to][i..j][k] == s[from + i..from + j][k]
    {
    }
  }

  /** A stretch of text made of three parts shows each part at its place. */
  lemma SliceParts<T>(s: seq<T>, pos: nat, x: seq<T>, y: seq<T>, z: seq<T>)
    requires pos + |x| + |y| + |z| <= |s| && s[pos..pos + |x| + |y| + |z|] == x + y + z
    ensures s[pos..pos + |x|] == x
    ensures s[pos + |x|..pos + |x| + |y|] == y
    ensures s[pos + |x| + |y|..pos + |x| + |y| + |z|] == z
  {
    var all, n := x + y + z, |x| + |y| + |z|;
    assert all[..|x|] == x && all[|x|..|x| + |y|] == y && all[|x| + |y|..n] == z;
    SliceOfSlice(s, pos, pos + n, 0, |x|);
    SliceOfSlice(s, pos, pos + n, |x|, |x| + |y|);
    SliceOfSlice(s, pos, pos + n, |x| + |y|, n);
  }

  lemma CutTwice<T>(s: seq<T>, i: nat, j: nat)
    requires i <= j <= |s|
    ensures s == s[..i] + s[i..j] + s[j..]
  {
  }

  lemma JoinPiecesStep(piece: string, pieces: seq<string>, separator: string)
    requires pieces != []
    ensures JoinPieces([piece] + pieces, separator) == piece + separator + JoinPieces(pieces, separator)
  {
    assert ([piece] + pieces)[1..] == pieces;
  }

  lemma FindBefore(s: string, pattern: string, at: nat)
    requires at <= |s| && forall i: nat | i < at :: !Occurs(s, pattern, i)
    requires pattern != ""
    ensures Find(s[..at], pattern, 0) == -1
  {
    FindsFirst(s[..at], pattern, 0);
    forall i: nat | Occurs(s[..at], pattern, i)
      ensures i < at && Occurs(s, pattern, i)
    {
      assert s[..at][i..i + |pattern|] == s[i..i + |pattern|];
    }
  }

  /** Text before a cut splits into the same leading pieces whatever follows the cut;
      only its last piece goes on growing. */
  lemma {:induction false} SplitAcrossCut(a: string, b: string, separator: string)
    requires separator != ""
    ensures Split(a + b, separator)
         == Front(Split(a, separator)) + Split(Last(Split(a, separator)) + b, separator)
    decreases |a|
  {
    var at, n := Find(a, separator, 0), |separator|;
    if at == -1 {
      OnlyPiece(a, Split(a, separator), Split(a + b, separator));
    } else {
      SplitStepsAlike(a, b, separator);
      SplitAcrossCut(a[at + n..], b, separator);
      var pieces := Split(a[at + n..], separator);
      PrependKeepsEnds(a[..at], pieces, Split(Last(pieces) + b, separator), Split(a, separator), Split(a + b, separator));
    }
  }

  lemma OnlyPiece<T>(x: T, pieces: seq<T>, more: seq<T>)
    requires pieces == [x]
    ensures Last(pieces) == x && more == Front(pieces) + more
  {
    assert Front(pieces) == [];
  }

  lemma SplitStepsAlike(a: string, b: string, separator: string)
    requires separator != "" && Find(a, separator, 0) != -1
    ensures var at := Find(a, separator, 0);
            var rest := a[at + |separator|..];
            && Split(a, separator) == [a[..at]] + Split(rest, separator)
            && Split(a + b, separator) == [a[..at]] + Split(rest + b, separator)
  {
    var at, n := Find(a, separator, 0), |separator|;
    FindInPrefix(a, b, separator);
    SplitStep(a, separator, at, a[at + n..]);
    DropPrefix(a, b, at + n);
    SplitStep(a + b, separator, at, a[at + n..] + b);
    DropPrefix(a, b, at);
  }

  lemma DropPrefix<T>(a: seq<T>, b: seq<T>, i: nat)
    requires i <= |a|
    ensures (a + b)[i..] == a[i..] + b && (a + b)[..i] == a[..i]
  {
  }

  lemma PrependKeepsEnds<T>(x: T, xs: seq<T>, ys: seq<T>, whole: seq<T>, longer: seq<T>)
    requires xs != [] && whole == [x] + xs && longer == [x] + (Front(xs) + ys)
    ensures whole != [] && Last(whole) == Last(xs) && longer == Front(whole) + ys
  {
    assert Front(whole) == [x] + Front(xs);
    Associate([x], Front(xs), ys);
  }

  lemma FindInPrefix(a: string, b: string, pattern: string)
    requires Find(a, pattern, 0) != -1
    ensures Find(a + b, pattern, 0) == Find(a, pattern, 0)
  {
    var at := Find(a, pattern, 0);
    FindsFirst(a, pattern, 0);
    assert (a + b)[at..at + |pattern|] == a[at..at + |pattern|];
    forall i: nat | i < at
      ensures !Occurs(a + b, pattern, i)
    {
      assert (a + b)[i..i + |pattern|] == a[i..i + |pattern|];
      assert !Occurs(a, pattern, i);
    }
    FirstIsFound(a + b, pattern, 0, at);
  }

  /** Text free of the separator, up to and across its end, is the first piece. */
  lemma SplitAfterPiece(piece: string, separator: string, rest: string)
    requires separator != ""
    requires forall i: nat | i < |piece| :: !Occurs(piece + separator + rest, separator, i)
    ensures Split(piece + separator + rest, separator) == [piece] + Split(rest, separator)
  {
    var s := piece + separator + rest;
    assert s[|piece|..|piece| + |separator|] == separator;
    FirstIsFound(s, separator, 0, |piece|);
    assert s[|piece| + |separator|..] == rest && s[..|piece|] == piece;
  }

  /** Splitting undoes joining when no piece holds the separating character. */
  lemma {:induction false} SplitOfPieces(pieces: seq<string>, mark: char)
    requires pieces != [] && forall k | 0 <= k < |pieces| :: mark !in pieces[k]
    ensures Split(JoinPieces(pieces, [mark]), [mark]) == pieces
    decreases |pieces|
  {
    var s := JoinPieces(pieces, [mark]);
    if |pieces| == 1 {
      forall i: nat ensures !Occurs(s, [mark], i) {
        OccurrenceShows(s, [mark], i);
      }
      FindsFirst(s, [mark], 0);
    } else {
      var rest := JoinPieces(pieces[1..], [mark]);
      forall i: nat | i < |pieces[0]| ensures !Occurs(pieces[0] + [mark] + rest, [mark], i) {
        OccurrenceShows(pieces[0] + [mark] + rest, [mark], i);
        assert (pieces[0] + [mark] + rest)[i] == pieces[0][i];
      }
      SplitAfterPiece(pieces[0], [mark], rest);
      SplitOfPieces(pieces[1..], mark);
    }
  }

  // --------------------------------------------------------------------- trimming

  /** What Python's `str.strip` strips. */
  predicate PythonSpace(c: char) {
    || '\U{0009}' <= c <= '\U{000D}' || '\U{001C}' <= c <= '\U{0020}' || '\U{2000}' <= c <= '\U{200A}'
    || c == '\U{0085}' || c == '\U{00A0}' || c == '\U{1680}' || c == '\U{2028}' || c == '\U{2029}'
    || c == '\U{202F}' || c == '\U{205F}' || c == '\U{3000}'
  }

  function TrimStart(s: string, space: char -> bool): string {
    if s != "" && space(s[0]) then TrimStart(s[1..], space) else s
  }

  function TrimEnd(s: string, space: char -> bool): string {
    if s != "" && space(s[|s| - 1]) then TrimEnd(s[..|s| - 1], space) else s
  }

  function Trim(s: string, space: char -> bool): string {
    TrimEnd(TrimStart(s, space), space)
  }

  predicate AllSpace(s: string, space: char -> bool) {
    forall k | 0 <= k < |s| :: space(s[k])
  }

  predicate Trimmed(s: string, space: char -> bool) {
    s != "" ==> !space(s[0]) && !space(s[|s| - 1])
  }

  lemma {:induction false} TrimStartParts(s: string, space: char -> bool) returns (lead: string)
    ensures s == lead + TrimStart(s, space) && AllSpace(lead, space)
    ensures TrimStart(s, space) != "" ==> !space(TrimStart(s, space)[0])
    decreases |s|
  {
    if s != "" && space(s[0]) {
      var rest := TrimStartParts(s[1..], space);
      lead := [s[0]] + rest;
      assert s == [s[0]] + s[1..];
      assert lead + TrimStart(s, space) == [s[0]] + (rest + TrimStart(s[1..], space));
    } else {
      lead := "";
    }
  }

  lemma {:induction false} TrimEndParts(s: string, space: char -> bool) returns (tail: string)
    ensures s == TrimEnd(s, space) + tail && AllSpace(tail, space)
    ensures TrimEnd(s, space) != "" ==> !space(Last(TrimEnd(s, space))) && TrimEnd(s, space)[0] == s[0]
    decreases |s|
  {
    if s != "" && space(s[|s| - 1]) {
      var rest := TrimEndParts(Front(s), space);
      tail := rest + [Last(s)];
      assert s == Front(s) + [Last(s)];
      assert TrimEnd(s, space) + tail == (TrimEnd(Front(s), space) + rest) + [Last(s)];
    } else {
      tail := "";
    }
  }

  /** Trimming cuts white space off both ends and nothing else. */
  lemma TrimParts(s: string, space: char -> bool) returns (lead: string, tail: string)
    ensures s == lead + Trim(s, space) + tail
    ensures AllSpace(lead, space) && AllSpace(tail, space) && Trimmed(Trim(s, space), space)
  {
    lead := TrimStartParts(s, space);
    tail := TrimEndParts(TrimStart(s, space), space);
  }

  lemma TrimmedAwayExactly(s: string, space: char -> bool)
    ensures Trim(s, space) == "" <==> AllSpace(s, space)
  {
    var lead, tail := TrimParts(s, space);
    if Trim(s, space) == "" {
      assert s == lead + tail;
    } else {
      assert s[|lead|] == Trim(s, space)[0];
    }
  }

  lemma TrimOfTrimmed(s: string, space: char -> bool)
    requires Trimmed(s, space)
    ensures Trim(s, space) == s
  {
  }
}
