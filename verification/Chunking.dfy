/**
 The two text chunkers: the overlapping character window of the indexer and the paragraph splitter
 of the atom extractor.
 */
module Chunking {
  import opened Prelude

  function Min(a: int, b: int): int {
    if a <= b then a else b
  }

  // ---------------------------------------------------------------- the overlapping window

  /** `text[lo:hi]`, where a negative `hi` counts from the end. */
  function Slice(text: string, lo: nat, hi: int): string {
    var end := if hi >= 0 then Min(hi, |text|) else |text| + hi;
    if lo < end then text[lo..end] else ""
  }

  function Stride(max: int, overlap: int): nat {
    if max - overlap < 1 then 1 else max - overlap
  }

  /** The chunks from position `start` on. */
  function WindowFrom(text: string, start: nat, max: int, overlap: int): seq<string>
    decreases |text| - start
  {
    if start >= |text| then []
    else if start + max >= |text| then NonEmpty(Slice(text, start, start + max))
    else NonEmpty(Slice(text, start, start + max)) + WindowFrom(text, start + Stride(max, overlap), max, overlap)
  }

  function NonEmpty(chunk: string): seq<string> {
    if chunk != "" then [chunk] else []
  }

  function Windowed(text: string, max: int, overlap: int): seq<string> {
    if |text| <= max then [text] else WindowFrom(text, 0, max, overlap)
  }

  lemma WindowUnfolds(text: string, start: nat, max: int, overlap: int)
    requires start < |text|
    ensures WindowFrom(text, start, max, overlap)
            == if start + max >= |text| then NonEmpty(Slice(text, start, start + max))
               else NonEmpty(Slice(text, start, start + max)) +
                    WindowFrom(text, start + Stride(max, overlap), max, overlap)
  {
  }

  lemma WindowEnds(text: string, max: int, overlap: int)
    ensures forall start: nat :: start >= |text| ==> WindowFrom(text, start, max, overlap) == []
  {
  }

  method Window(text: string, max: int, overlap: int) returns (chunks: seq<string>)
    ensures chunks == Windowed(text, max, overlap)
  {
    hide WindowFrom;
    WindowEnds(text, max, overlap);
    if |text| <= max { return [text]; }
    var stride := if max - overlap < 1 then 1 else max - overlap;
    chunks := [];
    ghost var left := WindowFrom(text, 0, max, overlap);  // what remains to be produced
    var start := 0;
    while start < |text|
      invariant start >= 0 && left == WindowFrom(text, start, max, overlap)
      invariant WindowFrom(text, 0, max, overlap) == chunks + left
      decreases |text| - start
    {
      WindowUnfolds(text, start, max, overlap);
      var chunk := Slice(text, start, start + max);
      left := WindowFrom(text, start + stride, max, overlap);
      ghost var before := chunks;
      if chunk != "" { chunks := chunks + [chunk]; }
      assert chunks == before + NonEmpty(chunk);
      if start + max >= |text| { return; }
      assert before + (NonEmpty(chunk) + left) == (before + NonEmpty(chunk)) + left;
      start := start + stride;
    }
  }

  /** Where a chunk begins and ends in the text. */
  datatype Span = Span(lo: nat, hi: nat)

  /** The spans of `WindowFrom`'s chunks when `max` is positive. */
  function Spans(n: nat, start: nat, max: nat, overlap: int): seq<Span>
    decreases n - start
  {
    if start >= n then []
    else [Span(start, Min(start + max, n))]
         + if start + max >= n then [] else Spans(n, start + Stride(max, overlap), max, overlap)
  }

  ghost predicate SpanOf(text: string, chunk: string, s: Span) {
    s.lo < s.hi <= |text| && chunk == text[s.lo..s.hi]
  }

  lemma {:induction false} WindowSpans(text: string, start: nat, max: nat, overlap: int)
    requires max > 0
    ensures var chunks, spans := WindowFrom(text, start, max, overlap), Spans(|text|, start, max, overlap);
            && |chunks| == |spans|
            && forall i :: 0 <= i < |chunks| ==> SpanOf(text, chunks[i], spans[i]) && |chunks[i]| <= max
    decreases |text| - start
  {
    if start < |text| && start + max < |text| {
      WindowSpans(text, start + Stride(max, overlap), max, overlap);
    }
  }

  /** Every chunk is a nonempty piece of the text, at most `max` long. */
  lemma ChunksFit(text: string, max: nat, overlap: int, i: nat)
    requires text != "" && i < |Windowed(text, max, overlap)|
    ensures 0 < |Windowed(text, max, overlap)[i]| <= max
    ensures exists lo: nat, hi: nat :: lo <= hi <= |text| && Windowed(text, max, overlap)[i] == text[lo..hi]
  {
    if |text| <= max {
      assert text == text[0..|text|];
    } else if max > 0 {
      WindowSpans(text, 0, max, overlap);
      var s := Spans(|text|, 0, max, overlap)[i];
      assert SpanOf(text, Windowed(text, max, overlap)[i], s);
    } else {
      NoChunks(text, 0, overlap);
    }
  }

  lemma {:induction false} NoChunks(text: string, start: nat, overlap: int)
    ensures WindowFrom(text, start, 0, overlap) == []
    decreases |text| - start
  {
    if start < |text| { NoChunks(text, start + Stride(0, overlap), overlap); }
  }

  /** One unfolding, for a window that moves on. */
  lemma WindowStep(text: string, start: nat, max: nat, overlap: nat)
    requires overlap < max && start < |text|
    ensures WindowFrom(text, start, max, overlap)
            == if start + max < |text|
                then [text[start..start + max]] + WindowFrom(text, start + max - overlap, max, overlap)
               else [text[start..]]
  {
    hide WindowFrom;
    WindowUnfolds(text, start, max, overlap);
    assert text[start..|text|] == text[start..];
  }

  /** Each chunk without its first `overlap` characters. */
  function Tails(chunks: seq<string>, overlap: nat): string {
    if chunks == [] then ""
    else (if overlap <= |chunks[0]| then chunks[0][overlap..] else "") + Tails(chunks[1..], overlap)
  }

  lemma {:induction false} TailsRebuild(text: string, start: nat, max: nat, overlap: nat)
    requires overlap < max && start + overlap < |text|
    ensures Tails(WindowFrom(text, start, max, overlap), overlap) == text[start + overlap..]
    decreases |text| - start
  {
    hide WindowFrom;
    WindowStep(text, start, max, overlap);
    if start + max < |text| {
      var next := start + max - overlap;
      TailsRebuild(text, next, max, overlap);
      assert text[start..start + max][overlap..] + text[start + max..] == text[start + overlap..];
    }
  }

  /** With an overlap smaller than the window, the first chunk and the tails of the others are the text. */
  lemma WindowRebuilds(text: string, max: nat, overlap: nat)
    requires overlap < max
    ensures var chunks := Windowed(text, max, overlap);
            chunks != [] && chunks[0] + Tails(chunks[1..], overlap) == text
  {
    hide WindowFrom;
    if |text| > max {
      WindowStep(text, 0, max, overlap);
      TailsRebuild(text, max - overlap, max, overlap);
      assert text[..max] + text[max..] == text;
    } else {
      assert Tails([], overlap) == "" && text + "" == text;
    }
  }

  /** The piece `[lo, hi)` of the text lies whole inside a chunk. */
  ghost predicate Held(text: string, chunks: seq<string>, lo: nat, hi: nat) {
    exists i: nat, s: Span :: i < |chunks| && SpanOf(text, chunks[i], s) && s.lo <= lo && hi <= s.hi
  }

  lemma {:induction false} PieceHeld(text: string, start: nat, max: nat, overlap: nat, lo: nat, hi: nat)
    requires overlap < max && start <= lo < hi <= |text| && hi - lo <= overlap + 1
    ensures Held(text, WindowFrom(text, start, max, overlap), lo, hi)
    decreases |text| - start
  {
    hide WindowFrom;
    WindowStep(text, start, max, overlap);
    var chunks := WindowFrom(text, start, max, overlap);
    var s := Span(start, Min(start + max, |text|));
    if hi <= s.hi {
      assert SpanOf(text, chunks[0], s);
    } else {
      var next := start + max - overlap;
      PieceHeld(text, next, max, overlap, lo, hi);
      var rest := WindowFrom(text, next, max, overlap);
      var i: nat, t: Span :| i < |rest| && SpanOf(text, rest[i], t) && t.lo <= lo && hi <= t.hi;
      assert chunks[i + 1] == rest[i];
    }
  }

  /** Every piece of up to `overlap + 1` characters lies whole inside some chunk. */
  lemma WindowHolds(text: string, max: nat, overlap: nat, lo: nat, hi: nat)
    requires overlap < max && lo < hi <= |text| && hi - lo <= overlap + 1
    ensures Held(text, Windowed(text, max, overlap), lo, hi)
  {
    if |text| <= max {
      assert SpanOf(text, text, Span(0, |text|));
      assert Windowed(text, max, overlap)[0] == text;
    } else {
      PieceHeld(text, 0, max, overlap, lo, hi);
    }
  }

  ghost predicate Covered(spans: seq<Span>, p: nat) {
    exists i :: 0 <= i < |spans| && spans[i].lo <= p < spans[i].hi
  }

  lemma {:induction false} SpansCover(n: nat, start: nat, max: nat, overlap: nat, p: nat)
    requires max > 0 && start <= p < n
    ensures Covered(Spans(n, start, max, overlap), p)
    decreases n - start
  {
    var spans := Spans(n, start, max, overlap);
    if p < start + max {
      assert spans[0].lo <= p < spans[0].hi;
    } else {
      var next := start + Stride(max, overlap);
      SpansCover(n, next, max, overlap, p);
      var i :| 0 <= i < |Spans(n, next, max, overlap)|
          && Spans(n, next, max, overlap)[i].lo <= p < Spans(n, next, max, overlap)[i].hi;
      assert spans[i + 1] == Spans(n, next, max, overlap)[i];
    }
  }

  lemma {:induction false} SpansStartLate(n: nat, start: nat, max: nat, overlap: int)
    requires max > 0
    ensures forall i :: 0 <= i < |Spans(n, start, max, overlap)| ==> start <= Spans(n, start, max, overlap)[i].lo
    decreases n - start
  {
    if start < n && start + max < n { SpansStartLate(n, start + Stride(max, overlap), max, overlap); }
  }

  /** A text longer than the window is covered without gaps exactly when the overlap is not negative. */
  lemma CoverageIff(n: nat, max: nat, overlap: int)
    requires 0 < max < n
    ensures (forall p: nat :: p < n ==> Covered(Spans(n, 0, max, overlap), p)) <==> overlap >= 0
  {
    if overlap >= 0 {
      forall p: nat | p < n
        ensures Covered(Spans(n, 0, max, overlap), p)
      {
        SpansCover(n, 0, max, overlap, p);
      }
    } else {
      SpansStartLate(n, Stride(max, overlap), max, overlap);
      assert !Covered(Spans(n, 0, max, overlap), max);
    }
  }

  // ---------------------------------------------------------------- the paragraph splitter

  /** Python's whitespace. */
  predicate IsSpace(c: char) {
    var n := c as int;
    || 9 <= n <= 13 || 0x1C <= n <= 0x20 || n == 0x85 || n == 0xA0 || n == 0x1680 || 0x2000 <= n <= 0x200A
    || n == 0x2028 || n == 0x2029 || n == 0x202F || n == 0x205F || n == 0x3000
  }

  function Squeeze(text: string): string {
    if text == "" then "" else
      var n := |text| - 1;
      Squeeze(text[..n]) + if IsSpace(text[n]) then "" else [text[n]]
  }

  function LStrip(text: string): string {
    if text != "" && IsSpace(text[0]) then LStrip(text[1..]) else text
  }

  function RStrip(text: string): string {
    if text != "" && IsSpace(text[|text| - 1]) then RStrip(text[..|text| - 1]) else text
  }

  /** `text.strip()` */
  function Strip(text: string): string {
    RStrip(LStrip(text))
  }

  predicate Break(text: string, i: nat) {
    i + 2 <= |text| && text[i] == '\n' && text[i + 1] == '\n'
  }

  /** `text.rfind("\n\n", lo, hi)`; None is -1. */
  method FindBreak(text: string, lo: nat, hi: nat) returns (r: Option<nat>)
    requires hi <= |text|
    ensures r.Some? ==> lo <= r.value && r.value + 2 <= hi && Break(text, r.value)
    ensures forall i: nat :: lo <= i && i + 2 <= hi && Break(text, i) ==> r.Some? && i <= r.value
  {
    var i := hi;
    while i > lo
      invariant i <= hi && (lo <= hi ==> lo <= i)
      invariant forall k: nat :: i <= k && k + 2 <= hi ==> !Break(text, k)
    {
      i := i - 1;
      if i + 2 <= hi && Break(text, i) { return Some(i); }
    }
    r := None;
  }

  lemma {:induction false} SqueezeConcat(a: string, b: string)
    ensures Squeeze(a + b) == Squeeze(a) + Squeeze(b)
    decreases |b|
  {
    if b == "" {
      assert a + b == a;
    } else {
      var n := |b| - 1;
      SqueezeConcat(a, b[..n]);
      assert (a + b)[..|a + b| - 1] == a + b[..n];
    }
  }

  lemma {:induction false} LStripSqueezes(text: string)
    ensures Squeeze(LStrip(text)) == Squeeze(text) && |LStrip(text)| <= |text|
    ensures LStrip(text) == "" ==> Squeeze(text) == ""
  {
    if text != "" && IsSpace(text[0]) {
      LStripSqueezes(text[1..]);
      SqueezeConcat([text[0]], text[1..]);
      assert [text[0]] + text[1..] == text;
      assert [text[0]][..0] == "";
    }
  }

  lemma {:induction false} RStripSqueezes(text: string)
    ensures Squeeze(RStrip(text)) == Squeeze(text) && |RStrip(text)| <= |text|
    ensures RStrip(text) != "" ==> !IsSpace(RStrip(text)[|RStrip(text)| - 1])
  {
    if text != "" && IsSpace(text[|text| - 1]) { RStripSqueezes(text[..|text| - 1]); }
  }

  /** Stripping removes only whitespace, and what is left, if anything, is not blank. */
  lemma StripSqueezes(text: string)
    ensures Squeeze(Strip(text)) == Squeeze(text) && |Strip(text)| <= |text|
    ensures Strip(text) != "" <==> Squeeze(text) != ""
  {
    LStripSqueezes(text);
    RStripSqueezes(LStrip(text));
    var t := Strip(text);
    assert t != "" ==> Squeeze(t) != "";
  }

  ghost predicate AllSpace(text: string) {
    forall i :: 0 <= i < |text| ==> IsSpace(text[i])
  }

  /** The text with `lo` characters cut off its start, and everything from `hi` on. */
  ghost predicate StripsTo(text: string, t: string, lo: nat, hi: nat) {
    lo <= hi <= |text| && t == text[lo..hi] && AllSpace(text[..lo]) && AllSpace(text[hi..])
  }

  lemma {:induction false} LStripIsSuffix(text: string) returns (lo: nat)
    ensures StripsTo(text, LStrip(text), lo, |text|)
    ensures LStrip(text) != "" ==> !IsSpace(LStrip(text)[0])
  {
    lo := 0;
    if text != "" && IsSpace(text[0]) {
      lo := LStripIsSuffix(text[1..]);
      lo := lo + 1;
      assert text[1..][..lo - 1] == text[1..lo];
      assert text[..lo] == [text[0]] + text[1..lo];
      assert text[1..][lo - 1..] == text[lo..];
    }
    assert text[lo..|text|] == text[lo..];
  }

  lemma {:induction false} RStripIsPrefix(text: string) returns (hi: nat)
    ensures StripsTo(text, RStrip(text), 0, hi)
  {
    hi := |text|;
    if text != "" && IsSpace(text[|text| - 1]) {
      var n := |text| - 1;
      hi := RStripIsPrefix(text[..n]);
      assert text[..n][hi..] == text[hi..n] && text[hi..] == text[hi..n] + [text[n]];
      assert text[..n][0..hi] == text[0..hi];
    }
    assert text[0..hi] == text[..hi];
  }

  /** Stripping cuts whitespace off both ends and leaves what is between as it is. */
  lemma {:induction false} StripIsInside(text: string)
    ensures exists lo: nat, hi: nat :: StripsTo(text, Strip(text), lo, hi)
    ensures var t := Strip(text); t != "" ==> !IsSpace(t[0]) && !IsSpace(t[|t| - 1])
  {
    hide LStrip, RStrip;
    var s := LStrip(text);
    var lo := LStripIsSuffix(text);
    var hi := RStripIsPrefix(s);
    RStripSqueezes(s);
    assert s[0..hi] == text[lo..lo + hi];
    assert forall i :: 0 <= i < |s[hi..]| ==> text[lo + hi..][i] == s[hi..][i];
    assert text[lo + hi..] == s[hi..];
    assert StripsTo(text, Strip(text), lo, lo + hi);
    if Strip(text) != "" { assert Strip(text)[0] == s[0]; }
  }

  ghost predicate ChunkOk(chunk: string, limit: nat) {
    |chunk| <= limit && Squeeze(chunk) != ""
  }

  /** What one chunk contributes: the text between two cursors, stripped, unless it is blank. */
  lemma ChunkAdds(text: string, cursor: nat, end: nat, next: nat, chunks: seq<string>, limit: nat)
    requires cursor <= end <= next <= |text| && end - cursor <= limit
    requires next == end || (next == end + 2 && Break(text, end))
    requires Squeeze(Concat(chunks)) == Squeeze(text[..cursor])
    ensures var chunk := Strip(text[cursor..end]);
            && (chunk != "" ==> ChunkOk(chunk, limit) && Squeeze(Concat(chunks + [chunk])) == Squeeze(text[..next]))
            && (chunk == "" ==> Squeeze(Concat(chunks)) == Squeeze(text[..next]))
  {
    assert Squeeze("") == "";
    hide Squeeze, Strip, Concat, Break;
    var chunk := Strip(text[cursor..end]);
    StripSqueezes(text[cursor..end]);
    CursorMoves(text, cursor, end, next);
    ConcatSnoc(chunks, chunk);
    SqueezeConcat(Concat(chunks), chunk);
  }

  /** Moving the cursor past a piece, and past the break after it, adds the piece's own characters. */
  lemma CursorMoves(text: string, cursor: nat, end: nat, next: nat)
    requires cursor <= end <= next <= |text|
    requires next == end || (next == end + 2 && Break(text, end))
    ensures Squeeze(text[..next]) == Squeeze(text[..cursor]) + Squeeze(text[cursor..end])
  {
    hide Squeeze, Break;
    assert text[..end] == text[..cursor] + text[cursor..end];
    SqueezeConcat(text[..cursor], text[cursor..end]);
    if next == end + 2 {
      assert text[..next] == text[..end] + text[end..next];
      SqueezeConcat(text[..end], text[end..next]);
      BreakIsBlank(text, end);
    }
  }

  lemma BreakIsBlank(text: string, i: nat)
    requires Break(text, i)
    ensures Squeeze(text[i..i + 2]) == ""
  {
    var s := text[i..i + 2];
    assert s[..1] == [text[i]] && [text[i]][..0] == "";
    assert Squeeze([text[i]]) == "";
  }

  /** A paragraph break in the second half of the window that starts at `lo`. */
  ghost predicate InWindow(text: string, lo: nat, limit: nat, p: nat) {
    lo < p && lo + limit / 2 <= p && p + 2 <= lo + limit && p + 2 <= |text| && text[p] == '\n' && text[p + 1] == '\n'
  }

  /** A piece ends with the text, or else at the last paragraph break of its window, or else with the window. */
  ghost predicate CutOk(text: string, limit: nat, lo: nat, hi: nat) {
    && lo < hi <= |text| && hi <= lo + limit
    && if |text| <= lo + limit then hi == |text|
       else (InWindow(text, lo, limit, hi) || hi == lo + limit)
            && forall p: nat :: InWindow(text, lo, limit, p) ==> p <= hi && InWindow(text, lo, limit, hi)
  }

  /** The next piece starts after the two characters of a break. */
  function After(text: string, hi: nat): nat {
    if hi + 2 <= |text| && text[hi] == '\n' && text[hi + 1] == '\n' then hi + 2 else hi
  }

  /** The `k`-th piece is cut right, and starts after the one before it. */
  ghost predicate PieceOk(text: string, limit: nat, cuts: seq<(nat, nat)>, k: nat)
    requires k < |cuts|
  {
    && CutOk(text, limit, cuts[k].0, cuts[k].1)
    && cuts[k].0 == if k == 0 then 0 else After(text, cuts[k - 1].1)
  }

  /** The pieces follow one another from the start of the text to `cursor`. */
  ghost predicate CutsOk(text: string, limit: nat, cuts: seq<(nat, nat)>, cursor: nat) {
    && (forall k: nat {:trigger PieceOk(text, limit, cuts, k)} :: k < |cuts| ==> PieceOk(text, limit, cuts, k))
    && cursor == if cuts == [] then 0 else After(text, cuts[|cuts| - 1].1)
  }

  /** The pieces, stripped, without the blank ones. */
  function Pieces(text: string, cuts: seq<(nat, nat)>): seq<string> {
    if cuts == [] then [] else
      var n := |cuts| - 1;
      var lo, hi := cuts[n].0, cuts[n].1;
      var piece := if lo <= hi <= |text| then Strip(text[lo..hi]) else "";
      Pieces(text, cuts[..n]) + if piece == "" then [] else [piece]
  }

  lemma CutAdds(text: string, limit: nat, cuts: seq<(nat, nat)>, lo: nat, hi: nat)
    requires CutsOk(text, limit, cuts, lo) && CutOk(text, limit, lo, hi)
    ensures var more, piece := cuts + [(lo, hi)], Strip(text[lo..hi]);
            && CutsOk(text, limit, more, After(text, hi))
            && Pieces(text, more) == Pieces(text, cuts) + if piece == "" then [] else [piece]
  {
    hide Strip, After, InWindow;
    var more := cuts + [(lo, hi)];
    assert more[..|cuts|] == cuts && more[|cuts|] == (lo, hi);
    forall k: nat | k < |more|
      ensures PieceOk(text, limit, more, k)
    {
      if k > 0 { assert more[k - 1] == cuts[k - 1]; }
      if k < |cuts| { assert more[k] == cuts[k] && PieceOk(text, limit, cuts, k); }
    }
  }

  /** Where the next piece ends. */
  method FindCut(text: string, limit: nat, cursor: nat) returns (end: nat)
    requires limit >= 1 && cursor < |text|
    ensures CutOk(text, limit, cursor, end)
  {
    end := Min(cursor + limit, |text|);
    if end < |text| {
      var split := FindBreak(text, cursor + limit / 2, end);
      assert forall p: nat :: InWindow(text, cursor, limit, p) ==> Break(text, p);
      if split.Some? && split.value > cursor { end := split.value; }
    }
  }

  /**
   For every text and limit of at least one: the loop ends, every chunk is nonblank and at most
   `limit` long, nothing but whitespace is dropped, and a long text is cut at the last paragraph break of
   each window.
   */
  method SplitChunks(text: string, limit: nat) returns (chunks: seq<string>, ghost cuts: seq<(nat, nat)>)
    requires limit >= 1
    ensures forall i :: 0 <= i < |chunks| ==> ChunkOk(chunks[i], limit)
    ensures Squeeze(Concat(chunks)) == Squeeze(text)
    ensures if |text| <= limit then chunks == if Strip(text) == "" then [] else [text]
            else CutsOk(text, limit, cuts, |text|) && chunks == Pieces(text, cuts)
  {
    hide Squeeze, Strip, Concat, CutOk, CutsOk, Pieces;
    StripSqueezes(text);
    OneChunk(text);
    chunks, cuts := [], [];
    if |text| <= limit {
      if Strip(text) != "" { chunks := [text]; }
      return;
    }
    var cursor := 0;
    NoCuts(text, limit);
    while cursor < |text|
      invariant 0 <= cursor <= |text|
      invariant forall i :: 0 <= i < |chunks| ==> ChunkOk(chunks[i], limit)
      invariant Squeeze(Concat(chunks)) == Squeeze(text[..cursor])
      invariant CutsOk(text, limit, cuts, cursor) && chunks == Pieces(text, cuts)
      decreases |text| - cursor
    {
      var end := FindCut(text, limit, cursor);
      CutFits(text, limit, cursor, end);
      var chunk := Strip(text[cursor..end]);
      var next := if end < |text| && Break(text, end) then end + 2 else end;
      BreakFits(text, end);
      ChunkAdds(text, cursor, end, next, chunks, limit);
      CutAdds(text, limit, cuts, cursor, end);
      if chunk != "" { chunks := chunks + [chunk]; }
      cuts := cuts + [(cursor, end)];
      cursor := next;
    }
    assert text[..|text|] == text;
  }

  lemma CutFits(text: string, limit: nat, lo: nat, hi: nat)
    requires CutOk(text, limit, lo, hi)
    ensures lo < hi <= |text| && hi - lo <= limit
  {
  }

  lemma NoCuts(text: string, limit: nat)
    ensures CutsOk(text, limit, [], 0) && Pieces(text, []) == []
  {
  }

  lemma BreakFits(text: string, i: nat)
    ensures Break(text, i) ==> i + 2 <= |text|
  {
  }

  lemma OneChunk(text: string)
    ensures Concat([text]) == text && Concat<char>([]) == "" && Squeeze("") == "" && text[..0] == ""
  {
    assert [text][..0] == [];
    assert "" + text == text;
  }
}
