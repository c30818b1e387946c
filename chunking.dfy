/**
 * The chunker of the retrieval engine (`RagEngine.chunkText`): it cuts a
 * document into windows of at most `chunkSize` characters, preferring to
 * end a window at the last space or line feed, and starts the next window
 * `overlap` characters before the end of the previous one.
 *
 * One loop step is modelled by `CutEnd` (where the window ends) and
 * `NextCursor` (where the next one starts).  The loop as written in the
 * source can move its cursor backwards or leave it where it is (see
 * `SourceNext` and `SourceLoopDiverges`); the model therefore advances the
 * cursor by at least one character, which changes nothing whenever the
 * source itself makes progress (`NextCursorAgrees`).
 */
module Chunking {
  import opened Strings

  const DefaultChunkSize: nat := 500
  const DefaultOverlap: nat := 50

  /** The characters `chunkText` looks for when it picks a break point. */
  predicate IsBreak(c: char) {
    c == ' ' || c == '\n'
  }

  /**
   * `text.lastIndexOf(c, from)` for a one-character search: the largest
   * index not after `from` that holds `c`, or -1.
   */
  function LastIndexOf(text: string, c: char, from: nat): (r: int)
    ensures -1 <= r <= from && r < |text|
    ensures r >= 0 ==> text[r] == c
    ensures forall i :: r < i <= from && i < |text| ==> text[i] != c
    decreases from
  {
    if from < |text| && text[from] == c then from
    else if from == 0 then -1
    else LastIndexOf(text, c, from - 1)
  }

  /** `Math.max(text.lastIndexOf(' ', end), text.lastIndexOf('\n', end))`. */
  function BreakPoint(text: string, end: nat): (r: int)
    ensures -1 <= r <= end && r < |text|
    ensures r >= 0 ==> IsBreak(text[r])
    ensures forall i :: r < i <= end && i < |text| ==> !IsBreak(text[i])
  {
    var sp := LastIndexOf(text, ' ', end);
    var nl := LastIndexOf(text, '\n', end);
    if sp >= nl then sp else nl
  }

  /**
   * Where the window that starts at `start` ends (before clamping to the
   * text): `start + chunkSize`, or, when that lies inside the text, the
   * last break character at or before it, provided that one lies strictly
   * after `start`.
   */
  function CutEnd(text: string, chunkSize: nat, start: nat): (r: nat)
    ensures start <= r <= start + chunkSize
    ensures chunkSize > 0 ==> start < r
    ensures start + chunkSize >= |text| ==> r == start + chunkSize
    ensures start + chunkSize < |text| && r < start + chunkSize ==>
              IsBreak(text[r]) && forall i :: r < i <= start + chunkSize ==> !IsBreak(text[i])
    ensures start + chunkSize < |text| && r == start + chunkSize ==>
              IsBreak(text[r]) || forall i :: start < i <= start + chunkSize ==> !IsBreak(text[i])
  {
    var end := start + chunkSize;
    if end < |text| then
      var bp := BreakPoint(text, end);
      if bp > start then bp else end
    else end
  }

  /** `text.substring(start, end)`: JavaScript clamps an end beyond the text. */
  function Window(text: string, start: nat, end: nat): (r: string)
    requires start <= end && start <= |text|
    ensures |r| <= end - start
  {
    text[start..if end <= |text| then end else |text|]
  }

  /**
   * The cursor after one step: `end - overlap` as in the source, but at
   * least one past the current cursor.
   */
  function NextCursor(text: string, chunkSize: nat, overlap: nat, start: nat): (r: nat)
    ensures r > start
    ensures r == CutEnd(text, chunkSize, start) - overlap <==> CutEnd(text, chunkSize, start) - overlap > start
  {
    var back := CutEnd(text, chunkSize, start) - overlap;
    if back > start then back else start + 1
  }

  /** The chunks emitted from cursor `start` to the end of the loop. */
  function ChunksFrom(text: string, chunkSize: nat, overlap: nat, start: nat): seq<string>
    decreases |text| - start
  {
    if start >= |text| then []
    else
      [Trim(Window(text, start, CutEnd(text, chunkSize, start)))]
      + ChunksFrom(text, chunkSize, overlap, NextCursor(text, chunkSize, overlap, start))
  }

  lemma ChunksFromStep(text: string, chunkSize: nat, overlap: nat, start: nat)
    requires start < |text|
    ensures ChunksFrom(text, chunkSize, overlap, start)
            == [Trim(Window(text, start, CutEnd(text, chunkSize, start)))]
               + ChunksFrom(text, chunkSize, overlap, NextCursor(text, chunkSize, overlap, start))
  {
  }

  /** One loop step keeps the chunks emitted so far followed by those still to come equal to the whole result. */
  lemma EmitStep(text: string, chunkSize: nat, overlap: nat, start: nat, chunks: seq<string>)
    requires start < |text|
    requires chunks + ChunksFrom(text, chunkSize, overlap, start) == ChunksFrom(text, chunkSize, overlap, 0)
    ensures (chunks + [Trim(Window(text, start, CutEnd(text, chunkSize, start)))])
              + ChunksFrom(text, chunkSize, overlap, NextCursor(text, chunkSize, overlap, start))
            == ChunksFrom(text, chunkSize, overlap, 0)
  {
    ChunksFromStep(text, chunkSize, overlap, start);
  }

  /** The cursors the loop visits from `start` on, one per emitted chunk. */
  function CursorsFrom(text: string, chunkSize: nat, overlap: nat, start: nat): seq<nat>
    decreases |text| - start
  {
    if start >= |text| then []
    else [start] + CursorsFrom(text, chunkSize, overlap, NextCursor(text, chunkSize, overlap, start))
  }

  /** `chunkText(text, chunkSize, overlap)`, as a function of its inputs. */
  function Chunks(text: string, chunkSize: nat, overlap: nat): seq<string> {
    if text == [] then []
    else if |text| <= chunkSize then [text]
    else ChunksFrom(text, chunkSize, overlap, 0)
  }

  /** The loop of `chunkText`, with the minimum-advance guard. */
  method ChunkText(text: string, chunkSize: nat, overlap: nat) returns (chunks: seq<string>)
    ensures chunks == Chunks(text, chunkSize, overlap)
  {
    if text == [] {
      return [];
    }
    if |text| <= chunkSize {
      return [text];
    }
    chunks := [];
    var start: nat := 0;
    while start < |text|
      invariant chunks + ChunksFrom(text, chunkSize, overlap, start) == ChunksFrom(text, chunkSize, overlap, 0)
      decreases |text| - start
    {
      var end := start + chunkSize;
      if end < |text| {
        var lastSpace := LastIndexOf(text, ' ', end);
        var lastNewline := LastIndexOf(text, '\n', end);
        var breakPoint := if lastSpace >= lastNewline then lastSpace else lastNewline;
        if breakPoint > start {
          end := breakPoint;
        }
      }
      assert end == CutEnd(text, chunkSize, start);
      var back := end - overlap;
      var next: nat := if back > start then back else start + 1;
      assert next == NextCursor(text, chunkSize, overlap, start);
      EmitStep(text, chunkSize, overlap, start, chunks);
      chunks := chunks + [Trim(Window(text, start, end))];
      start := next;
    }
  }

  /** The visited cursors increase strictly, stay inside the text, and start where asked. */
  lemma {:induction false} CursorsIncrease(text: string, chunkSize: nat, overlap: nat, start: nat)
    ensures var cs := CursorsFrom(text, chunkSize, overlap, start);
      (start < |text| ==> |cs| > 0 && cs[0] == start)
      && (forall i :: 0 <= i < |cs| ==> start <= cs[i] < |text|)
      && (forall i, j :: 0 <= i < j < |cs| ==> cs[i] < cs[j])
    decreases |text| - start
  {
    if start < |text| {
      CursorsIncrease(text, chunkSize, overlap, NextCursor(text, chunkSize, overlap, start));
    }
  }

  /**
   * Chunk `i` is the trimmed window from cursor `i` to its cut end, and the
   * window is at most `chunkSize` characters long.
   */
  lemma {:induction false} ChunksAreTrimmedWindows(text: string, chunkSize: nat, overlap: nat, start: nat)
    ensures var ch := ChunksFrom(text, chunkSize, overlap, start);
      var cs := CursorsFrom(text, chunkSize, overlap, start);
      |ch| == |cs|
      && forall i :: 0 <= i < |ch| ==>
           cs[i] < |text| && ch[i] == Trim(Window(text, cs[i], CutEnd(text, chunkSize, cs[i])))
           && CutEnd(text, chunkSize, cs[i]) - cs[i] <= chunkSize
    decreases |text| - start
  {
    if start < |text| {
      var next := NextCursor(text, chunkSize, overlap, start);
      ChunksAreTrimmedWindows(text, chunkSize, overlap, next);
      var ch := ChunksFrom(text, chunkSize, overlap, start);
      var cs := CursorsFrom(text, chunkSize, overlap, start);
      forall i | 0 <= i < |ch|
        ensures cs[i] < |text| && ch[i] == Trim(Window(text, cs[i], CutEnd(text, chunkSize, cs[i])))
      {
        if i > 0 {
          assert ch[i] == ChunksFrom(text, chunkSize, overlap, next)[i - 1];
          assert cs[i] == CursorsFrom(text, chunkSize, overlap, next)[i - 1];
        }
      }
    }
  }

  /** Every chunk is at most `chunkSize` characters long. */
  lemma ChunkLengthBound(text: string, chunkSize: nat, overlap: nat)
    ensures forall c :: c in Chunks(text, chunkSize, overlap) ==> |c| <= chunkSize
  {
    if text != [] && |text| > chunkSize {
      ChunksAreTrimmedWindows(text, chunkSize, overlap, 0);
    }
  }

  /** Empty text gives no chunks; text no longer than `chunkSize` is returned whole and untrimmed. */
  lemma ShortText(text: string, chunkSize: nat, overlap: nat)
    ensures text == [] ==> Chunks(text, chunkSize, overlap) == []
    ensures text != [] && |text| <= chunkSize ==> Chunks(text, chunkSize, overlap) == [text]
    ensures text != [] ==> |Chunks(text, chunkSize, overlap)| >= 1
  {
  }

  /**
   * One step of the source's loop advances the cursor exactly when the
   * window reaches more than `overlap` characters past it.  When the window
   * is not cut short by the end of the text and `chunkSize > overlap`, it
   * stalls exactly when the last break character at or before
   * `start + chunkSize` lies within `overlap` characters after `start`.
   */
  lemma StallCondition(text: string, chunkSize: nat, overlap: nat, start: nat)
    requires overlap < chunkSize && start + chunkSize < |text|
    ensures CutEnd(text, chunkSize, start) - overlap <= start
            <==> start < BreakPoint(text, start + chunkSize) <= start + overlap
  {
  }

  /**
   * Windows can still follow one that already reached the end of the text:
   * the cursor moves back by `overlap` from the unclamped end, and a
   * trailing fragment of the last window is emitted again.
   */
  lemma {:induction false} TrailingFragment(text: string, chunkSize: nat, overlap: nat, start: nat)
    requires start < |text| <= start + chunkSize
    requires overlap < chunkSize && start + chunkSize - overlap < |text|
    ensures var ch := ChunksFrom(text, chunkSize, overlap, start);
      |ch| >= 2 && ch[0] == Trim(text[start..]) && ch[1] == Trim(text[start + chunkSize - overlap..])
  {
    var next := start + chunkSize - overlap;
    assert NextCursor(text, chunkSize, overlap, start) == next;
    assert CutEnd(text, chunkSize, next) == next + chunkSize;
    assert Window(text, start, start + chunkSize) == text[start..];
    assert Window(text, next, next + chunkSize) == text[next..];
    ChunksFromStep(text, chunkSize, overlap, start);
    ChunksFromStep(text, chunkSize, overlap, next);
  }

  // ----- The loop as written, which can fail to terminate -----

  /**
   * One step of the source's loop on an integer cursor, with no guard:
   * `end = start + chunkSize`, the break-point search when `end` lies inside
   * the text (JavaScript's `lastIndexOf` treats a negative start as 0), then
   * `start = end - overlap`.
   */
  function SourceNext(text: string, chunkSize: nat, overlap: nat, start: int): (next: int)
    ensures start >= 0 ==> next <= start + chunkSize - overlap
    ensures start + chunkSize >= |text| ==> next == start + chunkSize - overlap
    ensures overlap < chunkSize && next <= start ==> start + chunkSize < |text|
  {
    var end := start + chunkSize;
    if end < |text| then
      var bp := BreakPoint(text, if end < 0 then 0 else end);
      (if bp > start then bp else end) - overlap
    else end - overlap
  }

  /** The guarded step agrees with the source's step whenever the source makes progress. */
  lemma NextCursorAgrees(text: string, chunkSize: nat, overlap: nat, start: nat)
    ensures SourceNext(text, chunkSize, overlap, start) > start ==>
              NextCursor(text, chunkSize, overlap, start) == SourceNext(text, chunkSize, overlap, start)
    ensures SourceNext(text, chunkSize, overlap, start) <= start ==>
              NextCursor(text, chunkSize, overlap, start) == start + 1
  {
  }

  /**
   * A space at index 10 followed by 500 other characters, with the default
   * sizes: the first step takes the cursor from 0 to -40, and from -40 the
   * step returns to -40, which is still below the length, so the source's
   * loop never ends.
   */
  lemma SourceLoopDiverges()
    ensures var text := seq(511, i => if i == 10 then ' ' else 'a');
      SourceNext(text, DefaultChunkSize, DefaultOverlap, 0) == -40
      && SourceNext(text, DefaultChunkSize, DefaultOverlap, -40) == -40
      && -40 < |text|
  {
    var text := seq(511, i => if i == 10 then ' ' else 'a');
    assert IsBreak(text[10]);
    assert forall i :: 10 < i < 511 ==> !IsBreak(text[i]);
    assert BreakPoint(text, 500) == 10;
    assert BreakPoint(text, 460) == 10;
  }

  /** With the guard the same text is chunked in finitely many steps, each chunk within bounds. */
  lemma GuardedChunkingOfDivergentText()
    ensures var text := seq(511, i => if i == 10 then ' ' else 'a');
      var start1 := NextCursor(text, DefaultChunkSize, DefaultOverlap, 0);
      start1 == 1 && ChunksFrom(text, DefaultChunkSize, DefaultOverlap, 0)[0] == text[..10]
  {
    var text := seq(511, i => if i == 10 then ' ' else 'a');
    assert IsBreak(text[10]);
    assert forall i :: 10 < i < 511 ==> !IsBreak(text[i]);
    assert BreakPoint(text, 500) == 10;
    assert text[..10] == Window(text, 0, 10);
    TrimNoop(text[..10]);
  }

  /** The scenario `chunkText("Hello world. This is a test.", 10, 2)`: some chunk, the first at most 10 long. */
  lemma HelloWorldScenario()
    ensures var ch := Chunks("Hello world. This is a test.", 10, 2);
      |ch| > 0 && |ch[0]| <= 10
  {
    ShortText("Hello world. This is a test.", 10, 2);
    ChunkLengthBound("Hello world. This is a test.", 10, 2);
    var ch := Chunks("Hello world. This is a test.", 10, 2);
    assert ch[0] in ch;
  }
}
