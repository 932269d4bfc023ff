/** The novel reader: cutting a text into chapter chunks at recognised
    headings, or into fixed-size windows when there are none, and reading a
    window of preceding chunks back. */
module Reader {
  import opened Common
  import opened ChineseNumerals
  import opened ChapterPatterns
  import opened StableSort

  /** One chapter or one fixed-size piece of the novel. */
  datatype TextChunk = TextChunk(
    chapterNumber: int,
    chapterTitle: Option<string>,
    content: string,
    startPosition: int,
    endPosition: int,
    wordCount: int)

  /** A heading candidate: where it starts, its chapter number and its
      matched text. */
  datatype Boundary = Boundary(pos: nat, number: int, title: string)

  /** How close two headings may be before the later one is dropped. */
  const MinGap := 50

  function PosKey(b: Boundary): real {
    b.pos as real
  }

  function BoundaryOf(text: string, h: Hit): (b: Boundary)
    requires h.start < h.end <= |text|
    ensures b.pos == h.start && b.pos < |text|
  {
    Boundary(h.start, NumeralValue(h.group), text[h.start..h.end])
  }

  /** Every match of the three patterns, in the order they are collected. */
  function Candidates(text: string): (r: seq<Boundary>)
    ensures |r| == |AllHits(text)|
    ensures forall k :: 0 <= k < |r| ==> r[k] == BoundaryOf(text, AllHits(text)[k])
  {
    var hits := AllHits(text);
    seq(|hits|, k requires 0 <= k < |hits| => BoundaryOf(text, hits[k]))
  }

  /** The dedup pass: a candidate is kept when it lies more than 50
      characters after the last kept one. Kept candidates come from the
      input, each more than 50 after its predecessor, and the first
      candidate is kept whenever it is far enough from `last`. */
  function Spaced(bs: seq<Boundary>, last: int): (r: seq<Boundary>)
    ensures forall k :: 0 <= k < |r| ==> r[k] in bs
    ensures r != [] ==> r[0].pos - last > MinGap
    ensures forall k :: 0 <= k < |r| - 1 ==> r[k + 1].pos - r[k].pos > MinGap
    ensures bs != [] && bs[0].pos - last > MinGap ==> r != [] && r[0] == bs[0]
    decreases |bs|
  {
    if bs == [] then []
    else if bs[0].pos - last > MinGap then [bs[0]] + Spaced(bs[1..], bs[0].pos)
    else Spaced(bs[1..], last)
  }

  /** The candidates sorted by position (stably), then deduplicated from an
      imaginary heading at -100. */
  function KeptBoundaries(text: string): (r: seq<Boundary>)
    ensures forall k :: 0 <= k < |r| ==> r[k].pos < |text|
    ensures forall k :: 0 <= k < |r| - 1 ==> r[k].pos < r[k + 1].pos
  {
    var c := Candidates(text);
    var sorted := SortBy(c, PosKey);
    SortedElements(c);
    Spaced(sorted, -100)
  }

  lemma SortedElements(c: seq<Boundary>)
    ensures forall b :: b in SortBy(c, PosKey) ==> b in c
  {
    SortByCorrect(c, PosKey);
    forall b | b in SortBy(c, PosKey) ensures b in c {
      assert b in multiset(SortBy(c, PosKey));
    }
  }

  /** Positions strictly increasing and inside the text. */
  predicate Ascending(text: string, bs: seq<Boundary>) {
    (forall j :: 0 <= j < |bs| ==> bs[j].pos < |text|) &&
    (forall j :: 0 <= j < |bs| - 1 ==> bs[j].pos < bs[j + 1].pos)
  }

  /** The end of the chunk that starts at heading `k`. */
  function ChunkEnd(text: string, bs: seq<Boundary>, k: nat): (e: nat)
    requires k < |bs| && Ascending(text, bs)
    ensures bs[k].pos < e <= |text|
  {
    if k + 1 < |bs| then bs[k + 1].pos else |text|
  }

  function ChapterChunk(text: string, bs: seq<Boundary>, k: nat): TextChunk
    requires k < |bs| && Ascending(text, bs)
  {
    var e := ChunkEnd(text, bs, k);
    var content := Strip(text[bs[k].pos..e]);
    TextChunk(bs[k].number, Some(Strip(bs[k].title)), content, bs[k].pos, e, |content|)
  }

  /** One chunk per heading, in heading order. */
  function HeadingChunks(text: string, bs: seq<Boundary>): (r: seq<TextChunk>)
    requires Ascending(text, bs)
    ensures |r| == |bs|
    ensures forall k :: 0 <= k < |r| ==> r[k] == ChapterChunk(text, bs, k)
  {
    seq(|bs|, k requires 0 <= k < |bs| => ChapterChunk(text, bs, k))
  }

  // ---------------------------------------------------------------------
  // Fixed-size windows

  /** The sentence ends tried, in order, as a place to cut a window. */
  const Separators: seq<string> := ["。\n", "！\n", "？\n", "。\n\n", "!\n", "?\n"]

  /** The separator search: the first separator whose last occurrence in
      the window lies beyond half the window size decides the cut, just
      after it; with none, the window keeps its full size. */
  function SeparatorCut(text: string, start: nat, end: nat, maxSize: int, seps: seq<string>): (e: nat)
    requires start < end <= |text| && maxSize >= 1
    ensures start < e <= end
  {
    if seps == [] then end
    else
      var last := RFind(text[start..end], seps[0]);
      if last > maxSize / 2 then start + last + |seps[0]|
      else SeparatorCut(text, start, end, maxSize, seps[1..])
  }

  /** Where the window that starts at `start` ends: never past the text,
      never longer than `maxSize`. */
  function WindowEnd(text: string, start: nat, maxSize: int): (e: nat)
    requires start < |text| && maxSize >= 1
    ensures start < e <= |text| && e - start <= maxSize
  {
    var end := if start + maxSize < |text| then start + maxSize else |text|;
    if end < |text| then SeparatorCut(text, start, end, maxSize, Separators) else end
  }

  /** The next window start as written: step back by the overlap unless the
      text is used up. */
  function AsWrittenNextStart(text: string, start: nat, end: nat, overlap: int): int {
    if end < |text| then end - overlap else end
  }

  /** The next window start, corrected: step back by the overlap only when
      that still moves forward, otherwise carry on from the window end. */
  function NextStart(text: string, start: nat, end: nat, overlap: int): (n: nat)
    requires start < end
    ensures n > start
    ensures overlap >= 0 ==> n <= end
  {
    if end < |text| && end - overlap > start then end - overlap else end
  }

  function PartTitle(n: nat): string {
    "第" + NatToString(n) + "部分"
  }

  /** The fixed-size split from `start` on, numbering the non-blank windows
      from `num`. */
  function SizeChunks(text: string, start: nat, num: nat, maxSize: int, overlap: int): seq<TextChunk>
    requires maxSize >= 1 || start >= |text|
    decreases |text| - start
  {
    if start >= |text| then []
    else
      var end := WindowEnd(text, start, maxSize);
      var content := Strip(text[start..end]);
      var next := NextStart(text, start, end, overlap);
      if content != [] then
        [TextChunk(num, Some(PartTitle(num)), content, start, end, |content|)] +
        SizeChunks(text, next, num + 1, maxSize, overlap)
      else SizeChunks(text, next, num, maxSize, overlap)
  }

  /** A fixed-size chunk: a non-blank stripped window of at most `maxSize`
      characters, with its length as word count. */
  predicate WindowChunk(text: string, c: TextChunk, maxSize: int) {
    0 <= c.startPosition < c.endPosition <= |text| &&
    c.endPosition - c.startPosition <= maxSize &&
    c.content == Strip(text[c.startPosition..c.endPosition]) && c.content != [] &&
    c.wordCount == |c.content|
  }

  /** The whole chapter split: chunks at the kept headings, or the
      fixed-size split when no heading survives. */
  function ChapterSplit(text: string, maxSize: int, overlap: int): seq<TextChunk>
    requires maxSize >= 1 || KeptBoundaries(text) != [] || text == []
  {
    var kept := KeptBoundaries(text);
    if kept == [] then SizeChunks(text, 0, 1, maxSize, overlap) else HeadingChunks(text, kept)
  }

  /** The contents of the chunks with index in `[lo, hi)` that exist. */
  function Contents(chunks: seq<TextChunk>, lo: int, hi: int): (r: seq<string>)
    requires lo >= 0
    ensures |r| == if lo < hi && lo < |chunks| then (if hi < |chunks| then hi else |chunks|) - lo else 0
    ensures forall k :: 0 <= k < |r| ==> lo + k < |chunks| && r[k] == chunks[lo + k].content
    decreases hi - lo
  {
    if hi <= lo then []
    else Contents(chunks, lo, hi - 1) + (if hi - 1 < |chunks| then [chunks[hi - 1].content] else [])
  }

  /** The context window of chunk `i`: the chunks from `max(0, i - p)` to
      `i` that exist, joined by blank lines. */
  function ContextWindow(chunks: seq<TextChunk>, i: int, p: int): string {
    if chunks == [] then ""
    else Join("\n\n", Contents(chunks, if i - p > 0 then i - p else 0, i + 1))
  }

  /** A line that can serve as a chapter title: non-empty, no heading of
      any pattern at its start, longer than 2 and shorter than 100. */
  predicate TitleLine(line: string) {
    line != [] &&
    MatchAt(ChapterPattern, line, 0).None? && MatchAt(EpisodePattern, line, 0).None? &&
    MatchAt(VolumePattern, line, 0).None? &&
    2 < |line| < 100
  }

  /** The index of the first line from `i` on whose stripped form can serve
      as a title, or -1. */
  function TitleIndex(lines: seq<string>, i: nat): (r: int)
    requires i <= |lines|
    ensures r == -1 || (i <= r < |lines| && TitleLine(Strip(lines[r])))
    ensures forall j :: i <= j < (if r == -1 then |lines| else r) ==> !TitleLine(Strip(lines[j]))
    decreases |lines| - i
  {
    if i == |lines| then -1
    else if TitleLine(Strip(lines[i])) then i
    else TitleIndex(lines, i + 1)
  }

  /** The lines of the 200 characters from `startPos` on. */
  function TitleLines(content: string, startPos: int): seq<string> {
    SplitOn(Slice(content, startPos, startPos + 200), '\n')
  }

  /** The chapter title found from `startPos`: the first stripped line of
      the next 200 characters that can serve as a title. */
  function ChapterTitle(content: string, startPos: int): Option<string> {
    var lines := TitleLines(content, startPos);
    var k := TitleIndex(lines, 0);
    if k < 0 then None else Some(Strip(lines[k]))
  }

  // ---------------------------------------------------------------------
  // The reader object

  class NovelReader {
    var maxChunkSize: int
    var overlapSize: int
    var chunks: seq<TextChunk>

    constructor (maxChunkSize: int, overlapSize: int)
      ensures this.maxChunkSize == maxChunkSize && this.overlapSize == overlapSize
      ensures chunks == []
    {
      this.maxChunkSize := maxChunkSize;
      this.overlapSize := overlapSize;
      chunks := [];
    }

    /** `split_by_chapters`: the chunks are stored and returned. */
    method SplitByChapters(text: string) returns (r: seq<TextChunk>)
      requires maxChunkSize >= 1 || KeptBoundaries(text) != [] || text == []
      modifies `chunks
      ensures r == ChapterSplit(text, maxChunkSize, overlapSize)
      ensures chunks == r
    {
      chunks := [];
      var positions := CollectCandidates(text);
      var sorted := SortBy(positions, PosKey);
      var unique := Dedup(sorted);
      SortedElements(positions);
      assert unique == KeptBoundaries(text);
      if unique == [] {
        r := SplitBySize(text);
      } else {
        r := BuildChunks(text, unique);
      }
      chunks := r;
    }

    /** The finditer loops: every match with its converted number. */
    static method CollectCandidates(text: string) returns (positions: seq<Boundary>)
      ensures positions == Candidates(text)
    {
      var hits := AllHits(text);
      positions := [];
      var i := 0;
      while i < |hits|
        invariant 0 <= i <= |hits|
        invariant positions == Candidates(text)[..i]
      {
        var h := hits[i];
        var num := ChineseToInt(h.group);
        positions := positions + [Boundary(h.start, num, text[h.start..h.end])];
        i := i + 1;
      }
    }

    /** The dedup loop over the sorted candidates. */
    static method Dedup(sorted: seq<Boundary>) returns (unique: seq<Boundary>)
      ensures unique == Spaced(sorted, -100)
    {
      unique := [];
      var lastPos: int := -100;
      var i := 0;
      assert sorted[0..] == sorted;
      while i < |sorted|
        invariant 0 <= i <= |sorted|
        invariant unique + Spaced(sorted[i..], lastPos) == Spaced(sorted, -100)
      {
        assert sorted[i..][1..] == sorted[i + 1..];
        if sorted[i].pos - lastPos > MinGap {
          unique := unique + [sorted[i]];
          lastPos := sorted[i].pos;
        }
        i := i + 1;
      }
    }

    /** The chunk-building loop over the kept headings. */
    static method BuildChunks(text: string, unique: seq<Boundary>) returns (cs: seq<TextChunk>)
      requires Ascending(text, unique)
      ensures cs == HeadingChunks(text, unique)
    {
      cs := [];
      var k := 0;
      while k < |unique|
        invariant 0 <= k <= |unique|
        invariant |cs| == k
        invariant forall j :: 0 <= j < k ==> cs[j] == ChapterChunk(text, unique, j)
      {
        var b := unique[k];
        var endPos := if k + 1 < |unique| then unique[k + 1].pos else |text|;
        var content := Strip(text[b.pos..endPos]);
        var chunk := TextChunk(b.number, Some(Strip(b.title)), content, b.pos, endPos, |content|);
        assert chunk == ChapterChunk(text, unique, k);
        cs := cs + [chunk];
        k := k + 1;
      }
    }

    /** `_split_by_size`. */
    method SplitBySize(text: string) returns (r: seq<TextChunk>)
      requires maxChunkSize >= 1 || text == []
      ensures r == SizeChunks(text, 0, 1, maxChunkSize, overlapSize)
    {
      r := [];
      var start: nat := 0;
      var chunkNum: nat := 1;
      while start < |text|
        invariant r + SizeChunks(text, start, chunkNum, maxChunkSize, overlapSize) == SizeChunks(text, 0, 1, maxChunkSize, overlapSize)
        decreases |text| - start
      {
        var end := CutWindow(text, start, maxChunkSize);
        var content := Strip(text[start..end]);
        if content != [] {
          r := r + [TextChunk(chunkNum, Some(PartTitle(chunkNum)), content, start, end, |content|)];
          chunkNum := chunkNum + 1;
        }
        start := NextStart(text, start, end, overlapSize);
      }
    }

    /** The window end with the separator loop. */
    static method CutWindow(text: string, start: nat, maxSize: int) returns (end: nat)
      requires start < |text| && maxSize >= 1
      ensures end == WindowEnd(text, start, maxSize)
    {
      end := if start + maxSize < |text| then start + maxSize else |text|;
      if end < |text| {
        ghost var full := end;
        var s := 0;
        while s < |Separators|
          invariant 0 <= s <= |Separators|
          invariant end == full
          invariant SeparatorCut(text, start, full, maxSize, Separators[s..]) == WindowEnd(text, start, maxSize)
        {
          assert Separators[s..][1..] == Separators[s + 1..];
          var sep := Separators[s];
          var lastSep := RFind(text[start..end], sep);
          if lastSep > maxSize / 2 {
            end := start + lastSep + |sep|;
            return;
          }
          s := s + 1;
        }
      }
    }

    /** `get_context_window`. */
    method GetContextWindow(chunkIndex: int, includePrevious: int) returns (r: string)
      ensures r == ContextWindow(chunks, chunkIndex, includePrevious)
    {
      if chunks == [] {
        return "";
      }
      var startIdx := if chunkIndex - includePrevious > 0 then chunkIndex - includePrevious else 0;
      var endIdx := chunkIndex + 1;
      var parts: seq<string> := [];
      var i := startIdx;
      while i < endIdx
        invariant startIdx <= i && (i <= endIdx || i == startIdx)
        invariant parts == Contents(chunks, startIdx, i)
      {
        if i < |chunks| {
          parts := parts + [chunks[i].content];
        }
        i := i + 1;
      }
      if i > endIdx {
        assert Contents(chunks, startIdx, endIdx) == [];
      }
      r := Join("\n\n", parts);
    }

    /** `_find_chapter_title`. */
    static method FindChapterTitle(content: string, startPos: int) returns (r: Option<string>)
      ensures r == ChapterTitle(content, startPos)
    {
      var lines := TitleLines(content, startPos);
      var i := 0;
      while i < |lines|
        invariant 0 <= i <= |lines|
        invariant TitleIndex(lines, i) == TitleIndex(lines, 0)
      {
        var line := Strip(lines[i]);
        if TitleLine(line) {
          return Some(line);
        }
        i := i + 1;
      }
      return None;
    }
  }

  // ---------------------------------------------------------------------
  // Properties

  /** The fixed-size split is used exactly when no heading matches at all;
      otherwise there is one chunk per kept heading. */
  lemma FallbackIffNoHeading(text: string, maxSize: int, overlap: int)
    requires maxSize >= 1
    ensures KeptBoundaries(text) == [] <==> AllHits(text) == []
    ensures AllHits(text) == [] ==> ChapterSplit(text, maxSize, overlap) == SizeChunks(text, 0, 1, maxSize, overlap)
    ensures AllHits(text) != [] ==> ChapterSplit(text, maxSize, overlap) == HeadingChunks(text, KeptBoundaries(text))
  {
    var c := Candidates(text);
    SortByLength(c, PosKey);
    var sorted := SortBy(c, PosKey);
    if sorted != [] {
      assert sorted[0].pos - (-100) > MinGap;
    }
  }

  /** Chunk `k` runs from heading `k` to heading `k + 1`, the last one to
      the end of the text, so the chunks are contiguous; each holds the
      stripped slice, its length, the heading's number and the stripped
      heading as its title (a heading holds no colon, see `NoColonInHits`,
      so the ": title" refinement never applies). */
  lemma HeadingChunksShape(text: string, bs: seq<Boundary>)
    requires Ascending(text, bs)
    ensures var r := HeadingChunks(text, bs);
      (forall k :: 0 <= k < |r| ==>
        r[k].startPosition == bs[k].pos && r[k].chapterNumber == bs[k].number &&
        r[k].chapterTitle == Some(Strip(bs[k].title)) &&
        bs[k].pos < r[k].endPosition <= |text| &&
        r[k].content == Strip(text[bs[k].pos..r[k].endPosition]) && r[k].wordCount == |r[k].content|) &&
      (forall k :: 0 <= k < |r| - 1 ==> r[k].endPosition == r[k + 1].startPosition) &&
      (r != [] ==> r[|r| - 1].endPosition == |text|)
  {
    var r := HeadingChunks(text, bs);
    forall k | 0 <= k < |r| - 1 ensures r[k].endPosition == r[k + 1].startPosition {
      assert r[k] == ChapterChunk(text, bs, k) && r[k + 1] == ChapterChunk(text, bs, k + 1);
    }
    if r != [] {
      assert r[|r| - 1] == ChapterChunk(text, bs, |r| - 1);
    }
  }

  /** Chunk `k` of a fixed-size split that starts at `start` and numbers
      from `num`: a window chunk at or after `start`, numbered `num + k`
      and titled "第<num + k>部分". */
  predicate SizeChunkAt(text: string, r: seq<TextChunk>, k: int, start: nat, num: nat, maxSize: int)
    requires 0 <= k < |r|
  {
    start <= r[k].startPosition && WindowChunk(text, r[k], maxSize) &&
    r[k].chapterNumber == num + k && r[k].chapterTitle == Some(PartTitle(num + k))
  }

  /** Every chunk of `r` is chunk `k` of a split from `start` numbered from
      `num`, and the chunks start strictly later one after the other. */
  predicate SizeShape(text: string, r: seq<TextChunk>, start: nat, num: nat, maxSize: int) {
    (forall k :: 0 <= k < |r| ==> SizeChunkAt(text, r, k, start, num, maxSize)) &&
    (forall k :: 0 <= k < |r| - 1 ==> r[k].startPosition < r[k + 1].startPosition)
  }

  /** Every fixed-size chunk is a non-blank stripped window of at most
      `maxSize` characters starting at or after `start`; the chunks are
      numbered consecutively from `num`, titled "第<n>部分", and start
      strictly later one after the other. */
  lemma {:induction false} SizeChunksShape(text: string, start: nat, num: nat, maxSize: int, overlap: int)
    requires maxSize >= 1
    ensures SizeShape(text, SizeChunks(text, start, num, maxSize, overlap), start, num, maxSize)
    decreases |text| - start
  {
    var r := SizeChunks(text, start, num, maxSize, overlap);
    if start < |text| {
      var end := WindowEnd(text, start, maxSize);
      var content := Strip(text[start..end]);
      var next := NextStart(text, start, end, overlap);
      if content != [] {
        SizeChunksShape(text, next, num + 1, maxSize, overlap);
        var rest := SizeChunks(text, next, num + 1, maxSize, overlap);
        assert SizeShape(text, rest, next, num + 1, maxSize);
        var c := TextChunk(num, Some(PartTitle(num)), content, start, end, |content|);
        assert r == [c] + rest;
        forall k | 0 <= k < |r| ensures SizeChunkAt(text, r, k, start, num, maxSize) {
          if k > 0 {
            assert r[k] == rest[k - 1];
            assert SizeChunkAt(text, rest, k - 1, next, num + 1, maxSize);
          }
        }
        forall k | 0 <= k < |r| - 1 ensures r[k].startPosition < r[k + 1].startPosition {
          assert r[k + 1] == rest[k];
          if k > 0 {
            assert r[k] == rest[k - 1];
          } else {
            assert r[0] == c;
            assert SizeChunkAt(text, rest, k, next, num + 1, maxSize);
          }
        }
      } else {
        SizeChunksShape(text, next, num, maxSize, overlap);
        var rest := SizeChunks(text, next, num, maxSize, overlap);
        assert SizeShape(text, rest, next, num, maxSize);
        assert r == rest;
        forall k | 0 <= k < |r| ensures SizeChunkAt(text, r, k, start, num, maxSize) {
          assert SizeChunkAt(text, rest, k, next, num, maxSize);
        }
      }
    }
  }

  /** Position `j` lies inside the window of some chunk of `r`. */
  predicate Covered(r: seq<TextChunk>, j: int) {
    exists k :: 0 <= k < |r| && r[k].startPosition <= j < r[k].endPosition
  }

  /** Nothing but whitespace is lost: with a non-negative overlap, every
      non-whitespace character from `start` on lies inside some chunk's
      window. */
  lemma {:induction false} SizeChunksCover(text: string, start: nat, num: nat, maxSize: int, overlap: int, j: nat)
    requires maxSize >= 1 && overlap >= 0
    requires start <= j < |text| && !IsSpace(text[j])
    ensures Covered(SizeChunks(text, start, num, maxSize, overlap), j)
    decreases |text| - start
  {
    var end := WindowEnd(text, start, maxSize);
    var content := Strip(text[start..end]);
    var next := NextStart(text, start, end, overlap);
    var r := SizeChunks(text, start, num, maxSize, overlap);
    if j < end {
      StripFacts(text[start..end]);
      assert text[start..end][j - start] == text[j];
      assert content != [];
      var c := TextChunk(num, Some(PartTitle(num)), content, start, end, |content|);
      assert r == [c] + SizeChunks(text, next, num + 1, maxSize, overlap);
      assert r[0] == c;
    } else if content != [] {
      SizeChunksCover(text, next, num + 1, maxSize, overlap, j);
      var rest := SizeChunks(text, next, num + 1, maxSize, overlap);
      var c := TextChunk(num, Some(PartTitle(num)), content, start, end, |content|);
      assert r == [c] + rest;
      var k :| 0 <= k < |rest| && rest[k].startPosition <= j < rest[k].endPosition;
      assert r[k + 1] == rest[k];
      assert r[k + 1].startPosition <= j < r[k + 1].endPosition;
    } else {
      SizeChunksCover(text, next, num, maxSize, overlap, j);
    }
  }

  /** The current chunk is always in its context window, and so is the one
      before it when at least one previous chunk is asked for. */
  lemma ContextWindowHolds(chunks: seq<TextChunk>, i: int, p: int)
    requires 0 <= i < |chunks| && p >= 0
    ensures Contains(ContextWindow(chunks, i, p), chunks[i].content)
    ensures p >= 1 && i >= 1 ==> Contains(ContextWindow(chunks, i, p), chunks[i - 1].content)
  {
    var lo := if i - p > 0 then i - p else 0;
    var parts := Contents(chunks, lo, i + 1);
    assert ContextWindow(chunks, i, p) == Join("\n\n", parts);
    assert parts[i - lo] == chunks[i].content;
    JoinContains("\n\n", parts, i - lo);
    if p >= 1 && i >= 1 {
      assert parts[i - 1 - lo] == chunks[i - 1].content;
      JoinContains("\n\n", parts, i - 1 - lo);
    }
  }

  /** Stripping never brings in a character that was not there. */
  lemma StripKeepsOut(s: string, c: char)
    requires forall j :: 0 <= j < |s| ==> s[j] != c
    ensures forall j :: 0 <= j < |Strip(s)| ==> Strip(s)[j] != c
  {
    StripFacts(s);
    var a := StripStart(s);
    forall j | 0 <= j < |Strip(s)| ensures Strip(s)[j] != c {
      assert Strip(s)[j] == s[a + j];
    }
  }

  /** A chapter title is a single line that can serve as a title. */
  lemma ChapterTitleIsOneLine(content: string, startPos: int)
    ensures var t := ChapterTitle(content, startPos);
      t.Some? ==> TitleLine(t.value) && forall j :: 0 <= j < |t.value| ==> t.value[j] != '\n'
  {
    var lines := TitleLines(content, startPos);
    var k := TitleIndex(lines, 0);
    if k >= 0 {
      SplitOnPieces(Slice(content, startPos, startPos + 200), '\n');
      assert forall j :: 0 <= j < |lines[k]| ==> lines[k][j] != '\n';
      StripKeepsOut(lines[k], '\n');
    }
  }

  /** A title is found exactly when some line of the window can serve, and
      then it is the first such line. */
  lemma ChapterTitleFirst(content: string, startPos: int)
    ensures var lines := TitleLines(content, startPos);
      ChapterTitle(content, startPos).None? <==> forall j :: 0 <= j < |lines| ==> !TitleLine(Strip(lines[j]))
    ensures var lines := TitleLines(content, startPos);
      ChapterTitle(content, startPos).Some? ==>
        exists k :: 0 <= k < |lines| && ChapterTitle(content, startPos).value == Strip(lines[k]) &&
          forall j :: 0 <= j < k ==> !TitleLine(Strip(lines[j]))
  {
    var lines := TitleLines(content, startPos);
    var k := TitleIndex(lines, 0);
    if k >= 0 {
      assert ChapterTitle(content, startPos).value == Strip(lines[k]);
    }
  }

  /** The separator "。\n\n" never decides a cut: where it occurs, "。\n"
      occurs at the same place, and that one is tried first. */
  lemma DoubleNewlineNeverCuts(text: string, start: nat, end: nat, maxSize: int)
    requires start < end <= |text| && maxSize >= 1
    ensures SeparatorCut(text, start, end, maxSize, Separators) ==
            SeparatorCut(text, start, end, maxSize, ["。\n", "！\n", "？\n", "!\n", "?\n"])
  {
    var w := text[start..end];
    var a, b := RFind(w, "。\n"), RFind(w, "。\n\n");
    var tail := ["!\n", "?\n"];
    assert Separators == ["。\n"] + (["！\n"] + (["？\n"] + (["。\n\n"] + tail)));
    assert ["。\n", "！\n", "？\n", "!\n", "?\n"] == ["。\n"] + (["！\n"] + (["？\n"] + tail));
    if a > maxSize / 2 {
      SameCut(text, start, end, maxSize, "。\n", ["！\n"] + (["？\n"] + (["。\n\n"] + tail)), ["！\n"] + (["？\n"] + tail));
    } else {
      if b >= 0 {
        assert w[b..b + 3] == "。\n\n";
        assert w[b] == w[b..b + 3][0] && w[b + 1] == w[b..b + 3][1];
        assert w[b..b + 2] == "。\n";
        assert OccursAt(w, "。\n", b);
      }
      SkipCut(text, start, end, maxSize, "。\n\n", tail);
      SameCut(text, start, end, maxSize, "？\n", ["。\n\n"] + tail, tail);
      SameCut(text, start, end, maxSize, "！\n", ["？\n"] + (["。\n\n"] + tail), ["？\n"] + tail);
      SameCut(text, start, end, maxSize, "。\n", ["！\n"] + (["？\n"] + (["。\n\n"] + tail)), ["！\n"] + (["？\n"] + tail));
    }
  }

  /** A separator in front of two lists that cut the same way, or a leading
      separator that decides the cut, leaves the cut the same. */
  lemma SameCut(text: string, start: nat, end: nat, maxSize: int, x: string, r1: seq<string>, r2: seq<string>)
    requires start < end <= |text| && maxSize >= 1
    requires RFind(text[start..end], x) > maxSize / 2 ||
             SeparatorCut(text, start, end, maxSize, r1) == SeparatorCut(text, start, end, maxSize, r2)
    ensures SeparatorCut(text, start, end, maxSize, [x] + r1) == SeparatorCut(text, start, end, maxSize, [x] + r2)
  {
    assert ([x] + r1)[0] == x && ([x] + r1)[1..] == r1;
    assert ([x] + r2)[0] == x && ([x] + r2)[1..] == r2;
  }

  /** A separator that does not occur beyond half the window is skipped. */
  lemma SkipCut(text: string, start: nat, end: nat, maxSize: int, x: string, r: seq<string>)
    requires start < end <= |text| && maxSize >= 1
    requires RFind(text[start..end], x) <= maxSize / 2
    ensures SeparatorCut(text, start, end, maxSize, [x] + r) == SeparatorCut(text, start, end, maxSize, r)
  {
    assert ([x] + r)[0] == x && ([x] + r)[1..] == r;
  }

  /** The corrected step agrees with the step as written whenever the step
      as written moves forward. */
  lemma NextStartAgrees(text: string, start: nat, end: nat, overlap: int)
    requires start < end
    requires AsWrittenNextStart(text, start, end, overlap) > start
    ensures NextStart(text, start, end, overlap) == AsWrittenNextStart(text, start, end, overlap)
  {
  }

  /** A cut made at a separator lies more than half a window plus the
      separator's length from the start. */
  lemma {:induction false} CutBeyondHalf(text: string, start: nat, end: nat, maxSize: int, seps: seq<string>)
    requires start < end <= |text| && maxSize >= 1 && end - start == maxSize
    requires forall k :: 0 <= k < |seps| ==> |seps[k]| >= 2
    ensures var e := SeparatorCut(text, start, end, maxSize, seps); e == end || e - start >= maxSize / 2 + 3
    decreases |seps|
  {
    if seps != [] {
      CutBeyondHalf(text, start, end, maxSize, seps[1..]);
    }
  }

  /** An overlap below the window size and at most half of it plus two
      always lets the step as written move forward (the defaults, 8000 and
      500, among them). */
  lemma AsWrittenAdvances(text: string, start: nat, maxSize: int, overlap: int)
    requires start < |text| && maxSize >= 1
    requires overlap < maxSize && overlap <= maxSize / 2 + 2
    ensures AsWrittenNextStart(text, start, WindowEnd(text, start, maxSize), overlap) > start
  {
    var end := if start + maxSize < |text| then start + maxSize else |text|;
    if end < |text| {
      CutBeyondHalf(text, start, end, maxSize, Separators);
    }
  }

  /** 498 letters, "。\n", 500 letters. */
  function StallText(): (s: string)
    ensures |s| == 1000
  {
    seq(1000, i => if i == 498 then '。' else if i == 499 then '\n' else 'a')
  }

  /** With a window of 900 and an overlap of 500, the step as written stays
      where it is: the first window's only sentence end "。\n" sits at
      offset 498, so it is cut at 500, and 500 - 500 is the start again;
      the split never finishes. The corrected step moves on to 500. */
  lemma AsWrittenStalls()
    ensures WindowEnd(StallText(), 0, 900) == 500
    ensures AsWrittenNextStart(StallText(), 0, 500, 500) == 0
    ensures NextStart(StallText(), 0, 500, 500) == 500
  {
    var text := StallText();
    var w := text[0..900];
    assert w[498] == '。' && w[499] == '\n';
    assert w[498..500] == "。\n";
    assert OccursAt(w, "。\n", 498);
    RFindAtLeast(w, "。\n", 498);
    var a := RFind(w, "。\n");
    assert w[a..a + 2] == "。\n";
    assert w[a] == w[a..a + 2][0] == '。';
    assert a == 498;
    assert Separators[0] == "。\n";
    assert SeparatorCut(text, 0, 900, 900, Separators) == 500;
  }
}
