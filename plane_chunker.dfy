/**
 * `DocumentChunker` of the Plane indexer: `chunk_text` cuts a page's text into overlapping
 * windows of at most `chunk_size` characters, preferring to end a window just after its last
 * ". " or newline when that lies past the window's middle, and `chunk_pages` numbers the
 * chunks of every page. Strings are sequences of code points, as Python's `str` is.
 */
module PlaneChunker {
  import JsText
  import opened PlaneScraper
  import opened SeqFacts

  // ---------------------------------------------------------------- Python string operations

  /** `str.isspace` for one character. */
  predicate IsPySpace(c: char) {
    ('\t' <= c <= '\r') || ('\U{1c}' <= c <= '\U{1f}') || c == ' ' || c == '\U{85}' || c == '\U{a0}'
    || c == '\U{1680}' || ('\U{2000}' <= c <= '\U{200a}') || c == '\U{2028}' || c == '\U{2029}'
    || c == '\U{202f}' || c == '\U{205f}' || c == '\U{3000}'
  }

  function StripStart(s: string): (r: string)
    ensures |r| <= |s| && r == s[|s| - |r|..]
    ensures r == [] || !IsPySpace(r[0])
  {
    if s != [] && IsPySpace(s[0]) then StripStart(s[1..]) else s
  }

  function StripEnd(s: string): (r: string)
    ensures |r| <= |s| && r == s[..|r|]
    ensures r == [] || !IsPySpace(r[|r| - 1])
  {
    if s != [] && IsPySpace(s[|s| - 1]) then StripEnd(s[..|s| - 1]) else s
  }

  /** `s.strip()`: a piece of `s` with no white space at either end. */
  function Strip(s: string): (r: string)
    ensures |r| <= |s|
    ensures r == [] || (!IsPySpace(r[0]) && !IsPySpace(r[|r| - 1]))
  {
    StripEnd(StripStart(s))
  }

  function Min(a: int, b: int): int { if a <= b then a else b }
  function Max(a: int, b: int): int { if a >= b then a else b }

  /** `text[s:e]` for non-negative bounds: out-of-range ends are clipped, a reversed range is empty. */
  function PySlice(text: string, s: nat, e: nat): (r: string)
    ensures s < e && s < |text| ==> r == text[s..Min(e, |text|)]
    ensures |r| <= e - s || (e <= s && r == [])
  {
    if s >= e || s >= |text| then [] else text[s..Min(e, |text|)]
  }

  predicate PeriodSpaceAt(c: string, i: nat) {
    i + 1 < |c| && c[i] == '.' && c[i + 1] == ' '
  }

  /** The last ". " starting before `n`, or -1; `chunk.rfind(". ")` is this for `n == len(chunk)`. */
  function LastPeriodSpace(c: string, n: nat): (r: int)
    requires n <= |c|
    ensures -1 <= r < n
  {
    if n == 0 then -1 else if PeriodSpaceAt(c, n - 1) then n - 1 else LastPeriodSpace(c, n - 1)
  }

  lemma {:induction false} LastPeriodSpaceIsLast(c: string, n: nat)
    requires n <= |c|
    ensures var r := LastPeriodSpace(c, n);
      (r >= 0 ==> PeriodSpaceAt(c, r)) && forall i :: r < i < n ==> !PeriodSpaceAt(c, i)
  {
    if n > 0 && !PeriodSpaceAt(c, n - 1) {
      LastPeriodSpaceIsLast(c, n - 1);
    }
  }

  /** The last newline before `n`, or -1. */
  function LastNewline(c: string, n: nat): (r: int)
    requires n <= |c|
    ensures -1 <= r < n
  {
    if n == 0 then -1 else if c[n - 1] == '\n' then n - 1 else LastNewline(c, n - 1)
  }

  lemma {:induction false} LastNewlineIsLast(c: string, n: nat)
    requires n <= |c|
    ensures var r := LastNewline(c, n);
      (r >= 0 ==> c[r] == '\n') && forall i :: r < i < n ==> c[i] != '\n'
  {
    if n > 0 && c[n - 1] != '\n' {
      LastNewlineIsLast(c, n - 1);
    }
  }

  /** A place a window may end after: a ". " starts there, or a newline is there. */
  predicate BoundaryAt(c: string, i: nat) {
    PeriodSpaceAt(c, i) || (i < |c| && c[i] == '\n')
  }

  /** `max(chunk.rfind(". "), chunk.rfind("\n"))`. */
  function BreakPoint(chunk: string): int {
    Max(LastPeriodSpace(chunk, |chunk|), LastNewline(chunk, |chunk|))
  }

  /** The break point is the last boundary of the chunk, or -1 when it has none. */
  lemma BreakPointIsLastBoundary(chunk: string)
    ensures var bp := BreakPoint(chunk);
      -1 <= bp < |chunk|
      && (bp >= 0 ==> BoundaryAt(chunk, bp))
      && forall i :: bp < i < |chunk| ==> !BoundaryAt(chunk, i)
  {
    LastPeriodSpaceIsLast(chunk, |chunk|);
    LastNewlineIsLast(chunk, |chunk|);
  }

  // ---------------------------------------------------------------- windows

  /**
   * The loop always moves forward: a window ends at least `chunk_size // 2 + 2` characters
   * after its start (a full window, or a cut past the middle), and the next one starts
   * `overlap` characters before that end.
   */
  predicate Progresses(chunkSize: nat, overlap: nat) {
    overlap < chunkSize && overlap <= chunkSize / 2 + 1
  }

  /** `end` after the break test: `start + chunk_size`, or just after a boundary past the middle. */
  function WindowEnd(chunkSize: nat, text: string, start: nat): (e: nat)
    ensures e <= start + chunkSize && (e == start + chunkSize || e >= start + chunkSize / 2 + 2)
  {
    var end := start + chunkSize;
    if end < |text| then
      var bp := BreakPoint(PySlice(text, start, end));
      if bp > chunkSize / 2 then start + bp + 1 else end
    else end
  }

  /** One pass of the loop: the window's start and its `end` (which may lie past the text). */
  datatype Window = Window(start: nat, end: nat)

  /** The `end` the loop computes for each `start`. */
  function EndsOf(chunkSize: nat, text: string): nat -> nat {
    s => WindowEnd(chunkSize, text, s)
  }

  /** Each `end`, less `overlap`, lies past its start: the next start is later. */
  ghost predicate Advances(ends: nat -> nat, overlap: nat) {
    forall s: nat :: ends(s) - overlap > s
  }

  lemma EndsAdvance(chunkSize: nat, overlap: nat, text: string)
    requires Progresses(chunkSize, overlap)
    ensures Advances(EndsOf(chunkSize, text), overlap)
    ensures forall s: nat :: EndsOf(chunkSize, text)(s) <= s + chunkSize
  {
    forall s: nat ensures EndsOf(chunkSize, text)(s) - overlap > s && EndsOf(chunkSize, text)(s) <= s + chunkSize {
      var e := WindowEnd(chunkSize, text, s);
      assert EndsOf(chunkSize, text)(s) == e;
    }
  }

  /**
   * The windows of a loop over `n` characters from `start` on, whatever the ends are. The
   * loop stops early where the next start would not be later; with `Advances` that never
   * happens, so the windows run to the end of the text.
   */
  function WindowsFrom(ends: nat -> nat, overlap: nat, n: nat, start: nat): seq<Window>
    decreases n - start
  {
    if start >= n || ends(start) - overlap <= start then []
    else [Window(start, ends(start))] + WindowsFrom(ends, overlap, n, ends(start) - overlap)
  }

  /** Before the end, one window and then the windows from the next start. */
  lemma WindowsFromStep(ends: nat -> nat, overlap: nat, n: nat, start: nat, end: nat, next: nat)
    requires start < n && end == ends(start) && next == end - overlap && next > start
    ensures WindowsFrom(ends, overlap, n, start) == [Window(start, end)] + WindowsFrom(ends, overlap, n, next)
  {
  }

  /** The windows of the loop from `start` on. */
  function Windows(chunkSize: nat, overlap: nat, text: string, start: nat): seq<Window>
    requires Progresses(chunkSize, overlap)
  {
    WindowsFrom(EndsOf(chunkSize, text), overlap, |text|, start)
  }

  /** `f` applied to each element of `xs`, in order. */
  function MapSeq<A, B>(f: A -> B, xs: seq<A>): (r: seq<B>)
    ensures |r| == |xs| && forall k :: 0 <= k < |xs| ==> r[k] == f(xs[k])
  {
    seq(|xs|, k requires 0 <= k < |xs| => f(xs[k]))
  }

  lemma MapSeqSnoc<A, B>(f: A -> B, xs: seq<A>, x: A)
    ensures MapSeq(f, xs + [x]) == MapSeq(f, xs) + [f(x)]
  {
    var a, b := MapSeq(f, xs + [x]), MapSeq(f, xs) + [f(x)];
    assert forall k :: 0 <= k < |xs| ==> (xs + [x])[k] == xs[k];
    assert |a| == |b|;
    assert forall k :: 0 <= k < |a| ==> a[k] == b[k];
  }

  /** The stripped text of one window. */
  function Piece(text: string, w: Window): string {
    Strip(PySlice(text, w.start, w.end))
  }

  function PieceOf(text: string): Window -> string {
    w => Piece(text, w)
  }

  /** The stripped text of every window. */
  function Pieces(text: string, ws: seq<Window>): seq<string> {
    MapSeq(PieceOf(text), ws)
  }

  /** `chunk_text`. */
  function Chunks(chunkSize: nat, overlap: nat, text: string): seq<string>
    requires Progresses(chunkSize, overlap)
  {
    if |text| <= chunkSize then [text] else Pieces(text, Windows(chunkSize, overlap, text, 0))
  }

  lemma {:induction false} WindowsFromShape(ends: nat -> nat, overlap: nat, n: nat, start: nat)
    requires Advances(ends, overlap)
    ensures var ws := WindowsFrom(ends, overlap, n, start);
      (|ws| >= 1 <==> start < n) && (|ws| >= 1 ==> ws[0].start == start && ws[|ws| - 1].end - overlap >= n)
      && forall k :: 0 <= k < |ws| ==> start <= ws[k].start < n && ws[k].start < ws[k].end && ws[k].end == ends(ws[k].start)
    decreases n - start
  {
    if start < n {
      var e := ends(start);
      var ws := WindowsFrom(ends, overlap, n, start);
      var rest := WindowsFrom(ends, overlap, n, e - overlap);
      WindowsFromShape(ends, overlap, n, e - overlap);
      assert ws == [Window(start, e)] + rest;
      assert forall k :: 1 <= k < |ws| ==> ws[k] == rest[k - 1];
    }
  }

  /**
   * The windows from `start` start there; each is non-empty, starts inside the text and
   * spans at most `chunk_size` characters. The last window's successor would start past the
   * text.
   */
  lemma WindowsShape(chunkSize: nat, overlap: nat, text: string, start: nat)
    requires Progresses(chunkSize, overlap)
    ensures var ws := Windows(chunkSize, overlap, text, start);
      (|ws| >= 1 <==> start < |text|) && (|ws| >= 1 ==> ws[0].start == start && ws[|ws| - 1].end - overlap >= |text|)
      && forall k :: 0 <= k < |ws| ==>
        start <= ws[k].start < |text| && ws[k].start < ws[k].end <= ws[k].start + chunkSize
        && ws[k].end == WindowEnd(chunkSize, text, ws[k].start)
  {
    EndsAdvance(chunkSize, overlap, text);
    WindowsFromShape(EndsOf(chunkSize, text), overlap, |text|, start);
  }

  lemma {:induction false} WindowsFromNext(ends: nat -> nat, overlap: nat, n: nat, start: nat, k: nat)
    requires Advances(ends, overlap)
    requires k + 1 < |WindowsFrom(ends, overlap, n, start)|
    ensures var ws := WindowsFrom(ends, overlap, n, start);
      ws[k + 1].start == ws[k].end - overlap > ws[k].start
    decreases k
  {
    var e := ends(start);
    var ws := WindowsFrom(ends, overlap, n, start);
    var rest := WindowsFrom(ends, overlap, n, e - overlap);
    assert ws == [Window(start, e)] + rest;
    assert ws[k + 1] == rest[k];
    if k == 0 {
      WindowsFromShape(ends, overlap, n, e - overlap);
    } else {
      assert ws[k] == rest[k - 1];
      WindowsFromNext(ends, overlap, n, e - overlap, k - 1);
    }
  }

  /** Each window after the first starts `overlap` characters before the end of the one before it, later than that one. */
  lemma WindowsNext(chunkSize: nat, overlap: nat, text: string, start: nat, k: nat)
    requires Progresses(chunkSize, overlap)
    requires k + 1 < |Windows(chunkSize, overlap, text, start)|
    ensures var ws := Windows(chunkSize, overlap, text, start);
      ws[k + 1].start == ws[k].end - overlap > ws[k].start
  {
    EndsAdvance(chunkSize, overlap, text);
    WindowsFromNext(EndsOf(chunkSize, text), overlap, |text|, start, k);
  }

  /** The windows leave no character out: every position from `start` on lies in one of them. */
  predicate Covered(ws: seq<Window>, p: nat) {
    exists k :: 0 <= k < |ws| && ws[k].start <= p < ws[k].end
  }

  lemma {:induction false} WindowsFromCover(ends: nat -> nat, overlap: nat, n: nat, start: nat, p: nat)
    requires Advances(ends, overlap) && start <= p < n
    ensures Covered(WindowsFrom(ends, overlap, n, start), p)
    decreases n - start
  {
    var e := ends(start);
    var ws := WindowsFrom(ends, overlap, n, start);
    var rest := WindowsFrom(ends, overlap, n, e - overlap);
    assert ws == [Window(start, e)] + rest;
    if p < e {
      assert ws[0] == Window(start, e);
      assert Covered(ws, p);
    } else {
      WindowsFromCover(ends, overlap, n, e - overlap, p);
      var k :| 0 <= k < |rest| && rest[k].start <= p < rest[k].end;
      assert ws[k + 1] == rest[k];
    }
  }

  lemma WindowsCover(chunkSize: nat, overlap: nat, text: string, start: nat, p: nat)
    requires Progresses(chunkSize, overlap) && start <= p < |text|
    ensures Covered(Windows(chunkSize, overlap, text, start), p)
  {
    EndsAdvance(chunkSize, overlap, text);
    WindowsFromCover(EndsOf(chunkSize, text), overlap, |text|, start, p);
  }

  /**
   * A window is cut short only when the text goes on past it, just after the last boundary
   * of its full `chunk_size` span, and only when that boundary lies past the middle of it.
   * A full window either reaches the end of the text, or has no boundary past the middle, or
   * ends with a newline.
   */
  lemma WindowEndCut(chunkSize: nat, text: string, start: nat)
    ensures var e := WindowEnd(chunkSize, text, start);
      var span := PySlice(text, start, start + chunkSize);
      (e < start + chunkSize ==>
        start + chunkSize < |text| && |span| == chunkSize && e - start - 1 > chunkSize / 2
        && BoundaryAt(span, e - start - 1) && forall i :: e - start - 1 < i < chunkSize ==> !BoundaryAt(span, i))
      && (e == start + chunkSize && start + chunkSize < |text| ==>
        (forall i :: chunkSize / 2 < i < chunkSize ==> !BoundaryAt(span, i)) || span[chunkSize - 1] == '\n')
  {
    BreakPointIsLastBoundary(PySlice(text, start, start + chunkSize));
  }

  /**
   * The window after one that reaches the end of the text lies inside it: its text is a
   * proper suffix of its predecessor's, so the last chunk can repeat the end of the one
   * before it.
   */
  lemma WindowAfterEndInside(chunkSize: nat, overlap: nat, text: string, k: nat)
    requires Progresses(chunkSize, overlap)
    requires var ws := Windows(chunkSize, overlap, text, 0); k + 1 < |ws| && ws[k].end >= |text|
    ensures var ws := Windows(chunkSize, overlap, text, 0);
      var a, b := PySlice(text, ws[k].start, ws[k].end), PySlice(text, ws[k + 1].start, ws[k + 1].end);
      |b| < |a| && b == a[|a| - |b|..]
  {
    WindowsShape(chunkSize, overlap, text, 0);
    WindowsNext(chunkSize, overlap, text, 0, k);
    var ws := Windows(chunkSize, overlap, text, 0);
    assert ws[k + 1].end == ws[k + 1].start + chunkSize;
  }

  // ---------------------------------------------------------------- chunks

  /**
   * Text no longer than `chunk_size` is one chunk, as it is. Longer text gives at least one
   * chunk, each the stripped text of a window of at most `chunk_size` characters, the first
   * window starting at 0.
   */
  lemma ChunksShape(chunkSize: nat, overlap: nat, text: string)
    requires Progresses(chunkSize, overlap)
    ensures |text| <= chunkSize ==> Chunks(chunkSize, overlap, text) == [text]
    ensures |text| > chunkSize ==>
      var ws := Windows(chunkSize, overlap, text, 0);
      var cs := Chunks(chunkSize, overlap, text);
      |cs| == |ws| >= 1 && ws[0].start == 0
      && forall k :: 0 <= k < |cs| ==> StrippedWindow(chunkSize, text, ws[k], cs[k])
  {
    if |text| > chunkSize {
      WindowsShape(chunkSize, overlap, text, 0);
      var ws := Windows(chunkSize, overlap, text, 0);
      var cs := Chunks(chunkSize, overlap, text);
      assert cs == Pieces(text, ws);
      forall k | 0 <= k < |cs|
        ensures StrippedWindow(chunkSize, text, ws[k], cs[k])
      {
        assert cs[k] == PieceOf(text)(ws[k]) == Piece(text, ws[k]);
        PieceShape(chunkSize, text, ws[k]);
      }
    }
  }

  /**
   * `c` is the text of window `w` with its white space stripped off both ends; the window
   * holds between 1 and `chunk_size` characters of the text.
   */
  predicate StrippedWindow(chunkSize: nat, text: string, w: Window, c: string) {
    var slice := PySlice(text, w.start, w.end);
    c == Strip(slice) && 1 <= |slice| <= chunkSize && |c| <= chunkSize
    && (c == [] || (!IsPySpace(c[0]) && !IsPySpace(c[|c| - 1])))
  }

  /** The piece of a window inside the text is its stripped slice. */
  lemma PieceShape(chunkSize: nat, text: string, w: Window)
    requires w.start < |text| && w.start < w.end <= w.start + chunkSize
    ensures StrippedWindow(chunkSize, text, w, Piece(text, w))
  {
    var slice := PySlice(text, w.start, w.end);
    assert |slice| == Min(w.end, |text|) - w.start;
    var c := Strip(slice);
    assert |c| <= |slice|;
  }

  /** Every text, the empty one included, gives at least one chunk. */
  lemma ChunksNotEmpty(chunkSize: nat, overlap: nat, text: string)
    requires Progresses(chunkSize, overlap)
    ensures |Chunks(chunkSize, overlap, text)| >= 1
  {
    ChunksShape(chunkSize, overlap, text);
  }

  /** The defaults, 1000 and 200, make the loop progress. */
  lemma DefaultsProgress()
    ensures Progresses(1000, 200)
  {
  }

  /** What a record's id is hashed from: the page's url and the chunk's index. */
  datatype ChunkId = ChunkId(url: string, index: nat)

  /** The string `"<url>::<i>"` whose md5 is the record's id. */
  function IdText(id: ChunkId): (t: string)
    ensures |t| > |id.url| + 2 && t[..|id.url|] == id.url && t[|id.url|..|id.url| + 2] == "::"
  {
    id.url + "::" + JsText.NatToString(id.index)
  }

  /** One record of `chunk_pages`; `id` is what its md5 id is computed from. */
  datatype Chunk = Chunk(id: ChunkId, url: string, title: string, chunkIndex: nat,
                         totalChunks: nat, text: string, scrapedAt: string)

  /** The records of one page: chunk `i` of `n` for each of its chunks. */
  function PageChunks(chunkSize: nat, overlap: nat, page: Page): (r: seq<Chunk>)
    requires Progresses(chunkSize, overlap)
  {
    RecordsOf(page, Chunks(chunkSize, overlap, page.text))
  }

  /** The records of a page cut into `texts`. */
  function RecordsOf(page: Page, texts: seq<string>): (r: seq<Chunk>)
    ensures |r| == |texts|
  {
    seq(|texts|, i requires 0 <= i < |texts| => Record(page, i, |texts|, texts[i]))
  }

  /** Record `i` of `n` of a page, its id hashed from `"<url>::<i>"`. */
  function Record(page: Page, i: nat, n: nat, text: string): Chunk {
    Chunk(ChunkId(page.url, i), page.url, page.title, i, n, text, page.scrapedAt)
  }

  /** `chunk_pages`: the records of every page, page after page. */
  function AllChunks(chunkSize: nat, overlap: nat, pages: seq<Page>): seq<Chunk>
    requires Progresses(chunkSize, overlap)
  {
    if pages == [] then [] else AllChunks(chunkSize, overlap, pages[..|pages| - 1]) + PageChunks(chunkSize, overlap, pages[|pages| - 1])
  }

  /**
   * A page's records carry its url, title and timestamp, are numbered 0 to n-1 with
   * total n, hold the page's chunks in order, and there is at least one.
   */
  lemma PageChunksShape(chunkSize: nat, overlap: nat, page: Page)
    requires Progresses(chunkSize, overlap)
    ensures var r := PageChunks(chunkSize, overlap, page);
      var texts := Chunks(chunkSize, overlap, page.text);
      |r| == |texts| >= 1
      && forall i :: 0 <= i < |r| ==>
        r[i].url == page.url && r[i].title == page.title && r[i].scrapedAt == page.scrapedAt
        && r[i].chunkIndex == i && r[i].totalChunks == |r| && r[i].text == texts[i]
  {
    ChunksNotEmpty(chunkSize, overlap, page.text);
  }

  /** Appending one page appends its records. */
  lemma AllChunksSnoc(chunkSize: nat, overlap: nat, pages: seq<Page>, page: Page)
    requires Progresses(chunkSize, overlap)
    ensures AllChunks(chunkSize, overlap, pages + [page]) == AllChunks(chunkSize, overlap, pages) + PageChunks(chunkSize, overlap, page)
  {
    assert (pages + [page])[..|pages|] == pages;
  }

  /** The records of two runs of pages are those of the first run, then those of the second. */
  lemma {:induction false} AllChunksAppend(chunkSize: nat, overlap: nat, a: seq<Page>, b: seq<Page>)
    requires Progresses(chunkSize, overlap)
    ensures AllChunks(chunkSize, overlap, a + b) == AllChunks(chunkSize, overlap, a) + AllChunks(chunkSize, overlap, b)
    decreases |b|
  {
    if b == [] {
      assert a + b == a;
    } else {
      var b', last := b[..|b| - 1], b[|b| - 1];
      assert b == b' + [last];
      assert a + b == (a + b') + [last];
      AllChunksSnoc(chunkSize, overlap, a + b', last);
      AllChunksSnoc(chunkSize, overlap, b', last);
      AllChunksAppend(chunkSize, overlap, a, b');
      Associative(AllChunks(chunkSize, overlap, a), AllChunks(chunkSize, overlap, b'), PageChunks(chunkSize, overlap, last));
    }
  }

  /** Every page contributes at least one record. */
  lemma {:induction false} AllChunksAtLeastPages(chunkSize: nat, overlap: nat, pages: seq<Page>)
    requires Progresses(chunkSize, overlap)
    ensures |AllChunks(chunkSize, overlap, pages)| >= |pages|
    decreases |pages|
  {
    if pages != [] {
      AllChunksAtLeastPages(chunkSize, overlap, pages[..|pages| - 1]);
      PageChunksShape(chunkSize, overlap, pages[|pages| - 1]);
    }
  }

  class DocumentChunker {
    const chunkSize: nat
    const overlap: nat

    constructor(chunkSize: nat, overlap: nat)
      ensures this.chunkSize == chunkSize && this.overlap == overlap
    {
      this.chunkSize := chunkSize;
      this.overlap := overlap;
    }

    /** `chunk_text`: short text as it is, longer text through the loop over the windows. */
    method ChunkText(text: string) returns (chunks: seq<string>)
      requires Progresses(chunkSize, overlap)
      ensures chunks == Chunks(chunkSize, overlap, text)
    {
      if |text| <= chunkSize {
        return [text];
      }
      chunks := ChunkWindows(text);
    }

    /** The `while start < len(text)` loop of `chunk_text`. */
    method ChunkWindows(text: string) returns (chunks: seq<string>)
      requires Progresses(chunkSize, overlap)
      ensures chunks == Pieces(text, Windows(chunkSize, overlap, text, 0))
    {
      ghost var ends := EndsOf(chunkSize, text);
      ghost var piece := PieceOf(text);
      EndsAdvance(chunkSize, overlap, text);
      chunks := [];
      var start: nat := 0;
      ghost var done: seq<Window> := [];
      while start < |text|
        invariant WindowsFrom(ends, overlap, |text|, 0) == done + WindowsFrom(ends, overlap, |text|, start)
        invariant chunks == MapSeq(piece, done)
        decreases |text| - start
      {
        start, chunks, done := Step(text, start, chunks, done, ends, piece);
      }
      AppendNil(done);
    }

    /**
     * One pass of the loop: the next window's stripped text appended, `start` moved to
     * `end - overlap`. `ends` and `piece` stand for the loop's `end` and stripped text.
     */
    method Step(text: string, start: nat, chunks: seq<string>, ghost done: seq<Window>,
                ghost ends: nat -> nat, ghost piece: Window -> string)
      returns (next: nat, chunks': seq<string>, ghost done': seq<Window>)
      requires Progresses(chunkSize, overlap) && start < |text| && Advances(ends, overlap)
      requires forall s: nat :: ends(s) == WindowEnd(chunkSize, text, s)
      requires forall w :: piece(w) == Piece(text, w)
      requires WindowsFrom(ends, overlap, |text|, 0) == done + WindowsFrom(ends, overlap, |text|, start)
      requires chunks == MapSeq(piece, done)
      ensures next > start
      ensures WindowsFrom(ends, overlap, |text|, 0) == done' + WindowsFrom(ends, overlap, |text|, next)
      ensures chunks' == MapSeq(piece, done')
    {
      var end, chunk := NextWindow(text, start);
      assert ends(start) == end;
      next := end - overlap;
      var w := Window(start, end);
      WindowsFromStep(ends, overlap, |text|, start, end, next);
      Associative(done, [w], WindowsFrom(ends, overlap, |text|, next));
      done' := done + [w];
      MapSeqSnoc(piece, done, w);
      assert piece(w) == Strip(chunk);
      chunks' := chunks + [Strip(chunk)];
    }

    /** The body of the loop up to the append: the window's end and its text. */
    method NextWindow(text: string, start: nat) returns (end: nat, chunk: string)
      ensures end == WindowEnd(chunkSize, text, start) && chunk == PySlice(text, start, end)
    {
      end := start + chunkSize;
      chunk := PySlice(text, start, end);
      if end < |text| {
        var lastPeriod := LastPeriodSpace(chunk, |chunk|);
        var lastNewline := LastNewline(chunk, |chunk|);
        var breakPoint := Max(lastPeriod, lastNewline);
        assert breakPoint == BreakPoint(PySlice(text, start, end));
        if breakPoint > chunkSize / 2 {
          SlicePrefix(text, start, end, breakPoint + 1);
          chunk := chunk[..breakPoint + 1];
          end := start + breakPoint + 1;
        }
      }
    }

    /** `chunk_pages`. */
    method ChunkPages(pages: seq<Page>) returns (chunks: seq<Chunk>)
      requires Progresses(chunkSize, overlap)
      ensures chunks == AllChunks(chunkSize, overlap, pages)
    {
      chunks := [];
      for p := 0 to |pages|
        invariant chunks == AllChunks(chunkSize, overlap, pages[..p])
      {
        var page := pages[p];
        var records := ChunkPage(page);
        chunks := chunks + records;
        TakeSnoc(pages, p);
        AllChunksSnoc(chunkSize, overlap, pages[..p], page);
      }
      TakeAll(pages);
    }

    /** The body of `chunk_pages` for one page: its chunks, numbered. */
    method ChunkPage(page: Page) returns (records: seq<Chunk>)
      requires Progresses(chunkSize, overlap)
      ensures records == PageChunks(chunkSize, overlap, page)
    {
      var textChunks := ChunkText(page.text);
      records := PageRecords(page, textChunks);
    }

    /** The inner loop of `chunk_pages`: one record per chunk of the page. */
    method PageRecords(page: Page, textChunks: seq<string>) returns (records: seq<Chunk>)
      ensures records == RecordsOf(page, textChunks)
    {
      records := [];
      for i := 0 to |textChunks|
        invariant |records| == i
        invariant forall j :: 0 <= j < i ==> records[j] == Record(page, j, |textChunks|, textChunks[j])
      {
        records := records + [Record(page, i, |textChunks|, textChunks[i])];
      }
    }
  }
}
