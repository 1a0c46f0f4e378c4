/**
 * The troubleshooting importer of the memory seeder: a Markdown document is cut into
 * sections at its `## ` and `### ` headings, near-empty sections are dropped, each kept
 * section gets a service name read from its title, and archive sections are filtered out
 * before the procedural nodes are posted.
 */
module RexSections {
  import opened Wrappers
  import opened JsText
  import opened SeqFacts

  datatype Section = Section(title: string, content: string, service: string)

  // ---------------------------------------------------------------- headings

  /** `line.startsWith('## ') || line.startsWith('### ')`, read character by character. */
  predicate IsHeading(line: string) {
    |line| >= 3 && line[0] == '#' && line[1] == '#'
    && (line[2] == ' ' || (|line| >= 4 && line[2] == '#' && line[3] == ' '))
  }

  lemma IsHeadingStartsWith(line: string)
    ensures IsHeading(line) <==> StartsWith(line, "## ") || StartsWith(line, "### ")
  {
    if |line| >= 3 {
      assert line[..3] == [line[0], line[1], line[2]];
    }
    if |line| >= 4 {
      assert line[..4] == [line[0], line[1], line[2], line[3]];
    }
  }

  /**
   * `line.replace(/^#{2,3}\s+/, '')` on a heading line. The line opens with `## ` or `### `,
   * so its third character is the blank after two hashes or the third hash, and what the
   * expression removes is those three characters and every whitespace after them.
   */
  function HeadingTitle(line: string): (r: string)
    requires IsHeading(line)
    ensures |r| < |line| && r == line[|line| - |r|..]
    ensures r == [] || !IsJsSpace(r[0])
  {
    TrimStart(line[3..])
  }

  /** The title a heading gives: the text after `## ` or `### `, without its leading whitespace. */
  lemma HeadingTitleOf(t: string)
    ensures IsHeading("## " + t) && HeadingTitle("## " + t) == TrimStart(t)
    ensures IsHeading("### " + t) && HeadingTitle("### " + t) == TrimStart(t)
  {
    HeadingTwo(t);
    HeadingThree(t);
  }

  lemma HeadingTwo(t: string)
    ensures IsHeading("## " + t) && HeadingTitle("## " + t) == TrimStart(t)
  {
    var a := "## " + t;
    assert a[0] == '#' && a[1] == '#' && a[2] == ' ' && a[3..] == t;
  }

  lemma HeadingThree(t: string)
    ensures IsHeading("### " + t) && HeadingTitle("### " + t) == TrimStart(t)
  {
    var b := "### " + t;
    assert b[0] == '#' && b[1] == '#' && b[2] == '#' && b[3] == ' ' && b[3..] == " " + t;
    assert (" " + t)[1..] == t;
  }

  /** A line opening with one hash, or with four, is content and not a heading. */
  lemma OtherHashesAreContent(line: string)
    requires StartsWith(line, "# ") || StartsWith(line, "#### ")
    ensures !IsHeading(line)
  {
    if StartsWith(line, "# ") {
      assert line[..2][1] == ' ';
    } else {
      assert line[..4][2] == '#' && line[..4][3] == '#';
    }
  }

  // ---------------------------------------------------------------- the service name

  predicate IsDigitOrDot(c: char) { IsDigit(c) || c == '.' }
  predicate IsWordOrDash(c: char) { IsWordChar(c) || c == '-' }

  /** The end of the run of characters satisfying `p` that starts at `i`. */
  function RunEnd(s: string, i: nat, p: char -> bool): (j: nat)
    requires i <= |s|
    ensures i <= j <= |s|
    ensures forall k :: i <= k < j ==> p(s[k])
    ensures j == |s| || !p(s[j])
    decreases |s| - i
  {
    if i == |s| || !p(s[i]) then i else RunEnd(s, i + 1, p)
  }

  /**
   * `/[\d.]+\s+(\w[\w-]*)/` matches at `i`. Backtracking cannot help either quantifier (a
   * digit or dot is no whitespace, a word character no whitespace), so the greedy runs decide.
   */
  predicate MatchAt(t: string, i: nat) {
    i < |t| && IsDigitOrDot(t[i])
    && var j := RunEnd(t, i, IsDigitOrDot);
    var k := RunEnd(t, j, IsJsSpace);
    j < k < |t| && IsWordChar(t[k])
  }

  /** The regular expression's own reading: a digit-or-dot run, a whitespace run, a word character. */
  predicate RegexMatchAt(t: string, i: nat) {
    exists j, k :: i < j < k < |t| && AllOf(t, i, j, IsDigitOrDot) && AllOf(t, j, k, IsJsSpace) && IsWordChar(t[k])
  }

  predicate AllOf(s: string, i: nat, j: nat, p: char -> bool)
    requires i <= j <= |s|
  {
    forall k :: i <= k < j ==> p(s[k])
  }

  lemma MatchAtIsRegex(t: string, i: nat)
    ensures MatchAt(t, i) <==> RegexMatchAt(t, i)
  {
    if MatchAt(t, i) {
      var j := RunEnd(t, i, IsDigitOrDot);
      var k := RunEnd(t, j, IsJsSpace);
      assert AllOf(t, i, j, IsDigitOrDot) && AllOf(t, j, k, IsJsSpace);
    }
    if RegexMatchAt(t, i) {
      var j', k' :| i < j' < k' < |t| && AllOf(t, i, j', IsDigitOrDot) && AllOf(t, j', k', IsJsSpace) && IsWordChar(t[k']);
      var j := RunEnd(t, i, IsDigitOrDot);
      assert !IsDigitOrDot(t[j']);
      assert j == j';
      var k := RunEnd(t, j, IsJsSpace);
      assert !IsJsSpace(t[k']);
      assert k == k';
    }
  }

  /** The leftmost position from `from` on where the expression matches. */
  function FirstMatch(t: string, from: nat): (r: Option<nat>)
    ensures r.Some? ==> from <= r.value && MatchAt(t, r.value)
    ensures forall i :: from <= i && (r.None? || i < r.value) ==> !MatchAt(t, i)
    decreases |t| - from
  {
    if from >= |t| then None
    else if MatchAt(t, from) then Some(from)
    else FirstMatch(t, from + 1)
  }

  /** The capture `(\w[\w-]*)` of the match at `i`. */
  function Capture(t: string, i: nat): (w: string)
    requires MatchAt(t, i)
    ensures w != [] && IsWordChar(w[0])
    ensures forall c :: c in w ==> IsWordOrDash(c)
  {
    var j := RunEnd(t, i, IsDigitOrDot);
    var k := RunEnd(t, j, IsJsSpace);
    var e := RunEnd(t, k + 1, IsWordOrDash);
    assert forall c :: c in t[k..e] ==> IsWordOrDash(c) by {
      forall c | c in t[k..e] ensures IsWordOrDash(c) {
        var m :| 0 <= m < e - k && t[k..e][m] == c;
        assert t[k + m] == c;
      }
    }
    t[k..e]
  }

  /** `serviceMatch?.[1]?.toLowerCase() ?? 'general'`. */
  function Service(title: string): string {
    match FirstMatch(title, 0)
    case None => "general"
    case Some(i) => ToLower(Capture(title, i))
  }

  /**
   * The service is "general" exactly when the title has no match; otherwise it is the
   * lower-cased word the leftmost match captures, made of word characters and dashes.
   */
  lemma ServiceShape(title: string)
    ensures (forall i :: !RegexMatchAt(title, i)) ==> Service(title) == "general"
    ensures (exists i :: RegexMatchAt(title, i)) ==>
      var s := Service(title);
      s != [] && IsWordChar(s[0]) && (forall c :: c in s ==> IsWordOrDash(c) && !IsAsciiUpper(c))
  {
    if forall i :: !RegexMatchAt(title, i) {
      forall i: nat ensures !MatchAt(title, i) { MatchAtIsRegex(title, i); }
    } else {
      var i: nat :| RegexMatchAt(title, i);
      MatchAtIsRegex(title, i);
      var f := FirstMatch(title, 0);
      var w := Capture(title, f.value);
      var s := ToLower(w);
      assert forall c :: c in s ==> IsWordOrDash(c) && !IsAsciiUpper(c) by {
        forall c | c in s ensures IsWordOrDash(c) && !IsAsciiUpper(c) {
          var m :| 0 <= m < |s| && s[m] == c;
          assert w[m] in w;
        }
      }
    }
  }

  // ---------------------------------------------------------------- the document cut at its headings

  /** The lines a heading opens, up to the next heading; the first segment has no heading. */
  datatype Segment = Segment(heading: Option<string>, body: seq<string>)

  function TitleOf(heading: Option<string>): string {
    match heading
    case None => ""
    case Some(h) => if IsHeading(h) then HeadingTitle(h) else ""
  }

  predicate NoHeading(lines: seq<string>) {
    forall k :: 0 <= k < |lines| ==> !IsHeading(lines[k])
  }

  /** The number of lines before the first heading. */
  function BodyLength(lines: seq<string>): (n: nat)
    ensures n <= |lines|
    ensures n < |lines| ==> IsHeading(lines[n])
  {
    if lines == [] || IsHeading(lines[0]) then 0
    else
      1 + BodyLength(lines[1..])
  }

  /** The lines before the first heading are heading free. */
  lemma {:induction false} BodyHasNoHeading(lines: seq<string>)
    ensures NoHeading(lines[..BodyLength(lines)])
  {
    if lines != [] && !IsHeading(lines[0]) {
      BodyHasNoHeading(lines[1..]);
      var n := BodyLength(lines);
      assert forall k :: 1 <= k < n ==> lines[..n][k] == lines[1..][..n - 1][k - 1];
    }
  }

  /** The open segment runs to the first heading, which opens the next one, and so on. */
  function Segments(open: Option<string>, lines: seq<string>): seq<Segment>
    decreases |lines|
  {
    var n := BodyLength(lines);
    [Segment(open, lines[..n])] + (if n == |lines| then [] else Segments(Some(lines[n]), lines[n + 1..]))
  }

  /** The heading line of a segment, when it has one. */
  function HeadLines(heading: Option<string>): seq<string> {
    match heading
    case None => []
    case Some(h) => [h]
  }

  /** The lines a run of segments spans: each heading, then its body. */
  function LinesOf(segs: seq<Segment>): seq<string> {
    if segs == [] then [] else HeadLines(segs[0].heading) + segs[0].body + LinesOf(segs[1..])
  }

  /** Cutting at the headings loses no line and reorders none. */
  lemma {:induction false} SegmentsRoundTrip(open: Option<string>, lines: seq<string>)
    ensures LinesOf(Segments(open, lines)) == HeadLines(open) + lines
    decreases |lines|
  {
    var n := BodyLength(lines);
    var segs := Segments(open, lines);
    assert segs[0] == Segment(open, lines[..n]);
    assert LinesOf(segs) == HeadLines(open) + lines[..n] + LinesOf(segs[1..]);
    if n == |lines| {
      assert lines[..n] == lines;
      assert segs[1..] == [];
      assert HeadLines(open) + lines + [] == HeadLines(open) + lines;
    } else {
      assert segs[1..] == Segments(Some(lines[n]), lines[n + 1..]);
      SegmentsRoundTrip(Some(lines[n]), lines[n + 1..]);
      assert HeadLines(Some(lines[n])) == [lines[n]];
      Regroup(HeadLines(open), lines, n);
    }
  }

  /** Every body is heading free, and every segment after the first is opened by a heading. */
  lemma {:induction false} SegmentsWellFormed(open: Option<string>, lines: seq<string>)
    ensures var r := Segments(open, lines);
      forall k :: 0 <= k < |r| ==>
        NoHeading(r[k].body) && (k > 0 ==> r[k].heading.Some? && IsHeading(r[k].heading.value))
    decreases |lines|
  {
    var n := BodyLength(lines);
    BodyHasNoHeading(lines);
    if n < |lines| {
      SegmentsWellFormed(Some(lines[n]), lines[n + 1..]);
      var r := Segments(open, lines);
      assert r[1..] == Segments(Some(lines[n]), lines[n + 1..]);
      assert forall k :: 1 <= k < |r| ==> r[k] == r[1..][k - 1];
    }
  }

  lemma {:induction false} BodyLengthAppend(cur: seq<string>, rest: seq<string>)
    requires NoHeading(cur)
    ensures BodyLength(cur + rest) == |cur| + BodyLength(rest)
    decreases |cur|
  {
    if cur != [] {
      assert (cur + rest)[0] == cur[0];
      assert (cur + rest)[1..] == cur[1..] + rest;
      BodyLengthAppend(cur[1..], rest);
    } else {
      assert cur + rest == rest;
    }
  }

  /** A heading after heading-free lines closes the open segment there. */
  lemma HeadingCloses(open: Option<string>, cur: seq<string>, line: string, rest: seq<string>)
    requires NoHeading(cur) && IsHeading(line)
    ensures Segments(open, cur + [line] + rest) == [Segment(open, cur)] + Segments(Some(line), rest)
  {
    var all := cur + [line] + rest;
    assert all == cur + ([line] + rest);
    BodyLengthAppend(cur, [line] + rest);
    assert all[..|cur|] == cur && all[|cur|] == line && all[|cur| + 1..] == rest;
  }

  /** Heading-free lines at the end stay in the open segment. */
  lemma LastSegment(open: Option<string>, cur: seq<string>)
    requires NoHeading(cur)
    ensures Segments(open, cur) == [Segment(open, cur)]
  {
    BodyLengthAppend(cur, []);
    assert cur + [] == cur;
    assert cur[..|cur|] == cur;
  }

  // ---------------------------------------------------------------- sections

  /** `if (currentTitle && currentLines.length > 0)`, then `content.length > 50`. */
  function Emit(title: string, lines: seq<string>): seq<Section> {
    if title != [] && |lines| > 0 && |Trim(Join(lines, "\n"))| > 50 then
      [Section(title, Trim(Join(lines, "\n")), Service(title))]
    else []
  }

  function SectionsOf(segs: seq<Segment>): seq<Section> {
    if segs == [] then [] else Emit(TitleOf(segs[0].heading), segs[0].body) + SectionsOf(segs[1..])
  }

  /** The sections of a document: one per segment that has a title and enough content, in order. */
  function Sections(markdown: string): seq<Section> {
    SectionsOf(Segments(None, Split(markdown, '\n')))
  }

  lemma SectionsOfCons(s: Segment, segs: seq<Segment>)
    ensures SectionsOf([s] + segs) == Emit(TitleOf(s.heading), s.body) + SectionsOf(segs)
  {
    assert ([s] + segs)[1..] == segs;
  }

  /**
   * `parseSections`: the lines are read once, a heading flushes the open section and opens
   * the next, and the last open section is flushed at the end.
   */
  method ParseSections(markdown: string) returns (sections: seq<Section>)
    ensures sections == Sections(markdown)
  {
    sections := ParseLines(Split(markdown, '\n'));
  }

  /** The loop of `parseSections` over the lines of the document. */
  method ParseLines(lines: seq<string>) returns (sections: seq<Section>)
    ensures sections == SectionsOf(Segments(None, lines))
  {
    sections := [];
    var currentTitle: string := "";
    var currentLines: seq<string> := [];
    ghost var open: Option<string> := None;
    ghost var closed: seq<Segment> := [];
    LastSegment(None, []);
    assert lines[..0] == [];
    for i := 0 to |lines|
      invariant Segments(None, lines[..i]) == closed + [Segment(open, currentLines)]
      invariant currentTitle == TitleOf(open) && sections == SectionsOf(closed)
    {
      var line := lines[i];
      assert lines[..i + 1] == lines[..i] + [line];
      if IsHeading(line) {
        CloseAtHeading(closed, open, currentLines, lines[..i], line);
        sections := sections + Emit(currentTitle, currentLines);
        closed := closed + [Segment(open, currentLines)];
        currentTitle := HeadingTitle(line);
        currentLines := [];
        open := Some(line);
      } else {
        KeepContent(closed, open, currentLines, lines[..i], line);
        currentLines := currentLines + [line];
      }
    }
    assert lines[..|lines|] == lines;
    SectionsOfSnoc(closed, Segment(open, currentLines));
    sections := sections + Emit(currentTitle, currentLines);
  }

  /** The last segment of a run with the line `x` added to its body. */
  function Extend(segs: seq<Segment>, x: string): (r: seq<Segment>)
    requires |segs| >= 1
  {
    segs[..|segs| - 1] + [Segment(segs[|segs| - 1].heading, segs[|segs| - 1].body + [x])]
  }

  /** A heading at the end of the lines opens a new, empty segment. */
  lemma {:induction false} SnocHeading(open: Option<string>, p: seq<string>, x: string)
    requires IsHeading(x)
    ensures Segments(open, p + [x]) == Segments(open, p) + [Segment(Some(x), [])]
    decreases |p|
  {
    var n := BodyLength(p);
    BodyHasNoHeading(p);
    LastSegment(Some(x), []);
    if n == |p| {
      assert p[..n] == p;
      assert p + [x] == p + [x] + [];
      HeadingCloses(open, p, x, []);
    } else {
      var h, q := p[n], p[n + 1..];
      SplitAt(p, n, x);
      HeadingCloses(open, p[..n], h, q + [x]);
      HeadingCloses(open, p[..n], h, q);
      SnocHeading(Some(h), q, x);
      Associative([Segment(open, p[..n])], Segments(Some(h), q), [Segment(Some(x), [])]);
    }
  }

  /** A content line at the end of the lines joins the last segment. */
  lemma {:induction false} SnocContent(open: Option<string>, p: seq<string>, x: string)
    requires !IsHeading(x)
    ensures |Segments(open, p)| >= 1
    ensures Segments(open, p + [x]) == Extend(Segments(open, p), x)
    decreases |p|
  {
    var n := BodyLength(p);
    BodyHasNoHeading(p);
    if n == |p| {
      assert p[..n] == p;
      LastSegment(open, p);
      assert NoHeading(p + [x]) by {
        assert forall k :: 0 <= k < |p| ==> (p + [x])[k] == p[k];
      }
      LastSegment(open, p + [x]);
    } else {
      var h, q := p[n], p[n + 1..];
      SplitAt(p, n, x);
      HeadingCloses(open, p[..n], h, q + [x]);
      HeadingCloses(open, p[..n], h, q);
      SnocContent(Some(h), q, x);
      ExtendCons(Segment(open, p[..n]), Segments(Some(h), q), x);
    }
  }

  lemma ExtendCons(s: Segment, segs: seq<Segment>, x: string)
    requires |segs| >= 1
    ensures Extend([s] + segs, x) == [s] + Extend(segs, x)
  {
    assert ([s] + segs)[..|segs|] == [s] + segs[..|segs| - 1];
  }

  /** At a heading the open segment closes and the heading opens the next. */
  lemma CloseAtHeading(closed: seq<Segment>, open: Option<string>, cur: seq<string>, p: seq<string>, x: string)
    requires IsHeading(x) && Segments(None, p) == closed + [Segment(open, cur)]
    ensures Segments(None, p + [x]) == (closed + [Segment(open, cur)]) + [Segment(Some(x), [])]
    ensures SectionsOf(closed + [Segment(open, cur)]) == SectionsOf(closed) + Emit(TitleOf(open), cur)
    ensures TitleOf(Some(x)) == HeadingTitle(x)
  {
    SnocHeading(None, p, x);
    SectionsOfSnoc(closed, Segment(open, cur));
  }

  /** A content line joins the open segment. */
  lemma KeepContent(closed: seq<Segment>, open: Option<string>, cur: seq<string>, p: seq<string>, x: string)
    requires !IsHeading(x) && Segments(None, p) == closed + [Segment(open, cur)]
    ensures Segments(None, p + [x]) == closed + [Segment(open, cur + [x])]
  {
    SnocContent(None, p, x);
    assert (closed + [Segment(open, cur)])[..|closed|] == closed;
  }

  lemma {:induction false} SectionsOfSnoc(segs: seq<Segment>, s: Segment)
    ensures SectionsOf(segs + [s]) == SectionsOf(segs) + Emit(TitleOf(s.heading), s.body)
  {
    if segs == [] {
      assert [] + [s] == [s];
      SectionsOfCons(s, []);
    } else {
      assert (segs + [s])[1..] == segs[1..] + [s];
      SectionsOfSnoc(segs[1..], s);
      var e := Emit(TitleOf(segs[0].heading), segs[0].body);
      Associative(e, SectionsOf(segs[1..]), Emit(TitleOf(s.heading), s.body));
    }
  }

  /** Heading-free lines make one segment, flushed as one section at most. */
  lemma OneSegment(open: Option<string>, body: seq<string>)
    requires NoHeading(body)
    ensures SectionsOf(Segments(open, body)) == Emit(TitleOf(open), body)
  {
    LastSegment(open, body);
    SectionsOfCons(Segment(open, body), []);
    assert Emit(TitleOf(open), body) + [] == Emit(TitleOf(open), body);
  }

  /** A sequence cut around its element at `n`, with `x` added at the end. */
  lemma SplitAt<T>(p: seq<T>, n: nat, x: T)
    requires n < |p|
    ensures p == p[..n] + [p[n]] + p[n + 1..]
    ensures p + [x] == p[..n] + [p[n]] + (p[n + 1..] + [x])
  {
  }

  lemma Regroup<T>(a: seq<T>, b: seq<T>, n: nat)
    requires n < |b|
    ensures (a + b[..n]) + ([b[n]] + b[n + 1..]) == a + b
  {
    assert b[..n] + ([b[n]] + b[n + 1..]) == b;
  }

  lemma EmitShape(title: string, lines: seq<string>)
    ensures forall s :: s in Emit(title, lines) ==>
      s.title == title && title != [] && |s.content| > 50 && !IsJsSpace(s.content[0])
      && !IsJsSpace(s.content[|s.content| - 1]) && s.service == Service(title)
  {
    var c := Trim(Join(lines, "\n"));
    if title != [] && |lines| > 0 && |c| > 50 {
      assert Emit(title, lines) == [Section(title, c, Service(title))];
    } else {
      assert Emit(title, lines) == [];
    }
  }

  lemma {:induction false} SectionsShape(segs: seq<Segment>)
    ensures forall s :: s in SectionsOf(segs) ==>
      s.title != [] && |s.content| > 50 && !IsJsSpace(s.content[0]) && !IsJsSpace(s.content[|s.content| - 1])
      && s.service == Service(s.title)
  {
    if segs != [] {
      SectionsShape(segs[1..]);
      EmitShape(TitleOf(segs[0].heading), segs[0].body);
    }
  }

  /** Lines before the first heading belong to no section. */
  lemma PreambleDropped(pre: seq<string>, heading: string, rest: seq<string>)
    requires NoHeading(pre) && IsHeading(heading)
    ensures SectionsOf(Segments(None, pre + [heading] + rest)) == SectionsOf(Segments(Some(heading), rest))
  {
    HeadingCloses(None, pre, heading, rest);
    SectionsOfCons(Segment(None, pre), Segments(Some(heading), rest));
  }

  /** A document without headings has no section. */
  lemma NoHeadingNoSection(lines: seq<string>)
    requires NoHeading(lines)
    ensures SectionsOf(Segments(None, lines)) == []
  {
    LastSegment(None, lines);
    SectionsOfCons(Segment(None, lines), []);
  }

  /** A heading opens a section of the lines after it, titled by the heading's text. */
  lemma HeadingOpensSection(heading: string, body: seq<string>)
    requires IsHeading(heading) && NoHeading(body)
    ensures SectionsOf(Segments(None, [heading] + body)) == Emit(HeadingTitle(heading), body)
  {
    assert [] + [heading] + body == [heading] + body;
    HeadingCloses(None, [], heading, body);
    SectionsOfCons(Segment(None, []), Segments(Some(heading), body));
    OneSegment(Some(heading), body);
  }

  // ---------------------------------------------------------------- the filter in main

  /** Neither an archive section nor the meta section 99. */
  predicate Active(s: Section) {
    !Contains(s.title, "ARCHIVÉ") && !StartsWith(s.title, "99.")
  }

  /** `sections.filter(...)`: the active sections, in order. */
  function Filtered(ss: seq<Section>): (r: seq<Section>)
    ensures |r| <= |ss|
    ensures forall s :: s in r <==> s in ss && Active(s)
  {
    if ss == [] then []
    else (if Active(ss[0]) then [ss[0]] else []) + Filtered(ss[1..])
  }

  /** The body posted for one section: a procedural node of type error with the service tag. */
  datatype NodePayload = NodePayload(nodeType: string, content: string, summary: string,
                                     entityType: string, tags: seq<string>, createdBy: string)

  function Payload(s: Section): (p: NodePayload)
    ensures |p.content| <= 2000 && |p.content| <= |s.content| && p.content == s.content[..|p.content|]
    ensures p.summary == s.title && p.tags == ["troubleshooting", s.service]
  {
    NodePayload("procedural", Take(s.content, 2000), s.title, "error", ["troubleshooting", s.service], "seed-troubleshooting")
  }

  /** The nodes posted for a document: one per active section, in document order. */
  function Payloads(ss: seq<Section>): (r: seq<NodePayload>)
    ensures |r| == |Filtered(ss)|
    ensures forall k :: 0 <= k < |r| ==> r[k] == Payload(Filtered(ss)[k])
  {
    var f := Filtered(ss);
    seq(|f|, k requires 0 <= k < |f| => Payload(f[k]))
  }

  /** A section is posted exactly when it is active, and the posted content is cut to 2000 characters. */
  lemma PayloadsContract(ss: seq<Section>)
    ensures forall s :: s in ss ==> (Active(s) <==> exists k :: 0 <= k < |Payloads(ss)| && Payloads(ss)[k] == Payload(s))
    ensures forall k :: 0 <= k < |Payloads(ss)| ==> |Payloads(ss)[k].content| <= 2000
  {
    var f := Filtered(ss);
    forall s | s in ss ensures Active(s) <==> exists k :: 0 <= k < |Payloads(ss)| && Payloads(ss)[k] == Payload(s) {
      if Active(s) {
        assert s in f;
        var k :| 0 <= k < |f| && f[k] == s;
        assert Payloads(ss)[k] == Payload(s);
      }
      if exists k :: 0 <= k < |Payloads(ss)| && Payloads(ss)[k] == Payload(s) {
        var k :| 0 <= k < |Payloads(ss)| && Payloads(ss)[k] == Payload(s);
        assert Payload(f[k]) == Payload(s);
        assert f[k].title == s.title;
        assert f[k] in f;
      }
    }
  }

}
