/**
 * Project slugs: `name.toLowerCase().replace(/[^a-z0-9]+/g, '-').replace(/(^-|-$)/g, '')`,
 * the rule the project routes and the Kaneo migration share (the migration also cuts the
 * slug to 100 characters).
 */
module Slug {
  import opened JsText

  predicate IsSlugChar(c: char) {
    IsAsciiLower(c) || IsDigit(c)
  }

  predicate DashPairAt(s: string, i: int)
    requires 0 <= i < |s| - 1
  {
    s[i] == '-' && s[i + 1] == '-'
  }

  /** No two adjacent dashes. */
  predicate NoDoubleDash(s: string) {
    forall i :: 0 <= i < |s| - 1 ==> !DashPairAt(s, i)
  }

  /** Only slug characters and dashes. */
  predicate SlugAlphabet(s: string) {
    forall i :: 0 <= i < |s| ==> IsSlugChar(s[i]) || s[i] == '-'
  }

  /** The slug characters of s, in order. */
  function SlugChars(s: string): (r: string)
    ensures |r| <= |s|
  {
    if s == [] then [] else (if IsSlugChar(s[0]) then [s[0]] else []) + SlugChars(s[1..])
  }

  /** s without its leading run of characters outside [a-z0-9]. */
  function DropRun(s: string): (r: string)
    ensures |r| <= |s|
    ensures r == [] || IsSlugChar(r[0])
  {
    if s == [] || IsSlugChar(s[0]) then s else DropRun(s[1..])
  }

  /** DropRun only drops characters outside [a-z0-9] from the front. */
  lemma {:induction false} DropRunSuffix(s: string)
    ensures var r := DropRun(s);
      r == s[|s| - |DropRun(s)|..] && SlugChars(r) == SlugChars(s)
    decreases |s|
  {
    if s != [] && !IsSlugChar(s[0]) {
      DropRunSuffix(s[1..]);
    }
  }

  /** `replace(/[^a-z0-9]+/g, '-')`: each maximal run of other characters becomes one dash. */
  function CollapseRuns(s: string): (r: string)
    ensures |r| <= |s|
    decreases |s|
  {
    if s == [] then []
    else if IsSlugChar(s[0]) then [s[0]] + CollapseRuns(s[1..])
    else "-" + CollapseRuns(DropRun(s[1..]))
  }

  /** How the two shape predicates split over a first character. */
  lemma ConsShape(h: char, rest: string)
    ensures SlugAlphabet([h] + rest) <==> (IsSlugChar(h) || h == '-') && SlugAlphabet(rest)
    ensures NoDoubleDash([h] + rest) <==> NoDoubleDash(rest) && !(h == '-' && rest != [] && rest[0] == '-')
  {
    var s := [h] + rest;
    assert s[0] == h;
    assert forall i :: 0 <= i < |rest| ==> s[i + 1] == rest[i];
    forall i | 0 <= i < |rest| - 1
      ensures DashPairAt(s, i + 1) == DashPairAt(rest, i)
    {
    }
    if NoDoubleDash(rest) && !(h == '-' && rest != [] && rest[0] == '-') {
      forall i | 0 <= i < |s| - 1
        ensures !DashPairAt(s, i)
      {
        if i > 0 {
          assert DashPairAt(s, i) == DashPairAt(rest, i - 1);
        }
      }
    }
    if NoDoubleDash(s) && rest != [] {
      assert !DashPairAt(s, 0);
    }
  }

  /** A prefix keeps both shape predicates. */
  lemma PrefixShape(s: string, k: nat)
    requires k <= |s| && SlugAlphabet(s) && NoDoubleDash(s)
    ensures SlugAlphabet(s[..k]) && NoDoubleDash(s[..k])
  {
    forall i | 0 <= i < k - 1
      ensures DashPairAt(s[..k], i) == DashPairAt(s, i)
    {
    }
  }

  /**
   * What the replacement leaves: only slug characters and single dashes, nothing exactly when
   * the text is empty, and a leading dash exactly where the text began outside [a-z0-9].
   */
  lemma {:induction false} CollapseShape(s: string)
    ensures var r := CollapseRuns(s);
      (r == [] <==> s == []) && SlugAlphabet(r) && NoDoubleDash(r)
      && (r != [] ==> (r[0] == '-' <==> !IsSlugChar(s[0])))
    decreases |s|
  {
    if s != [] {
      var t := if IsSlugChar(s[0]) then s[1..] else DropRun(s[1..]);
      CollapseShape(t);
      var h := if IsSlugChar(s[0]) then s[0] else '-';
      assert CollapseRuns(s) == [h] + CollapseRuns(t);
      ConsShape(h, CollapseRuns(t));
    }
  }

  /** A trailing dash is left exactly where the text ended outside [a-z0-9]. */
  lemma {:induction false} CollapseLast(s: string)
    requires s != []
    ensures var r := CollapseRuns(s);
      r != [] && (r[|r| - 1] == '-' <==> !IsSlugChar(s[|s| - 1]))
    decreases |s|
  {
    var t := if IsSlugChar(s[0]) then s[1..] else DropRun(s[1..]);
    var h := if IsSlugChar(s[0]) then s[0] else '-';
    var rest := CollapseRuns(t);
    assert CollapseRuns(s) == [h] + rest;
    if |s| > 1 {
      DropRunLast(s[1..]);
    }
    if t != [] {
      CollapseLast(t);
      LastOfCons(h, rest);
    }
  }

  lemma LastOfCons(h: char, rest: string)
    requires rest != []
    ensures ([h] + rest)[|rest|] == rest[|rest| - 1]
  {
  }

  /** What DropRun leaves ends where the text ends; when it leaves nothing, the text ended outside [a-z0-9]. */
  lemma {:induction false} DropRunLast(s: string)
    requires s != []
    ensures DropRun(s) != [] ==> DropRun(s)[|DropRun(s)| - 1] == s[|s| - 1]
    ensures DropRun(s) == [] ==> !IsSlugChar(s[|s| - 1])
    decreases |s|
  {
    if |s| > 1 && !IsSlugChar(s[0]) {
      DropRunLast(s[1..]);
    }
  }

  /** The replacement keeps the slug characters, in order. */
  lemma {:induction false} CollapseSlugChars(s: string)
    ensures SlugChars(CollapseRuns(s)) == SlugChars(s)
    decreases |s|
  {
    if s != [] {
      var t := if IsSlugChar(s[0]) then s[1..] else DropRun(s[1..]);
      var h := if IsSlugChar(s[0]) then s[0] else '-';
      CollapseSlugChars(t);
      if !IsSlugChar(s[0]) {
        DropRunSuffix(s[1..]);
      }
      var r := CollapseRuns(s);
      assert r == [h] + CollapseRuns(t);
      assert r[1..] == CollapseRuns(t);
    }
  }

  /** `replace(/(^-|-$)/g, '')`: a leading dash and a trailing dash removed. */
  function TrimDashes(s: string): string {
    var a := if |s| > 0 && s[0] == '-' then s[1..] else s;
    if |a| > 0 && a[|a| - 1] == '-' then a[..|a| - 1] else a
  }

  function Slug(name: string): string {
    TrimDashes(CollapseRuns(ToLower(name)))
  }

  /** The shape of every slug: only [a-z0-9] and single dashes, with no dash at either end. */
  predicate IsSlug(s: string) {
    SlugAlphabet(s) && NoDoubleDash(s) && (s != [] ==> s[0] != '-' && s[|s| - 1] != '-')
  }

  /**
   * A slug has the slug shape, keeps the name's lower-cased letters and digits in order, and
   * is no longer than the name.
   */
  lemma SlugShape(name: string)
    ensures IsSlug(Slug(name))
    ensures SlugChars(Slug(name)) == SlugChars(ToLower(name))
    ensures |Slug(name)| <= |name|
  {
    var l := ToLower(name);
    CollapseShape(l);
    CollapseSlugChars(l);
    TrimShape(CollapseRuns(l));
  }

  /** Trimming the edge dashes of text made of slug characters and single dashes leaves a slug. */
  lemma TrimShape(c: string)
    requires SlugAlphabet(c) && NoDoubleDash(c)
    ensures IsSlug(TrimDashes(c)) && SlugChars(TrimDashes(c)) == SlugChars(c) && |TrimDashes(c)| <= |c|
  {
    TrimFront(c);
    TrimBack(if |c| > 0 && c[0] == '-' then c[1..] else c);
  }

  /** Dropping a leading dash keeps the shape and the slug characters. */
  lemma TrimFront(c: string)
    requires SlugAlphabet(c) && NoDoubleDash(c)
    ensures var a := if |c| > 0 && c[0] == '-' then c[1..] else c;
      SlugAlphabet(a) && NoDoubleDash(a) && (a != [] ==> a[0] != '-') && SlugChars(a) == SlugChars(c)
  {
    if |c| > 0 && c[0] == '-' {
      assert c == [c[0]] + c[1..];
      ConsShape(c[0], c[1..]);
    }
  }

  /** Dropping a trailing dash from text with no leading dash leaves a slug. */
  lemma TrimBack(a: string)
    requires SlugAlphabet(a) && NoDoubleDash(a) && (a != [] ==> a[0] != '-')
    ensures var t := if |a| > 0 && a[|a| - 1] == '-' then a[..|a| - 1] else a;
      IsSlug(t) && SlugChars(t) == SlugChars(a)
  {
    if |a| > 0 && a[|a| - 1] == '-' {
      var t := a[..|a| - 1];
      PrefixShape(a, |a| - 1);
      assert a == t + [a[|a| - 1]];
      SlugCharsAppend(t, [a[|a| - 1]]);
      if |t| > 0 {
        assert t[0] == a[0];
        assert !DashPairAt(a, |a| - 2);
      }
    }
  }

  lemma {:induction false} SlugCharsAppend(a: string, b: string)
    ensures SlugChars(a + b) == SlugChars(a) + SlugChars(b)
  {
    if a != [] {
      assert (a + b)[0] == a[0];
      assert (a + b)[1..] == a[1..] + b;
      var h := if IsSlugChar(a[0]) then [a[0]] else [];
      assert SlugChars(a + b) == h + SlugChars(a[1..] + b);
      SlugCharsAppend(a[1..], b);
      assert SlugChars(a) == h + SlugChars(a[1..]);
    } else {
      assert a + b == b;
    }
  }

  /** A string already of the slug shape is its own slug: making a slug twice changes nothing. */
  lemma SlugIdempotent(name: string)
    ensures Slug(Slug(name)) == Slug(name)
  {
    var s := Slug(name);
    SlugShape(name);
    LowerOfSlug(s);
    CollapseOfSlug(s);
  }

  lemma {:induction false} LowerOfSlug(s: string)
    requires SlugAlphabet(s)
    ensures ToLower(s) == s
  {
    assert forall i :: 0 <= i < |s| ==> ToLower(s)[i] == s[i];
  }

  lemma {:induction false} CollapseOfSlug(s: string)
    requires SlugAlphabet(s) && NoDoubleDash(s)
    ensures CollapseRuns(s) == s
    decreases |s|
  {
    if s != [] {
      assert s == [s[0]] + s[1..];
      ConsShape(s[0], s[1..]);
      CollapseOfSlug(s[1..]);
    }
  }

  /** The migration's `slugify`: the same rule, then `slice(0, 100)`. */
  function KaneoSlug(name: string): (r: string)
    ensures |r| <= 100
  {
    Take(Slug(name), 100)
  }

  /** A migration slug uses only [a-z0-9] and single dashes and never starts with a dash. */
  lemma KaneoSlugShape(name: string)
    ensures var r := KaneoSlug(name);
      SlugAlphabet(r) && NoDoubleDash(r) && (r != [] ==> r[0] != '-') && r == Slug(name)[..|r|]
  {
    SlugShape(name);
    var s := Slug(name);
    var r := KaneoSlug(name);
    PrefixShape(s, |r|);
  }

  /**
   * Cutting at 100 characters can leave a trailing dash, which the full rule never does:
   * 99 letters or digits, a space and one more letter.
   */
  lemma KaneoSlugMayEndInDash(a: string)
    requires |a| == 99 && forall i :: 0 <= i < |a| ==> IsSlugChar(a[i])
    ensures KaneoSlug(a + " b") == a + "-"
  {
    var name := a + " b";
    assert ToLower(name) == name by {
      assert forall i :: 0 <= i < |name| ==> ToLower(name)[i] == name[i];
    }
    CollapseKeeps(a, " b");
    assert CollapseRuns(" b") == "-b" by {
      assert DropRun(" b"[1..]) == "b";
    }
    var c := a + "-b";
    assert CollapseRuns(name) == c;
    assert c[0] == a[0] && c[|c| - 1] == 'b';
    assert Slug(name) == c;
    assert c[..100] == a + "-";
  }

  /** A leading run of slug characters passes through untouched. */
  lemma {:induction false} CollapseKeeps(a: string, b: string)
    requires forall i :: 0 <= i < |a| ==> IsSlugChar(a[i])
    ensures CollapseRuns(a + b) == a + CollapseRuns(b)
    decreases |a|
  {
    if a != [] {
      assert (a + b)[0] == a[0] && (a + b)[1..] == a[1..] + b;
      assert CollapseRuns(a + b) == [a[0]] + CollapseRuns(a[1..] + b);
      CollapseKeeps(a[1..], b);
      assert a == [a[0]] + a[1..];
      assert [a[0]] + (a[1..] + CollapseRuns(b)) == a + CollapseRuns(b);
    } else {
      assert a + b == b;
    }
  }
}
