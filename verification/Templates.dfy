/** Placeholder replacement in namespace and label templates. */
module Templates {

  const SLUG := "{{ .IdentitySlug }}"
  const NAME := "{{ .BlueprintName }}"

  /** Non-overlapping occurrences, left to right. */
  function ReplaceAll(s: string, hole: string, filling: string): string
    requires hole != []
  {
    if s == [] then []
    else if hole <= s then filling + ReplaceAll(s[|hole|..], hole, filling)
    else [s[0]] + ReplaceAll(s[1..], hole, filling)
  }

  function Count(s: string, hole: string): nat
    requires hole != []
  {
    if s == [] then 0
    else if hole <= s then 1 + Count(s[|hole|..], hole)
    else Count(s[1..], hole)
  }

  /** Rendering with the two sample words, in the order validation uses. */
  function Sample(t: string): string {
    ReplaceAll(ReplaceAll(t, SLUG, "identity"), NAME, "blueprint")
  }

  ghost predicate NoBrace(s: string) { forall i :: 0 <= i < |s| ==> s[i] != '{' }

  // ----- Templates as tokens -----

  datatype Token = Ch(c: char) | SlugHole | NameHole

  function Part(t: Token, slug: string, name: string): string {
    match t case Ch(c) => [c] case SlugHole => slug case NameHole => name
  }

  /** The text with slug and name in the holes. */
  function Fill(ts: seq<Token>, slug: string, name: string): string {
    if ts == [] then [] else Part(ts[0], slug, name) + Fill(ts[1..], slug, name)
  }

  function Parse(t: string): seq<Token> {
    if t == [] then []
    else if SLUG <= t then [SlugHole] + Parse(t[|SLUG|..])
    else if NAME <= t then [NameHole] + Parse(t[|NAME|..])
    else [Ch(t[0])] + Parse(t[1..])
  }

  ghost predicate CleanTokens(ts: seq<Token>) {
    forall i :: 0 <= i < |ts| ==> ts[i] != Ch('{')
  }

  function SlugHoles(ts: seq<Token>): nat {
    if ts == [] then 0 else (if ts[0].SlugHole? then 1 else 0) + SlugHoles(ts[1..])
  }

  lemma FillCons(t: Token, ts: seq<Token>, slug: string, name: string)
    ensures Fill([t] + ts, slug, name) == Part(t, slug, name) + Fill(ts, slug, name)
  {
    assert ([t] + ts)[1..] == ts;
  }

  lemma {:induction false} ParseInverse(t: string)
    ensures Fill(Parse(t), SLUG, NAME) == t
    decreases |t|
  {
    if t == [] {
    } else if SLUG <= t {
      ParseInverse(t[|SLUG|..]);
      FillCons(SlugHole, Parse(t[|SLUG|..]), SLUG, NAME);
    } else if NAME <= t {
      ParseInverse(t[|NAME|..]);
      FillCons(NameHole, Parse(t[|NAME|..]), SLUG, NAME);
    } else {
      ParseInverse(t[1..]);
      FillCons(Ch(t[0]), Parse(t[1..]), SLUG, NAME);
    }
  }

  // ----- Replacement walks over everything that is not its placeholder -----

  predicate Placeholder(p: string) { p == SLUG || p == NAME }

  lemma StepOver(c: char, t: string, p: string, r: string)
    requires p != [] && !(p <= [c] + t)
    ensures ReplaceAll([c] + t, p, r) == [c] + ReplaceAll(t, p, r) && Count([c] + t, p) == Count(t, p)
  {
    assert ([c] + t)[1..] == t;
  }

  /** Text without braces is stepped over: the placeholder starts with one. */
  lemma {:induction false} WalkClean(a: string, t: string, p: string, r: string)
    requires p != [] && p[0] == '{' && NoBrace(a)
    ensures ReplaceAll(a + t, p, r) == a + ReplaceAll(t, p, r) && Count(a + t, p) == Count(t, p)
  {
    if a == [] {
      assert a + t == t;
    } else {
      WalkClean(a[1..], t, p, r);
      var rest := a[1..] + t;
      assert a + t == [a[0]] + rest;
      assert ([a[0]] + rest)[0] != p[0];
      StepOver(a[0], rest, p, r);
      assert a + ReplaceAll(t, p, r) == [a[0]] + (a[1..] + ReplaceAll(t, p, r));
    }
  }

  lemma PlaceholderShape(p: string)
    requires Placeholder(p)
    ensures |p| > 4 && p[0] == p[1] == '{' && p[2] == ' ' && NoBrace(p[2..])
  {
  }

  lemma PlaceholdersDiffer(p: string, q: string)
    requires Placeholder(p) && Placeholder(q) && p != q
    ensures |p| > 4 && |q| > 4 && p[4] != q[4]
  {
  }

  /** Text that starts like a placeholder but is not one is stepped over. */
  lemma WalkBraces(rest: string, t: string, p: string, r: string)
    requires |p| > 4 && p[0] == p[1] == '{' && |rest| > 2 && rest[0] == ' ' && NoBrace(rest)
    requires rest[2] != p[4]
    ensures var q := ['{', '{'] + rest;
            ReplaceAll(q + t, p, r) == q + ReplaceAll(t, p, r) && Count(q + t, p) == Count(t, p)
  {
    WalkClean(rest, t, p, r);
    var one := ['{'] + (rest + t);
    assert one[1] == ' ';
    StepOver('{', rest + t, p, r);
    var two := ['{'] + one;
    assert two[4] == rest[2];
    StepOver('{', one, p, r);
    assert ['{', '{'] + rest + t == two;
  }

  lemma WalkOther(q: string, t: string, p: string, r: string)
    requires Placeholder(p) && Placeholder(q) && p != q
    ensures ReplaceAll(q + t, p, r) == q + ReplaceAll(t, p, r) && Count(q + t, p) == Count(t, p)
  {
    PlaceholderShape(p);
    PlaceholderShape(q);
    PlaceholdersDiffer(p, q);
    WalkBraces(q[2..], t, p, r);
    assert ['{', '{'] + q[2..] == q;
  }

  lemma WalkOwn(t: string, p: string, r: string)
    requires p != []
    ensures ReplaceAll(p + t, p, r) == r + ReplaceAll(t, p, r) && Count(p + t, p) == 1 + Count(t, p)
  {
    assert (p + t)[|p|..] == t;
  }

  /** Replacing a placeholder fills its holes, whatever clean text the other holes hold. */
  lemma {:induction false} FillSlugs(ts: seq<Token>, name: string, r: string)
    requires CleanTokens(ts) && (name == NAME || NoBrace(name))
    ensures ReplaceAll(Fill(ts, SLUG, name), SLUG, r) == Fill(ts, r, name)
    ensures Count(Fill(ts, SLUG, name), SLUG) == SlugHoles(ts)
  {
    if ts != [] {
      FillSlugs(ts[1..], name, r);
      var rest := Fill(ts[1..], SLUG, name);
      match ts[0]
      case Ch(c) => WalkClean([c], rest, SLUG, r);
      case SlugHole => WalkOwn(rest, SLUG, r);
      case NameHole => if name == NAME { WalkOther(NAME, rest, SLUG, r); } else { WalkClean(name, rest, SLUG, r); }
    }
  }

  lemma {:induction false} FillNames(ts: seq<Token>, slug: string, r: string)
    requires CleanTokens(ts) && (slug == SLUG || NoBrace(slug))
    ensures ReplaceAll(Fill(ts, slug, NAME), NAME, r) == Fill(ts, slug, r)
  {
    if ts != [] {
      FillNames(ts[1..], slug, r);
      var rest := Fill(ts[1..], slug, NAME);
      match ts[0]
      case Ch(c) => WalkClean([c], rest, NAME, r);
      case NameHole => WalkOwn(rest, NAME, r);
      case SlugHole => if slug == SLUG { WalkOther(SLUG, rest, NAME, r); } else { WalkClean(slug, rest, NAME, r); }
    }
  }

  // ----- A template whose sample has no brace is clean -----

  /** No part of the name placeholder continues with "id". */
  lemma NoSuchPart(i: nat)
    requires 1 <= i < |NAME| && NAME[i] == 'i'
    ensures i + 1 < |NAME| && NAME[i + 1] != 'd'
  {
  }

  /** Replacing slugs by "identity" cannot complete a name placeholder. */
  lemma {:induction false} NoNewName(s: string, i: nat)
    requires 1 <= i <= |NAME| && NAME[i..] <= ReplaceAll(s, SLUG, "identity")
    ensures NAME[i..] <= s
    decreases |NAME| - i
  {
    if i < |NAME| {
      var r := ReplaceAll(s, SLUG, "identity");
      if s == [] || SLUG <= s {
        SlugIsNotName(s, i);
        assert false;
      } else {
        assert r[0] == NAME[i..][0] == NAME[i];
        assert r[1..] == ReplaceAll(s[1..], SLUG, "identity") && NAME[i + 1..] == NAME[i..][1..];
        NoNewName(s[1..], i + 1);
        assert NAME[i..] == [s[0]] + NAME[i + 1..] && s == [s[0]] + s[1..];
      }
    }
  }

  lemma SlugIsNotName(s: string, i: nat)
    requires 1 <= i < |NAME| && (s == [] || SLUG <= s)
    ensures !(NAME[i..] <= ReplaceAll(s, SLUG, "identity"))
  {
    assert NAME[i..][0] == NAME[i];
    if s != [] {
      var r := ReplaceAll(s, SLUG, "identity");
      assert r == "identity" + ReplaceAll(s[|SLUG|..], SLUG, "identity");
      if NAME[i] == 'i' {
        NoSuchPart(i);
        assert NAME[i..][1] == NAME[i + 1];
      }
    }
  }

  /** A validated template, whose sample has no brace left, holds nothing but clean text and holes. */
  lemma {:induction false} SampledIsClean(t: string)
    requires NoBrace(Sample(t))
    ensures CleanTokens(Parse(t))
    decreases |t|
  {
    if t == [] {
    } else if SLUG <= t {
      var rest := t[|SLUG|..];
      assert t == SLUG + rest;
      WalkOwn(rest, SLUG, "identity");
      WalkClean("identity", ReplaceAll(rest, SLUG, "identity"), NAME, "blueprint");
      TailClean("identity", Sample(rest));
      SampledIsClean(rest);
    } else if NAME <= t {
      var rest := t[|NAME|..];
      assert t == NAME + rest;
      WalkOther(NAME, rest, SLUG, "identity");
      WalkOwn(ReplaceAll(rest, SLUG, "identity"), NAME, "blueprint");
      TailClean("blueprint", Sample(rest));
      SampledIsClean(rest);
    } else {
      var rest := t[1..];
      assert t == [t[0]] + rest;
      StepOver(t[0], rest, SLUG, "identity");
      NameWasThere(t[0], rest);
      StepOver(t[0], ReplaceAll(rest, SLUG, "identity"), NAME, "blueprint");
      TailClean([t[0]], Sample(rest));
      SampledIsClean(rest);
    }
  }

  lemma TailClean(a: string, b: string)
    requires NoBrace(a + b)
    ensures NoBrace(a) && NoBrace(b)
  {
    assert forall i :: 0 <= i < |a| ==> a[i] == (a + b)[i];
    assert forall i :: 0 <= i < |b| ==> b[i] == (a + b)[|a| + i];
  }

  lemma NameWasThere(c: char, rest: string)
    ensures NAME <= [c] + ReplaceAll(rest, SLUG, "identity") ==> NAME <= [c] + rest
  {
    var r := ReplaceAll(rest, SLUG, "identity");
    if NAME <= [c] + r {
      assert NAME[1..] == ([c] + r)[1..|NAME|] == r[..|NAME| - 1];
      NoNewName(rest, 1);
      assert ([c] + r)[0] == NAME[0] == c;
      assert NAME == [NAME[0]] + NAME[1..];
    }
  }

  // ----- Rendering -----

  function SlugFirst(t: string, slug: string, name: string): string {
    ReplaceAll(ReplaceAll(t, SLUG, slug), NAME, name)
  }

  function NameFirst(t: string, slug: string, name: string): string {
    ReplaceAll(ReplaceAll(t, NAME, name), SLUG, slug)
  }

  /** Both map orders render a validated template to the same text: the one with its holes filled. */
  lemma OrderDoesNotMatter(t: string, slug: string, name: string)
    requires NoBrace(Sample(t)) && NoBrace(slug) && NoBrace(name)
    ensures SlugFirst(t, slug, name) == NameFirst(t, slug, name) == Fill(Parse(t), slug, name)
  {
    var ts := Parse(t);
    SampledIsClean(t);
    ParseInverse(t);
    FillSlugs(ts, NAME, slug);
    FillNames(ts, slug, name);
    FillNames(ts, SLUG, name);
    FillSlugs(ts, name, slug);
  }

  lemma {:induction false} FillWithoutSlug(ts: seq<Token>, a: string, b: string, name: string)
    requires SlugHoles(ts) == 0
    ensures Fill(ts, a, name) == Fill(ts, b, name)
  {
    if ts != [] {
      FillWithoutSlug(ts[1..], a, b, name);
    }
  }

  /** With one hole for it, the slug can be read back from the rendering. */
  lemma {:induction false} FillInjective(ts: seq<Token>, a: string, b: string, name: string)
    requires SlugHoles(ts) == 1 && Fill(ts, a, name) == Fill(ts, b, name)
    ensures a == b
  {
    var x, y := Fill(ts[1..], a, name), Fill(ts[1..], b, name);
    match ts[0]
    case SlugHole =>
      FillWithoutSlug(ts[1..], a, b, name);
      assert |a + x| == |b + y|;
      assert a == (a + x)[..|a|] && b == (b + y)[..|b|];
    case Ch(c) =>
      assert x == ([c] + x)[1..] && y == ([c] + y)[1..];
      FillInjective(ts[1..], a, b, name);
    case NameHole =>
      assert x == (name + x)[|name|..] && y == (name + y)[|name|..];
      FillInjective(ts[1..], a, b, name);
  }

  /** A validated namespace template tells its renderings for two slugs apart. */
  lemma RenderingInjective(t: string, a: string, b: string, name: string)
    requires NoBrace(Sample(t)) && Count(t, SLUG) == 1
    requires Fill(Parse(t), a, name) == Fill(Parse(t), b, name)
    ensures a == b
  {
    SampledIsClean(t);
    ParseInverse(t);
    FillSlugs(Parse(t), NAME, "");
    FillInjective(Parse(t), a, b, name);
  }
}
