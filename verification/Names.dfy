/** Resource and key names derived from identities and host names. */
module Names {
  import opened Text

  /** Every run of characters outside [a-z0-9.-] becomes one hyphen. */
  function Collapse(s: string, inRun: bool): string {
    if s == [] then []
    else if IsNameChar(s[0]) then [s[0]] + Collapse(s[1..], false)
    else (if inRun then [] else "-") + Collapse(s[1..], true)
  }

  function Lower(p: Platform, s: string): string {
    seq(|s|, i requires 0 <= i < |s| => p.lower(s[i]))
  }

  function TrimSpace(s: string): string {
    Trim(s, IsSpace)
  }

  function Normalized(p: Platform, value: string): string {
    var trimmed := Trim(Collapse(Lower(p, TrimSpace(value)), false), IsDotOrHyphen);
    if trimmed == "" then "registration" else trimmed
  }

  /** The name is used as it is, without a digest. */
  predicate Verbatim(p: Platform, value: string) {
    Normalized(p, value) == TrimSpace(value) && IsSubdomain(Normalized(p, value))
  }

  /** What precedes the digest: at most 240 characters, so that 253 are never exceeded. */
  function Stem(p: Platform, value: string): string {
    var n := Normalized(p, value);
    TrimRight(if |n| > 240 then n[..240] else n, IsDotOrHyphen)
  }

  function Hashed(p: Platform, value: string): string {
    Stem(p, value) + "-" + Digest(p, value, 12)
  }

  function ResourceName(p: Platform, value: string): string {
    if Verbatim(p, value) then Normalized(p, value) else Hashed(p, value)
  }

  function Undotted(s: string): string {
    seq(|s|, i requires 0 <= i < |s| => if s[i] == '.' then '-' else s[i])
  }

  function KeyName(p: Platform, value: string): string {
    var name := Undotted(ResourceName(p, value));
    if |name| <= 63 then name
    else TrimRight(name[..50], IsHyphen) + "-" + Digest(p, value, 12)
  }

  // ----- Shape -----

  lemma CollapseShape(s: string, inRun: bool)
    ensures AllNameChars(Collapse(s, inRun))
  {
  }

  lemma NormalizedShape(p: Platform, value: string)
    ensures AllNameChars(Normalized(p, value)) && Edged(Normalized(p, value))
  {
    var c := Collapse(Lower(p, TrimSpace(value)), false);
    CollapseShape(Lower(p, TrimSpace(value)), false);
    TrimKeeps(c, IsDotOrHyphen);
    var t := Trim(c, IsDotOrHyphen);
    forall i | 0 <= i < |t| ensures IsNameChar(t[i]) {
      assert t[i] in c;
    }
  }

  lemma StemShape(p: Platform, value: string)
    ensures AllNameChars(Stem(p, value)) && 0 < |Stem(p, value)| <= 240 && IsAlnum(Stem(p, value)[0])
  {
    NormalizedShape(p, value);
    var n := Normalized(p, value);
    TrimRightKeeps(if |n| > 240 then n[..240] else n, IsDotOrHyphen);
  }

  /** For every string: at most 253 characters of [a-z0-9.-], alphanumeric at both ends. */
  lemma ResourceNameShape(p: Platform, value: string)
    ensures var r := ResourceName(p, value); AllNameChars(r) && Edged(r) && |r| <= 253
  {
    NormalizedShape(p, value);
    StemShape(p, value);
    var d := Digest(p, value, 12);
    assert IsHex(d[11]) && Hashed(p, value)[|Stem(p, value)| + 12] == d[11];
  }

  lemma UndottedShape(s: string)
    requires AllNameChars(s) && Edged(s)
    ensures LabelShape(Undotted(s)) && |Undotted(s)| == |s|
  {
  }

  /** For every string the key name is a DNS-1123 label of at most 63 characters. */
  lemma KeyNameIsLabel(p: Platform, value: string)
    ensures IsLabel(KeyName(p, value))
  {
    ResourceNameShape(p, value);
    UndottedShape(ResourceName(p, value));
    var name := Undotted(ResourceName(p, value));
    if |name| > 63 {
      TrimRightKeeps(name[..50], IsHyphen);
      var d, r := Digest(p, value, 12), KeyName(p, value);
      assert IsHex(d[11]) && r[|r| - 1] == d[11];
    }
  }

  // ----- Fixed points -----

  lemma CollapseFixed(s: string)
    requires AllNameChars(s)
    ensures Collapse(s, false) == s
  {
    if s != [] {
      CollapseFixed(s[1..]);
    }
  }

  lemma NameNeedsNoTrimming(s: string)
    requires Edged(s)
    ensures TrimSpace(s) == s && Trim(s, IsDotOrHyphen) == s
  {
    TrimKeeps(s, IsSpace);
    TrimKeeps(s, IsDotOrHyphen);
  }

  lemma LowerFixed(p: Platform, s: string)
    requires AllNameChars(s)
    ensures Lower(p, s) == s
  {
    forall i | 0 <= i < |s| ensures p.lower(s[i]) == s[i] {
      assert IsNameChar(s[i]) && Genuine(p);
    }
  }

  lemma SubdomainIsVerbatim(p: Platform, s: string)
    requires IsSubdomain(s)
    ensures Verbatim(p, s) && Normalized(p, s) == s
  {
    NameNeedsNoTrimming(s);
    LowerFixed(p, s);
    CollapseFixed(s);
  }

  /** A resource name that is a DNS-1123 subdomain names itself. */
  lemma ResourceNameFixedPoint(p: Platform, value: string)
    requires IsSubdomain(ResourceName(p, value))
    ensures ResourceName(p, ResourceName(p, value)) == ResourceName(p, value)
  {
    SubdomainIsVerbatim(p, ResourceName(p, value));
  }

  // ----- Exactly when two identities share a name -----

  lemma IdentityHasNoSpace(s: string)
    requires IsIdentity(s)
    ensures TrimSpace(s) == s
  {
    assert IsIdentityChar(s[0]) && IsIdentityChar(s[|s| - 1]);
    TrimKeeps(s, IsSpace);
  }

  /** One of the names is spelled out by the other identity, or two digests collide under one stem. */
  predicate NamesCollide(p: Platform, x: string, y: string) {
    || (Verbatim(p, x) && !Verbatim(p, y) && x == Hashed(p, y))
    || (Verbatim(p, y) && !Verbatim(p, x) && y == Hashed(p, x))
    || (!Verbatim(p, x) && !Verbatim(p, y) && Stem(p, x) == Stem(p, y) && Digest(p, x, 12) == Digest(p, y, 12))
  }

  lemma ResourceNameCollision(p: Platform, x: string, y: string)
    requires IsIdentity(x) && IsIdentity(y) && x != y
    ensures ResourceName(p, x) == ResourceName(p, y) <==> NamesCollide(p, x, y)
  {
    IdentityHasNoSpace(x);
    IdentityHasNoSpace(y);
    SuffixedEqual(Stem(p, x), Digest(p, x, 12), Stem(p, y), Digest(p, y, 12));
  }

  lemma CapitalIsHashed(p: Platform)
    ensures !Verbatim(p, "A") && ResourceName(p, "A") == "a-" + Digest(p, "A", 12)
  {
    IdentityHasNoSpace("A");
    assert Lower(p, "A") == "a";
    assert Collapse("a", false) == "a" by { CollapseFixed("a"); }
    TrimKeeps("a", IsDotOrHyphen);
    TrimRightKeeps("a", IsDotOrHyphen);
    assert Normalized(p, "A") == "a" && Stem(p, "A") == "a";
  }

  /** Whatever the digest, some identity spells another's hashed name. */
  lemma ResourceNameNotInjective(p: Platform)
    ensures var x := ResourceName(p, "A");
            IsIdentity(x) && IsIdentity("A") && x != "A" && ResourceName(p, x) == ResourceName(p, "A")
  {
    CapitalIsHashed(p);
    var d := Digest(p, "A", 12);
    var x := "a-" + d;
    assert |x| == 14 && x[13] == d[11] && IsHex(d[11]);
    forall i | 0 <= i < |x| ensures IsAlnum(x[i]) || x[i] == '-' {
      assert i >= 2 ==> x[i] == d[i - 2];
    }
    SubdomainIsVerbatim(p, x);
  }

  // ----- Exactly when a resource name is a subdomain -----

  lemma StemEnds(p: Platform, value: string)
    ensures Stem(p, value) <= Normalized(p, value) && Edged(Stem(p, value)) && AllNameChars(Stem(p, value))
  {
    NormalizedShape(p, value);
    StemShape(p, value);
    var n, stem := Normalized(p, value), Stem(p, value);
    TrimRightKeeps(if |n| > 240 then n[..240] else n, IsDotOrHyphen);
    assert IsNameChar(stem[|stem| - 1]);
  }

  /** The digest adds no dot: the name is a subdomain exactly when its stem has its dots inside. */
  lemma SubdomainByStem(p: Platform, value: string)
    ensures IsSubdomain(ResourceName(p, value)) <==> DotsInside(Stem(p, value))
  {
    ResourceNameShape(p, value);
    StemEnds(p, value);
    var stem, r, d := Stem(p, value), ResourceName(p, value), Digest(p, value, 12);
    if Verbatim(p, value) {
      assert stem <= r;
      forall i | 0 < i < |stem| - 1 && stem[i] == '.' ensures IsAlnum(stem[i - 1]) && IsAlnum(stem[i + 1]) {
        assert r[i] == '.' && r[i - 1] == stem[i - 1] && r[i + 1] == stem[i + 1];
      }
    } else {
      assert r == stem + "-" + d;
      DigestAddsNoDot(stem, d);
    }
  }

  lemma DigestAddsNoDot(stem: string, d: string)
    requires Edged(stem) && forall i :: 0 <= i < |d| ==> IsHex(d[i])
    ensures DotsInside(stem + "-" + d) <==> DotsInside(stem)
  {
    var r := stem + "-" + d;
    assert forall i :: |stem| < i < |r| ==> r[i] == d[i - |stem| - 1];
    if DotsInside(stem) {
      forall i | 0 < i < |r| - 1 && r[i] == '.' ensures IsAlnum(r[i - 1]) && IsAlnum(r[i + 1]) {
        assert i < |stem| && stem[i] == '.' && stem[|stem| - 1] != '.';
        assert i < |stem| - 1 && r[i - 1] == stem[i - 1] && r[i + 1] == stem[i + 1];
      }
    }
    if DotsInside(r) {
      forall i | 0 < i < |stem| - 1 && stem[i] == '.' ensures IsAlnum(stem[i - 1]) && IsAlnum(stem[i + 1]) {
        assert r[i] == '.' && r[i - 1] == stem[i - 1] && r[i + 1] == stem[i + 1];
      }
    }
  }

  // ----- The same, read off the identity -----

  predicate IsLetterOrDigit(c: char) { IsAlnum(c) || IsUpperLetter(c) }
  predicate NotAlnum(c: char) { !IsAlnum(c) }
  predicate IsPunctuation(c: char) { !IsLetterOrDigit(c) }

  /** Every dot follows and precedes a letter or digit; before says whether one came before the text. */
  predicate DotsFit(s: string, before: bool) {
    if s == [] then true
    else if s[0] == '.' then before && |s| > 1 && IsAlnum(s[1]) && DotsFit(s[1..], false)
    else DotsFit(s[1..], IsAlnum(s[0]))
  }

  predicate DotFits(s: string, i: nat, before: bool)
    requires i < |s|
  {
    s[i] == '.' ==> (if i == 0 then before else IsAlnum(s[i - 1])) && i + 1 < |s| && IsAlnum(s[i + 1])
  }

  lemma {:induction false} DotsFitExactly(s: string, before: bool)
    ensures DotsFit(s, before) <==> forall i :: 0 <= i < |s| ==> DotFits(s, i, before)
  {
    if s != [] {
      var rest, b := s[1..], s[0] != '.' && IsAlnum(s[0]);
      DotsFitExactly(rest, b);
      forall i | 0 <= i < |rest| ensures DotFits(rest, i, b) <==> DotFits(s, i + 1, before) {
        assert rest[i] == s[i + 1];
      }
      if forall i :: 0 <= i < |s| ==> DotFits(s, i, before) {
        assert DotFits(s, 0, before);
        assert forall i :: 0 <= i < |rest| ==> DotFits(s, i + 1, before) && DotFits(rest, i, b);
      }
      if DotsFit(s, before) {
        forall i | 0 <= i < |s| ensures DotFits(s, i, before) {
          assert i > 0 ==> DotFits(rest, i - 1, b);
        }
      }
    }
  }

  lemma EdgedDotsFit(s: string)
    requires Edged(s)
    ensures DotsFit(s, false) <==> DotsInside(s)
  {
    DotsFitExactly(s, false);
    if DotsInside(s) {
      forall i | 0 <= i < |s| ensures DotFits(s, i, false) {
        assert s[0] != '.' && s[|s| - 1] != '.';
      }
    }
    if DotsFit(s, false) {
      forall i | 0 < i < |s| - 1 && s[i] == '.' ensures IsAlnum(s[i - 1]) && IsAlnum(s[i + 1]) {
        assert DotFits(s, i, false);
      }
    }
  }

  /** Runs become one hyphen, so a dot has the same kind of neighbours before and after. */
  lemma {:induction false} CollapseKeepsDots(s: string, inRun: bool, before: bool)
    requires inRun ==> !before
    ensures DotsFit(Collapse(s, inRun), before) <==> DotsFit(s, before)
    ensures !inRun && s != [] ==> Collapse(s, inRun) != [] && (IsAlnum(Collapse(s, inRun)[0]) <==> IsAlnum(s[0]))
    ensures !inRun && s == [] ==> Collapse(s, inRun) == []
  {
    if s != [] {
      var c := s[0];
      if IsNameChar(c) {
        CollapseKeepsDots(s[1..], false, c != '.' && IsAlnum(c));
        DotsFitCons(c, Collapse(s[1..], false), before);
        DotsFitCons(c, s[1..], before);
        assert s == [c] + s[1..];
      } else {
        var rest := Collapse(s[1..], true);
        CollapseKeepsDots(s[1..], true, false);
        DotsFitCons(c, s[1..], before);
        DotsFitCons('-', rest, before);
        assert s == [c] + s[1..];
        assert Collapse(s, inRun) == if inRun then rest else ['-'] + rest;
      }
    }
  }

  lemma DotsFitCons(c: char, s: string, before: bool)
    ensures DotsFit([c] + s, before) <==>
            if c == '.' then before && s != [] && IsAlnum(s[0]) && DotsFit(s, false) else DotsFit(s, IsAlnum(c))
  {
    assert ([c] + s)[1..] == s;
  }

  lemma {:induction false} CollapseAppend(a: string, t: string, inRun: bool)
    requires a != [] && IsNameChar(a[|a| - 1])
    ensures Collapse(a + t, inRun) == Collapse(a, inRun) + Collapse(t, false)
  {
    assert (a + t)[0] == a[0] && (a + t)[1..] == a[1..] + t;
    if |a| > 1 {
      CollapseAppend(a[1..], t, !IsNameChar(a[0]));
    } else {
      assert a[1..] == [] && [] + t == t;
    }
  }

  lemma {:induction false} CollapseOfPunctuation(s: string, inRun: bool)
    requires forall i :: 0 <= i < |s| ==> NotAlnum(s[i])
    ensures forall i :: 0 <= i < |Collapse(s, inRun)| ==> IsDotOrHyphen(Collapse(s, inRun)[i])
  {
    if s != [] {
      CollapseOfPunctuation(s[1..], !IsNameChar(s[0]));
    }
  }

  lemma {:induction false} CollapseLength(s: string, inRun: bool)
    ensures |Collapse(s, inRun)| <= |s|
  {
    if s != [] {
      CollapseLength(s[1..], !IsNameChar(s[0]));
    }
  }

  /** Text without the punctuation at its end, and that punctuation. */
  lemma CutEnd(s: string) returns (core: string, tail: string)
    requires s != [] && IsAlnum(s[0])
    ensures core == TrimRight(s, NotAlnum) && Edged(core) && s == core + tail
    ensures forall i :: 0 <= i < |tail| ==> NotAlnum(tail[i])
  {
    core := TrimRight(s, NotAlnum);
    TrimRightKeeps(s, NotAlnum);
    TrimRightCuts(s, NotAlnum);
    tail := s[|core|..];
  }

  /** Normalising text that starts with a letter or digit: cut the punctuation at its end, then collapse. */
  lemma TrimmedCollapse(s: string)
    requires s != [] && IsAlnum(s[0])
    ensures Edged(TrimRight(s, NotAlnum))
    ensures Trim(Collapse(s, false), IsDotOrHyphen) == Collapse(TrimRight(s, NotAlnum), false)
  {
    var core, tail := CutEnd(s);
    CollapseAppend(core, tail, false);
    CollapseOfPunctuation(tail, false);
    CollapseEnds(core);
    TrimDrops(Collapse(core, false), Collapse(tail, false), IsDotOrHyphen);
  }

  lemma CollapseEnds(s: string)
    requires Edged(s)
    ensures Edged(Collapse(s, false))
  {
    var n := |s| - 1;
    CollapseKeepsDots(s, false, false);
    if n == 0 {
      assert s == [s[0]];
    } else {
      var a, z := s[..n], [s[n]];
      assert s == a + z;
      CollapseSnoc(a, s[n], false);
    }
  }

  lemma {:induction false} CollapseSnoc(a: string, c: char, inRun: bool)
    requires IsNameChar(c)
    ensures Collapse(a + [c], inRun) == Collapse(a, inRun) + [c]
  {
    if a == [] {
      assert a + [c] == [c] && [c][1..] == [];
    } else {
      assert (a + [c])[0] == a[0] && (a + [c])[1..] == a[1..] + [c];
      CollapseSnoc(a[1..], c, !IsNameChar(a[0]));
    }
  }

  lemma {:induction false} CoreOfLower(p: Platform, s: string)
    requires forall i :: 0 <= i < |s| ==> IsIdentityChar(s[i])
    ensures TrimRight(Lower(p, s), NotAlnum) == Lower(p, TrimRight(s, IsPunctuation))
  {
    if s != [] {
      var n := |s| - 1;
      LowerOfIdentityChar(p, s[n]);
      assert Lower(p, s)[..n] == Lower(p, s[..n]);
      CoreOfLower(p, s[..n]);
    }
  }

  lemma LowerOfIdentityChar(p: Platform, c: char)
    requires IsIdentityChar(c)
    ensures IsAlnum(p.lower(c)) <==> IsLetterOrDigit(c)
    ensures p.lower(c) == '.' <==> c == '.'
  {
    assert Genuine(p) && c as int < 128;
  }

  /** The identity without the punctuation at its end. */
  function Core(identity: string): string { TrimRight(identity, IsPunctuation) }

  /** Every dot of the identity, but for the punctuation at its end, stands between letters or digits. */
  predicate Registrable(identity: string) {
    var core := Core(identity);
    forall i :: 0 < i < |core| - 1 && core[i] == '.' ==> IsLetterOrDigit(core[i - 1]) && IsLetterOrDigit(core[i + 1])
  }

  lemma LowerKeepsDots(p: Platform, s: string)
    requires forall i :: 0 <= i < |s| ==> IsIdentityChar(s[i])
    ensures DotsInside(Lower(p, s)) <==>
            forall i :: 0 < i < |s| - 1 && s[i] == '.' ==> IsLetterOrDigit(s[i - 1]) && IsLetterOrDigit(s[i + 1])
  {
    forall i | 0 <= i < |s|
      ensures (IsAlnum(Lower(p, s)[i]) <==> IsLetterOrDigit(s[i])) && (Lower(p, s)[i] == '.' <==> s[i] == '.')
    {
      LowerOfIdentityChar(p, s[i]);
    }
    var l := Lower(p, s);
    if DotsInside(l) {
      forall i | 0 < i < |s| - 1 && s[i] == '.' ensures IsLetterOrDigit(s[i - 1]) && IsLetterOrDigit(s[i + 1]) {
        assert l[i] == '.';
      }
    } else {
      var i :| 0 < i < |l| - 1 && l[i] == '.' && !(IsAlnum(l[i - 1]) && IsAlnum(l[i + 1]));
      assert s[i] == '.';
    }
  }

  lemma CollapsedDots(s: string)
    requires Edged(s)
    ensures DotsInside(Collapse(s, false)) <==> DotsInside(s)
  {
    CollapseEnds(s);
    EdgedDotsFit(Collapse(s, false));
    CollapseKeepsDots(s, false, false);
    EdgedDotsFit(s);
  }

  lemma StemOfIdentity(p: Platform, identity: string)
    requires IsIdentity(identity)
    ensures Edged(Lower(p, Core(identity))) && Stem(p, identity) == Collapse(Lower(p, Core(identity)), false)
    ensures forall i :: 0 <= i < |Core(identity)| ==> IsIdentityChar(Core(identity)[i])
  {
    IdentityHasNoSpace(identity);
    LowerOfIdentityChar(p, identity[0]);
    TrimmedCollapse(Lower(p, identity));
    CoreOfLower(p, identity);
    TrimRightKeeps(identity, IsPunctuation);
    var n := Collapse(Lower(p, Core(identity)), false);
    CollapseEnds(Lower(p, Core(identity)));
    CollapseLength(Lower(p, Core(identity)), false);
    assert Normalized(p, identity) == n && |n| <= 64;
    TrimRightKeeps(n, IsDotOrHyphen);
  }

  /** The resource name of an identity is a subdomain exactly when the identity is registrable. */
  lemma SubdomainExactly(p: Platform, identity: string)
    requires IsIdentity(identity)
    ensures IsSubdomain(ResourceName(p, identity)) <==> Registrable(identity)
  {
    SubdomainByStem(p, identity);
    StemOfIdentity(p, identity);
    CollapsedDots(Lower(p, Core(identity)));
    LowerKeepsDots(p, Core(identity));
  }

  /** A valid identity whose resource name is never a subdomain. */
  lemma DoubleDotIsNotRegistrable()
    ensures IsIdentity("a..b") && !Registrable("a..b")
  {
    var s := "a..b";
    TrimRightKeeps(s, IsPunctuation);
    assert Core(s) == s && s[1] == '.' && s[2] == '.';
  }

  // ----- What the names are made of -----

  /** A resource name is the normalised text itself if that is a subdomain and the text needed no change;
      otherwise it is the start of it, up to 240 characters without dots and hyphens at the end, a
      hyphen, and twelve digits of the digest of the text as given. */
  lemma ResourceNameMeans(p: Platform, value: string)
    ensures var n, r := Normalized(p, value), ResourceName(p, value);
            if n == TrimSpace(value) && IsSubdomain(n) then r == n
            else exists stem, digits ::
                   && r == stem + "-" + digits && IsCutPrefix(stem, n, 240, IsDotOrHyphen)
                   && |digits| == 12 && digits <= p.sha(value)
  {
    CutPrefix(Normalized(p, value), 240, IsDotOrHyphen);
    var stem, digits := Stem(p, value), Digest(p, value, 12);
    assert IsCutPrefix(stem, Normalized(p, value), 240, IsDotOrHyphen) && digits <= p.sha(value);
  }

  /** A key name is the resource name with hyphens for dots if that fits a label; otherwise the start of
      it, up to 50 characters without hyphens at the end, a hyphen, and twelve digits of the digest. */
  lemma KeyNameMeans(p: Platform, value: string)
    ensures var name, r := Undotted(ResourceName(p, value)), KeyName(p, value);
            if |ResourceName(p, value)| <= 63 then r == name
            else exists stem, digits ::
                   && r == stem + "-" + digits && IsCutPrefix(stem, name, 50, IsHyphen)
                   && |digits| == 12 && digits <= p.sha(value)
  {
    var name := Undotted(ResourceName(p, value));
    CutPrefix(name, 50, IsHyphen);
    if |name| > 63 {
      var stem, digits := TrimRight(name[..50], IsHyphen), Digest(p, value, 12);
      assert IsCutPrefix(stem, name, 50, IsHyphen) && digits <= p.sha(value);
      assert KeyName(p, value) == stem + "-" + digits;
    }
  }

  lemma UndottedMeans(s: string)
    ensures |Undotted(s)| == |s| && forall i :: 0 <= i < |s| ==> Undotted(s)[i] == if s[i] == '.' then '-' else s[i]
  {
  }

  lemma LabelIsSubdomain(s: string)
    requires IsLabel(s)
    ensures IsSubdomain(s) && Undotted(s) == s
  {
    assert forall i :: 0 <= i < |s| ==> IsLabelChar(s[i]);
  }

  /** A text is its own key name exactly when it is a DNS-1123 label. */
  lemma KeyNameFixedPoint(p: Platform, value: string)
    ensures KeyName(p, value) == value <==> IsLabel(value)
  {
    KeyNameIsLabel(p, value);
    if IsLabel(value) {
      LabelIsSubdomain(value);
      SubdomainIsVerbatim(p, value);
    }
  }

  /** Reading on by one character: a name character is kept, and of a run of others one hyphen. */
  lemma {:induction false} CollapseReads(a: string, c: char)
    ensures Collapse(a + [c], false) ==
            Collapse(a, false) + if IsNameChar(c) then [c] else if a != [] && !IsNameChar(a[|a| - 1]) then [] else "-"
  {
    if IsNameChar(c) {
      CollapseSnoc(a, c, false);
    } else {
      CollapseOther(a, c, false);
    }
  }

  lemma {:induction false} CollapseOther(a: string, c: char, inRun: bool)
    requires !IsNameChar(c)
    ensures Collapse(a + [c], inRun) ==
            Collapse(a, inRun) + if (if a == [] then inRun else !IsNameChar(a[|a| - 1])) then [] else "-"
  {
    if a == [] {
      assert a + [c] == [c] && [c][1..] == [];
    } else {
      assert (a + [c])[0] == a[0] && (a + [c])[1..] == a[1..] + [c];
      CollapseOther(a[1..], c, !IsNameChar(a[0]));
    }
  }

  /** Normalising: lower case, runs of other characters collapsed, dots and hyphens trimmed off, and a
      stand-in for nothing. */
  lemma NormalizedMeans(p: Platform, value: string)
    ensures exists t ::
              && IsTrimmed(Collapse(Lower(p, TrimSpace(value)), false), t, IsDotOrHyphen)
              && Normalized(p, value) == if t == "" then "registration" else t
  {
    TrimMeans(Collapse(Lower(p, TrimSpace(value)), false), IsDotOrHyphen);
  }
}
