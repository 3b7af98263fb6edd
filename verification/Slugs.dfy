/** DNS labels for identities and namespaces, and exactly when two of them coincide. */
module Slugs {
  import opened Prelude
  import opened Text
  import opened Templates

  // ----- The slug of an identity -----

  /** Letters and digits stay, every other run becomes one hyphen, and none is written first. */
  function Squeeze(s: string): string {
    if s == [] then []
    else
      var before, c := Squeeze(s[..|s| - 1]), s[|s| - 1];
      if IsAlnum(c) then before + [c]
      else if before != [] && before[|before| - 1] != '-' then before + ['-']
      else before
  }

  function LowerAscii(s: string): string {
    seq(|s|, i requires 0 <= i < |s| => AsciiLower(s[i]))
  }

  function Squeezed(identity: string): string {
    Trim(Squeeze(LowerAscii(identity)), IsHyphen)
  }

  /** At most 54 characters of the value, then eight digits of the digest of the source. */
  function LabelStem(value: string): string {
    Trim(if |value| > 54 then value[..54] else value, IsHyphen)
  }

  function HashLabel(p: Platform, value: string, source: string): string {
    LabelStem(value) + "-" + Digest(p, source, 8)
  }

  predicate PlainIdentity(identity: string) {
    Squeezed(identity) == identity && |identity| <= 63
  }

  function Slug(p: Platform, identity: string): string {
    if PlainIdentity(identity) then identity else HashLabel(p, Squeezed(identity), identity)
  }

  /** The loop of slugIdentity. */
  method SlugIdentity(p: Platform, identity: string) returns (r: Result<string>)
    ensures r == if IsIdentity(identity) then Ok(Slug(p, identity)) else Err(Invalid)
  {
    if !IsIdentity(identity) {
      return Err(Invalid);
    }
    var lower := LowerAscii(identity);
    var normalized, previousHyphen := "", false;
    for i := 0 to |lower|
      invariant normalized == Squeeze(lower[..i])
      invariant previousHyphen <==> normalized != [] && normalized[|normalized| - 1] == '-'
    {
      assert lower[..i + 1][..i] == lower[..i];
      if IsAlnum(lower[i]) {
        normalized, previousHyphen := normalized + [lower[i]], false;
      } else if !previousHyphen && |normalized| != 0 {
        normalized, previousHyphen := normalized + ['-'], true;
      }
    }
    assert lower[..|lower|] == lower;
    var value := Trim(normalized, IsHyphen);
    if value != identity || |value| > 63 {
      value := HashLabel(p, value, identity);
    }
    return Ok(value);
  }

  lemma {:induction false} SqueezeShape(s: string)
    requires s != [] && IsAlnum(s[0])
    ensures AllLabelChars(Squeeze(s)) && Squeeze(s) != [] && Squeeze(s)[0] == s[0]
  {
    if |s| > 1 {
      assert s[..|s| - 1][0] == s[0];
      SqueezeShape(s[..|s| - 1]);
    }
  }

  lemma SqueezedShape(identity: string)
    requires IsIdentity(identity)
    ensures LabelShape(Squeezed(identity))
  {
    var lower := LowerAscii(identity);
    SqueezeShape(lower);
    TrimKeeps(Squeeze(lower), IsHyphen);
    var t := Squeezed(identity);
    forall i | 0 <= i < |t| ensures IsLabelChar(t[i]) {
      assert t[i] in Squeeze(lower);
    }
  }

  lemma HashLabelIsLabel(p: Platform, value: string, source: string)
    requires LabelShape(value)
    ensures IsLabel(HashLabel(p, value, source))
  {
    var cut := if |value| > 54 then value[..54] else value;
    TrimKeeps(cut, IsHyphen);
    var stem, d, r := LabelStem(value), Digest(p, source, 8), HashLabel(p, value, source);
    forall i | 0 <= i < |r| ensures IsLabelChar(r[i]) {
      if i < |stem| {
        assert stem[i] in cut;
      } else if i > |stem| {
        assert r[i] == d[i - |stem| - 1];
      }
    }
    assert r[|r| - 1] == d[7] && IsHex(d[7]);
  }

  /** The slug of every valid identity is a DNS-1123 label. */
  lemma SlugIsLabel(p: Platform, identity: string)
    requires IsIdentity(identity)
    ensures IsLabel(Slug(p, identity))
  {
    SqueezedShape(identity);
    HashLabelIsLabel(p, Squeezed(identity), identity);
  }

  /** One identity spells the other's hashed slug, or two digests collide under one stem. */
  predicate SlugsCollide(p: Platform, x: string, y: string) {
    || (PlainIdentity(x) && !PlainIdentity(y) && x == HashLabel(p, Squeezed(y), y))
    || (PlainIdentity(y) && !PlainIdentity(x) && y == HashLabel(p, Squeezed(x), x))
    || (!PlainIdentity(x) && !PlainIdentity(y) && LabelStem(Squeezed(x)) == LabelStem(Squeezed(y))
        && Digest(p, x, 8) == Digest(p, y, 8))
  }

  lemma SlugCollision(p: Platform, x: string, y: string)
    requires x != y
    ensures Slug(p, x) == Slug(p, y) <==> SlugsCollide(p, x, y)
  {
    SuffixedEqual(LabelStem(Squeezed(x)), Digest(p, x, 8), LabelStem(Squeezed(y)), Digest(p, y, 8));
  }

  // ----- What a slug is made of -----

  /** The runs of letters and digits, in order. */
  function Words(s: string): seq<string> {
    if s == [] then []
    else
      var before, c := Words(s[..|s| - 1]), s[|s| - 1];
      if !IsAlnum(c) then before
      else if |s| > 1 && IsAlnum(s[|s| - 2]) && before != [] then
        before[..|before| - 1] + [before[|before| - 1] + [c]]
      else before + [[c]]
  }

  function Hyphenated(words: seq<string>): string {
    if words == [] then []
    else if |words| == 1 then words[0]
    else Hyphenated(words[..|words| - 1]) + "-" + words[|words| - 1]
  }

  /** Squeezing text gives its words with one hyphen between them, and one more if it does not end in a word. */
  lemma {:induction false} SqueezeIsWords(s: string)
    ensures Squeeze(s) == Hyphenated(Words(s)) + if Words(s) != [] && !IsAlnum(s[|s| - 1]) then "-" else []
    ensures Words(s) != [] ==> s != [] && Hyphenated(Words(s)) != [] && IsAlnum(Hyphenated(Words(s))[0]) &&
                               IsAlnum(Hyphenated(Words(s))[|Hyphenated(Words(s))| - 1])
  {
    if s != [] {
      var front, c := s[..|s| - 1], s[|s| - 1];
      SqueezeIsWords(front);
      var words := Words(front);
      if !IsAlnum(c) {
      } else if |s| > 1 && IsAlnum(s[|s| - 2]) && words != [] {
        var n := |words| - 1;
        assert words == words[..n] + [words[n]];
        LastWordGrows(words[..n], words[n], c);
      } else {
        HyphenatedSnoc(words, [c]);
      }
    }
  }

  lemma HyphenatedSnoc(words: seq<string>, word: string)
    ensures Hyphenated(words + [word]) == if words == [] then word else Hyphenated(words) + "-" + word
  {
    assert (words + [word])[..|words|] == words;
  }

  lemma Associates(a: string, b: string, c: string)
    ensures (a + b) + c == a + (b + c)
  {
  }

  lemma LastWordGrows(front: seq<string>, word: string, c: char)
    ensures Hyphenated(front + [word + [c]]) == Hyphenated(front + [word]) + [c]
  {
    HyphenatedSnoc(front, word);
    HyphenatedSnoc(front, word + [c]);
    Associates(Hyphenated(front) + "-", word, [c]);
  }

  /** What a slug hashes from: the words of the identity in lower case, joined by single hyphens. */
  lemma SqueezedMeans(identity: string)
    ensures Squeezed(identity) == Hyphenated(Words(LowerAscii(identity)))
  {
    var lower := LowerAscii(identity);
    var words := Words(lower);
    SqueezeIsWords(lower);
    if words != [] {
      TrimDrops(Hyphenated(words), if IsAlnum(lower[|lower| - 1]) then [] else "-", IsHyphen);
    }
  }

  /** The start of the value, up to 54 characters without hyphens at the end, a hyphen, and eight digits. */
  ghost predicate IsHashOf(p: Platform, short: string, value: string, source: string) {
    exists stem, digits ::
      && short == stem + "-" + digits && IsCutPrefix(stem, value, 54, IsHyphen)
      && |digits| == 8 && digits <= p.sha(source)
  }

  lemma HashLabelMeans(p: Platform, value: string, source: string)
    requires value != [] && IsAlnum(value[0])
    ensures IsHashOf(p, HashLabel(p, value, source), value, source)
  {
    TrimLeftKeeps(if |value| > 54 then value[..54] else value, IsHyphen);
    CutPrefix(value, 54, IsHyphen);
    var stem, digits := LabelStem(value), Digest(p, source, 8);
    assert IsCutPrefix(stem, value, 54, IsHyphen) && digits <= p.sha(source);
    assert HashLabel(p, value, source) == stem + "-" + digits;
  }

  /** The slug of an identity is the identity itself if that is its words joined by single hyphens and fits
      a label, and otherwise the start of those and a digest of the identity as given. */
  lemma SlugMeans(p: Platform, identity: string)
    requires IsIdentity(identity)
    ensures var joined := Hyphenated(Words(LowerAscii(identity)));
            if identity == joined && |identity| <= 63 then Slug(p, identity) == identity
            else IsHashOf(p, Slug(p, identity), joined, identity)
  {
    SqueezedMeans(identity);
    SqueezedShape(identity);
    HashLabelMeans(p, Squeezed(identity), identity);
  }

  /** A shortened namespace likewise. */
  lemma ShortLabelMeans(p: Platform, value: string)
    requires value != [] && IsAlnum(value[0])
    ensures if |value| <= 63 then ShortLabel(p, value) == value else IsHashOf(p, ShortLabel(p, value), value, value)
  {
    HashLabelMeans(p, value, value);
  }

  /** A label value of at most 63 characters is kept; of a longer one the first 54 without punctuation at
      their ends are, with a digest of the whole. */
  lemma ShortValueMeans(p: Platform, value: string)
    ensures if |value| <= 63 then ShortValue(p, value) == value
            else exists t, digits :: IsTrimmed(value[..54], t, IsValuePunctuation) &&
                   ShortValue(p, value) == t + "-" + digits && |digits| == 8 && digits <= p.sha(value)
  {
    if |value| > 63 {
      TrimMeans(value[..54], IsValuePunctuation);
      var t, digits := Trim(value[..54], IsValuePunctuation), Digest(p, value, 8);
      assert IsTrimmed(value[..54], t, IsValuePunctuation) && digits <= p.sha(value);
      assert ShortValue(p, value) == t + "-" + digits;
    }
  }

  // ----- A slug is its own slug -----

  /** No two hyphens in a row. */
  ghost predicate Spaced(s: string) {
    forall i :: 0 <= i < |s| - 1 ==> !(s[i] == '-' && s[i + 1] == '-')
  }

  lemma {:induction false} SqueezeIsSpaced(s: string)
    ensures Spaced(Squeeze(s))
  {
    if s != [] {
      SqueezeIsSpaced(s[..|s| - 1]);
    }
  }

  lemma {:induction false} SqueezeFixed(s: string)
    requires s != [] && IsAlnum(s[0]) && AllLabelChars(s) && Spaced(s)
    ensures Squeeze(s) == s
  {
    var n := |s| - 1;
    if n > 0 {
      var before := s[..n];
      assert forall i :: 0 <= i < n ==> before[i] == s[i];
      SqueezeFixed(before);
      assert IsLabelChar(s[n]) && before[n - 1] == s[n - 1];
      assert s == before + [s[n]];
    } else {
      assert s[..0] == [] && s == [s[0]];
    }
  }

  lemma PlainExactly(s: string)
    requires IsLabel(s) && Spaced(s)
    ensures PlainIdentity(s) && IsIdentity(s)
  {
    assert forall i :: 0 <= i < |s| ==> IsLabelChar(s[i]);
    assert LowerAscii(s) == s;
    SqueezeFixed(s);
    TrimKeeps(s, IsHyphen);
  }

  /** Trimming text that starts with a letter or digit only cuts its end. */
  lemma TrimIsPrefix(s: string)
    requires s != [] && IsAlnum(s[0])
    ensures Trim(s, IsHyphen) <= s
  {
    TrimLeftKeeps(s, IsHyphen);
    TrimRightKeeps(s, IsHyphen);
  }

  lemma HashedIsSpaced(p: Platform, identity: string)
    requires IsIdentity(identity)
    ensures Spaced(HashLabel(p, Squeezed(identity), identity))
  {
    var lower, value := LowerAscii(identity), Squeezed(identity);
    SqueezeShape(lower);
    SqueezeIsSpaced(lower);
    TrimIsPrefix(Squeeze(lower));
    SqueezedShape(identity);
    var cut := if |value| > 54 then value[..54] else value;
    TrimIsPrefix(cut);
    TrimKeeps(cut, IsHyphen);
    var stem, d, r := LabelStem(value), Digest(p, identity, 8), HashLabel(p, value, identity);
    assert stem <= Squeeze(lower);
    forall i | 0 <= i < |r| - 1 ensures !(r[i] == '-' && r[i + 1] == '-') {
      if i + 1 < |stem| {
        assert stem[i] == Squeeze(lower)[i] && stem[i + 1] == Squeeze(lower)[i + 1];
      } else if i >= |stem| {
        assert r[i + 1] == d[i - |stem|] && IsHex(d[i - |stem|]);
      } else {
        assert r[i] == stem[|stem| - 1];
      }
    }
  }

  /** Every slug is a valid identity and its own slug, so an identity that is not its own slug always
      shares it with the identity that spells it. */
  lemma SlugIsItsOwnSlug(p: Platform, identity: string)
    requires IsIdentity(identity)
    ensures IsIdentity(Slug(p, identity)) && Slug(p, Slug(p, identity)) == Slug(p, identity)
    ensures Slug(p, identity) == identity <==> PlainIdentity(identity)
  {
    SlugIsLabel(p, identity);
    if !PlainIdentity(identity) {
      HashedIsSpaced(p, identity);
      PlainExactly(Slug(p, identity));
    }
  }

  /** Some identity is not its own slug. */
  lemma CapitalIsNotPlain()
    ensures IsIdentity("A") && !PlainIdentity("A")
  {
    assert LowerAscii("A")[0] == 'a';
    SqueezeShape(LowerAscii("A"));
    TrimKeeps(Squeeze(LowerAscii("A")), IsHyphen);
    assert Squeezed("A")[0] == 'a';
  }

  // ----- Shortened labels and label values -----

  function ShortLabel(p: Platform, value: string): string {
    if |value| <= 63 then value else HashLabel(p, value, value)
  }

  lemma ShortLabelIsLabel(p: Platform, value: string)
    requires LabelShape(value)
    ensures IsLabel(ShortLabel(p, value))
  {
    HashLabelIsLabel(p, value, value);
  }

  /** One name spells the other's shortened form, or two digests collide under one stem. */
  predicate ShortLabelsCollide(p: Platform, v: string, w: string) {
    || (|v| <= 63 < |w| && v == HashLabel(p, w, w))
    || (|w| <= 63 < |v| && w == HashLabel(p, v, v))
    || (|v| > 63 && |w| > 63 && LabelStem(v) == LabelStem(w) && Digest(p, v, 8) == Digest(p, w, 8))
  }

  lemma ShortLabelCollision(p: Platform, v: string, w: string)
    requires v != w
    ensures ShortLabel(p, v) == ShortLabel(p, w) <==> ShortLabelsCollide(p, v, w)
  {
    SuffixedEqual(LabelStem(v), Digest(p, v, 8), LabelStem(w), Digest(p, w, 8));
  }

  predicate IsValueEdge(c: char) { IsAlnum(c) || IsUpperLetter(c) }
  predicate IsValueChar(c: char) { IsValueEdge(c) || c == '-' || c == '_' || c == '.' }
  predicate IsValuePunctuation(c: char) { c == '-' || c == '_' || c == '.' }

  ghost predicate ValueShape(s: string) {
    && (forall i :: 0 <= i < |s| ==> IsValueChar(s[i]))
    && (s != [] ==> IsValueEdge(s[0]) && IsValueEdge(s[|s| - 1]))
  }

  /** A Kubernetes label value. */
  predicate IsLabelValue(s: string) {
    && |s| <= 63 && (forall i :: 0 <= i < |s| ==> IsValueChar(s[i]))
    && (s != [] ==> IsValueEdge(s[0]) && IsValueEdge(s[|s| - 1]))
  }

  function ShortValue(p: Platform, value: string): string {
    if |value| <= 63 then value
    else Trim(value[..54], IsValuePunctuation) + "-" + Digest(p, value, 8)
  }

  lemma ShortValueIsLabelValue(p: Platform, value: string)
    requires ValueShape(value)
    ensures IsLabelValue(ShortValue(p, value))
  {
    if |value| > 63 {
      var cut := value[..54];
      TrimKeeps(cut, IsValuePunctuation);
      var stem, d, r := Trim(cut, IsValuePunctuation), Digest(p, value, 8), ShortValue(p, value);
      forall i | 0 <= i < |r| ensures IsValueChar(r[i]) {
        if i < |stem| {
          assert stem[i] in cut;
        } else if i > |stem| {
          assert r[i] == d[i - |stem| - 1];
        }
      }
      assert r[|r| - 1] == d[7] && IsHex(d[7]);
    }
  }

  // ----- Filled templates -----

  ghost predicate Shaped(s: string, inner: char -> bool, edge: char -> bool) {
    (forall i :: 0 <= i < |s| ==> inner(s[i])) && (s != [] ==> edge(s[0]) && edge(s[|s| - 1]))
  }

  lemma FillFirst(ts: seq<Token>, slug: string, name: string, edge: char -> bool)
    requires ts != [] && slug != [] && name != [] && edge(slug[0]) && edge(name[0])
    ensures Fill(ts, "identity", "blueprint") != [] && Fill(ts, slug, name) != []
    ensures edge(Fill(ts, "identity", "blueprint")[0]) ==> edge(Fill(ts, slug, name)[0])
  {
    assert Part(ts[0], slug, name) != [] && Part(ts[0], "identity", "blueprint") != [];
  }

  lemma FillLast(ts: seq<Token>, slug: string, name: string, edge: char -> bool)
    requires ts != [] && slug != [] && name != [] && edge(slug[|slug| - 1]) && edge(name[|name| - 1])
    ensures var a, b := Fill(ts, "identity", "blueprint"), Fill(ts, slug, name);
            a != [] && b != [] && (edge(a[|a| - 1]) ==> edge(b[|b| - 1]))
  {
    FillEnd(ts, "identity", "blueprint");
    FillEnd(ts, slug, name);
  }

  lemma FillEnd(ts: seq<Token>, slug: string, name: string)
    requires ts != [] && slug != [] && name != []
    ensures var a, x := Fill(ts, slug, name), Part(ts[|ts| - 1], slug, name);
            a != [] && x != [] && a[|a| - 1] == x[|x| - 1]
  {
    FillSnoc(ts, slug, name);
    LastOf(Fill(ts[..|ts| - 1], slug, name), Part(ts[|ts| - 1], slug, name));
  }

  lemma LastOf(a: string, b: string)
    requires b != []
    ensures (a + b)[|a + b| - 1] == b[|b| - 1]
  {
  }

  /** If the sample rendering has a shape, so has every rendering with shaped, non-empty words. */
  lemma FillShaped(ts: seq<Token>, slug: string, name: string, inner: char -> bool, edge: char -> bool)
    requires Shaped(Fill(ts, "identity", "blueprint"), inner, edge)
    requires slug != [] && name != [] && Shaped(slug, inner, edge) && Shaped(name, inner, edge)
    ensures Shaped(Fill(ts, slug, name), inner, edge)
    ensures Fill(ts, slug, name) == [] <==> Fill(ts, "identity", "blueprint") == []
  {
    FillChars(ts, slug, name, inner);
    if ts != [] {
      FillFirst(ts, slug, name, edge);
      FillLast(ts, slug, name, edge);
    }
  }

  lemma {:induction false} FillChars(ts: seq<Token>, slug: string, name: string, inner: char -> bool)
    requires forall i :: 0 <= i < |Fill(ts, "identity", "blueprint")| ==> inner(Fill(ts, "identity", "blueprint")[i])
    requires forall i :: 0 <= i < |slug| ==> inner(slug[i])
    requires forall i :: 0 <= i < |name| ==> inner(name[i])
    ensures forall i :: 0 <= i < |Fill(ts, slug, name)| ==> inner(Fill(ts, slug, name)[i])
  {
    if ts != [] {
      var sample, rest := Fill(ts, "identity", "blueprint"), Fill(ts[1..], "identity", "blueprint");
      var part := Part(ts[0], "identity", "blueprint");
      assert sample == part + rest;
      assert forall i :: 0 <= i < |rest| ==> rest[i] == sample[|part| + i];
      assert ts[0].Ch? ==> part[0] == sample[0];
      FillChars(ts[1..], slug, name, inner);
    }
  }

  lemma {:induction false} FillSnoc(ts: seq<Token>, slug: string, name: string)
    requires ts != []
    ensures Fill(ts, slug, name) == Fill(ts[..|ts| - 1], slug, name) + Part(ts[|ts| - 1], slug, name)
  {
    var n := |ts| - 1;
    if n == 0 {
      assert ts[1..] == [] && ts[..0] == [];
    } else {
      var first, last := Part(ts[0], slug, name), Part(ts[n], slug, name);
      var middle := Fill(ts[1..n], slug, name);
      FillSnoc(ts[1..], slug, name);
      assert ts[1..][..n - 1] == ts[1..n] && ts[1..][n - 1] == ts[n];
      assert ts[..n][1..] == ts[1..n] && ts[..n][0] == ts[0];
      assert Fill(ts[..n], slug, name) == first + middle;
      assert Fill(ts, slug, name) == first + (middle + last);
    }
  }
}
