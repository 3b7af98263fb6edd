/** Strings, DNS names and digests, as the naming code uses them. */
module Text {

  const NUL: char := 0 as char

  predicate IsDigit(c: char) { '0' <= c <= '9' }
  predicate IsLowerLetter(c: char) { 'a' <= c <= 'z' }
  predicate IsUpperLetter(c: char) { 'A' <= c <= 'Z' }
  predicate IsAlnum(c: char) { IsDigit(c) || IsLowerLetter(c) }
  predicate IsHex(c: char) { IsDigit(c) || 'a' <= c <= 'f' }
  predicate IsLabelChar(c: char) { IsAlnum(c) || c == '-' }
  predicate IsNameChar(c: char) { IsLabelChar(c) || c == '.' }

  function AsciiLower(c: char): char {
    if IsUpperLetter(c) then ((c as int) + 32) as char else c
  }

  /** The white space strings.TrimSpace removes. */
  predicate IsSpace(c: char) {
    var n := c as int;
    || 9 <= n <= 13 || n == 32 || n == 0x85 || n == 0xA0 || n == 0x1680 || 0x2000 <= n <= 0x200A
    || n == 0x2028 || n == 0x2029 || n == 0x202F || n == 0x205F || n == 0x3000
  }

  predicate AllLabelChars(s: string) { forall i :: 0 <= i < |s| ==> IsLabelChar(s[i]) }
  predicate AllNameChars(s: string) { forall i :: 0 <= i < |s| ==> IsNameChar(s[i]) }

  predicate Edged(s: string) {
    |s| > 0 && IsAlnum(s[0]) && IsAlnum(s[|s| - 1])
  }

  /** A DNS-1123 label apart from its length: section 2.1 of RFC 1123, lower case only. */
  predicate LabelShape(s: string) { AllLabelChars(s) && Edged(s) }

  predicate IsLabel(s: string) { LabelShape(s) && |s| <= 63 }

  /** Labels joined by single dots, 253 characters at most. */
  predicate IsSubdomain(s: string) {
    && 0 < |s| <= 253 && IsAlnum(s[0]) && IsAlnum(s[|s| - 1])
    && (forall i :: 0 <= i < |s| ==> IsNameChar(s[i]))
    && DotsInside(s)
  }

  /** Every dot but a first or last one stands between letters or digits. */
  predicate DotsInside(s: string) {
    forall i :: 0 < i < |s| - 1 && s[i] == '.' ==> IsAlnum(s[i - 1]) && IsAlnum(s[i + 1])
  }

  /** Identities match ^[A-Za-z0-9][A-Za-z0-9._@-]{0,63}$. */
  predicate IsIdentityChar(c: char) {
    IsAlnum(c) || IsUpperLetter(c) || c == '.' || c == '_' || c == '@' || c == '-'
  }

  predicate IsIdentity(s: string) {
    && 0 < |s| <= 64 && (IsAlnum(s[0]) || IsUpperLetter(s[0]))
    && forall i :: 0 <= i < |s| ==> IsIdentityChar(s[i])
  }

  /** Service names match ^[a-z][a-z0-9-]{0,31}$. */
  predicate IsServiceName(s: string) {
    0 < |s| <= 32 && IsLowerLetter(s[0]) && forall i :: 0 <= i < |s| ==> IsLabelChar(s[i])
  }

  // ----- Trimming -----

  function TrimLeft(s: string, cut: char -> bool): string {
    if s != [] && cut(s[0]) then TrimLeft(s[1..], cut) else s
  }

  function TrimRight(s: string, cut: char -> bool): string {
    if s != [] && cut(s[|s| - 1]) then TrimRight(s[..|s| - 1], cut) else s
  }

  function Trim(s: string, cut: char -> bool): string {
    TrimRight(TrimLeft(s, cut), cut)
  }

  lemma TrimLeftKeeps(s: string, cut: char -> bool)
    ensures |TrimLeft(s, cut)| <= |s| && TrimLeft(s, cut) == s[|s| - |TrimLeft(s, cut)|..]
    ensures TrimLeft(s, cut) != [] ==> !cut(TrimLeft(s, cut)[0])
    ensures s != [] && !cut(s[0]) ==> TrimLeft(s, cut) == s
  {
  }

  lemma TrimRightKeeps(s: string, cut: char -> bool)
    ensures TrimRight(s, cut) <= s
    ensures TrimRight(s, cut) != [] ==> !cut(TrimRight(s, cut)[|TrimRight(s, cut)| - 1])
    ensures s != [] && !cut(s[0]) ==> TrimRight(s, cut) != []
    ensures s != [] && !cut(s[|s| - 1]) ==> TrimRight(s, cut) == s
  {
  }

  lemma TrimKeeps(s: string, cut: char -> bool)
    ensures forall c :: c in Trim(s, cut) ==> c in s
    ensures |Trim(s, cut)| <= |s|
    ensures Trim(s, cut) != [] ==> !cut(Trim(s, cut)[0]) && !cut(Trim(s, cut)[|Trim(s, cut)| - 1])
    ensures s != [] && !cut(s[0]) ==> Trim(s, cut) != [] && Trim(s, cut)[0] == s[0]
    ensures s != [] && !cut(s[0]) && !cut(s[|s| - 1]) ==> Trim(s, cut) == s
  {
    TrimLeftKeeps(s, cut);
    TrimRightKeeps(TrimLeft(s, cut), cut);
  }

  lemma {:induction false} TrimLeftCuts(s: string, cut: char -> bool)
    ensures var t := TrimLeft(s, cut);
            |t| <= |s| && s[|s| - |t|..] == t && forall i :: 0 <= i < |s| - |t| ==> cut(s[i])
  {
    if s != [] && cut(s[0]) {
      TrimLeftCuts(s[1..], cut);
    }
  }

  lemma {:induction false} TrimRightCuts(s: string, cut: char -> bool)
    ensures TrimRight(s, cut) <= s
    ensures forall i :: |TrimRight(s, cut)| <= i < |s| ==> cut(s[i])
  {
    if s != [] && cut(s[|s| - 1]) {
      TrimRightCuts(s[..|s| - 1], cut);
    }
  }

  /** t is s without the cut characters at its two ends. */
  ghost predicate IsTrimmed(s: string, t: string, cut: char -> bool) {
    exists i, j :: TrimmedTo(s, t, cut, i, j)
  }

  ghost predicate TrimmedTo(s: string, t: string, cut: char -> bool, i: nat, j: nat) {
    && i <= j <= |s| && t == s[i..j] && (t != [] ==> !cut(t[0]) && !cut(t[|t| - 1]))
    && (forall m :: 0 <= m < i ==> cut(s[m])) && (forall m :: j <= m < |s| ==> cut(s[m]))
  }

  lemma TrimMeans(s: string, cut: char -> bool)
    ensures IsTrimmed(s, Trim(s, cut), cut)
  {
    var left := TrimLeft(s, cut);
    TrimLeftCuts(s, cut);
    TrimRightCuts(left, cut);
    TrimKeeps(s, cut);
    var i, t := |s| - |left|, Trim(s, cut);
    assert t == left[..|t|] == s[i..i + |t|];
    forall m | i + |t| <= m < |s| ensures cut(s[m]) {
      assert s[m] == left[m - i];
    }
    assert TrimmedTo(s, t, cut, i, i + |t|);
  }

  lemma {:induction false} TrimRightDrops(u: string, v: string, cut: char -> bool)
    requires u != [] && !cut(u[|u| - 1]) && forall i :: 0 <= i < |v| ==> cut(v[i])
    ensures TrimRight(u + v, cut) == u
  {
    if v == [] {
      assert u + v == u;
    } else {
      var n := |v| - 1;
      assert (u + v)[..|u + v| - 1] == u + v[..n];
      TrimRightDrops(u, v[..n], cut);
    }
  }

  lemma TrimDrops(u: string, v: string, cut: char -> bool)
    requires u != [] && !cut(u[0]) && !cut(u[|u| - 1]) && forall i :: 0 <= i < |v| ==> cut(v[i])
    ensures Trim(u + v, cut) == u
  {
    TrimRightDrops(u, v, cut);
    assert (u + v)[0] == u[0];
    TrimLeftKeeps(u + v, cut);
  }

  /** The longest prefix of at most n characters that does not end in a cut character. */
  ghost predicate IsCutPrefix(prefix: string, s: string, n: nat, cut: char -> bool) {
    && prefix <= s && |prefix| <= n && (prefix != [] ==> !cut(prefix[|prefix| - 1]))
    && forall i :: |prefix| <= i < |s| && i < n ==> cut(s[i])
  }

  lemma CutPrefix(s: string, n: nat, cut: char -> bool)
    ensures IsCutPrefix(TrimRight(if |s| > n then s[..n] else s, cut), s, n, cut)
  {
    var short := if |s| > n then s[..n] else s;
    TrimRightCuts(short, cut);
    TrimRightKeeps(short, cut);
    assert forall i :: 0 <= i < |short| ==> short[i] == s[i];
  }

  predicate IsHyphen(c: char) { c == '-' }
  predicate IsDotOrHyphen(c: char) { c == '.' || c == '-' }

  // ----- Digests and letter case -----

  /** SHA-256 in hexadecimal and the Unicode lower-case mapping, about which only this is known. */
  datatype Functions = Functions(sha: string -> string, lower: char -> char)

  ghost predicate Genuine(p: Functions) {
    && (forall s :: |p.sha(s)| == 64)
    && (forall s, i :: 0 <= i < 64 ==> |p.sha(s)| == 64 && IsHex(p.sha(s)[i]))
    && (forall c :: c as int < 128 ==> p.lower(c) == AsciiLower(c))
  }

  type Platform = p: Functions | Genuine(p)
    ghost witness Functions((s: string) => seq(64, i => '0'), (c: char) => AsciiLower(c))

  /** The first n digits of the digest of a string. */
  function Digest(p: Platform, s: string, n: nat): (d: string)
    requires n <= 64
    ensures |d| == n && d <= p.sha(s) && forall i :: 0 <= i < n ==> IsHex(d[i])
  {
    p.sha(s)[..n]
  }

  /** A shortened name: a stem, a hyphen, and digits of a digest. */
  lemma SuffixedEqual(a: string, d: string, b: string, e: string)
    requires |d| == |e|
    ensures a + "-" + d == b + "-" + e <==> a == b && d == e
  {
    if a + "-" + d == b + "-" + e {
      assert |a| == |b|;
      assert a == (a + "-" + d)[..|a|] && d == (a + "-" + d)[|a| + 1..];
      assert b == (b + "-" + e)[..|b|] && e == (b + "-" + e)[|b| + 1..];
    }
  }

  // ----- Parts joined by NUL -----

  lemma SplitAtNul(a: string, b: string, c: string, d: string)
    requires a + [NUL] + b == c + [NUL] + d
    requires NUL !in a && NUL !in c
    ensures a == c && b == d
  {
    assert (a + [NUL] + b)[|a|] == NUL && (c + [NUL] + d)[|c|] == NUL;
    assert |a| == |c|;
    assert a == (a + [NUL] + b)[..|a|] && b == (a + [NUL] + b)[|a| + 1..];
  }

  /** Two parts without NUL are the only two parts of their join. */
  lemma TwoParts(a: string, b: string, c: string, d: string)
    requires a + [NUL] + b == c + [NUL] + d
    requires NUL !in a && NUL !in b
    ensures a == c && b == d
  {
    assert multiset(a + [NUL] + b)[NUL] == 1;
    assert multiset(c + [NUL] + d)[NUL] == multiset(c)[NUL] + 1 + multiset(d)[NUL];
    assert multiset(c)[NUL] == 0;
    SplitAtNul(a, b, c, d);
  }

  function Join(a: string, b: string, c: string): string { a + [NUL] + (b + [NUL] + c) }

  /** Three parts without NUL are the only three parts of their join. */
  lemma ThreeParts(a: string, b: string, c: string, x: string, y: string, z: string)
    requires Join(a, b, c) == Join(x, y, z)
    requires NUL !in a && NUL !in b && NUL !in c
    ensures a == x && b == y && c == z
  {
    assert multiset(Join(a, b, c))[NUL] == 2;
    assert multiset(Join(x, y, z))[NUL] == multiset(x)[NUL] + 1 + multiset(y)[NUL] + 1 + multiset(z)[NUL];
    assert multiset(x)[NUL] == 0;
    SplitAtNul(a, b + [NUL] + c, x, y + [NUL] + z);
    TwoParts(b, c, y, z);
  }

  /** The text before and after a NUL. */
  lemma CutAtNul(s: string) returns (a: string, b: string)
    requires NUL in s
    ensures s == a + [NUL] + b
  {
    var i :| 0 <= i < |s| && s[i] == NUL;
    a, b := s[..i], s[i + 1..];
  }
}
