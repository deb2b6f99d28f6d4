/** String operations the components rely on, restricted to ASCII:
    `String.prototype.trim`, `toLowerCase`, `includes` and the char-code sum
    that every `getTagColor` computes with `reduce`. */
module Text {

  /** The ASCII white-space characters that `trim` strips. */
  predicate IsSpace(c: char)
  {
    c == ' ' || c == '\t' || c == '\n' || c == '\r' || c == '\U{000B}' || c == '\U{000C}'
  }

  /** Every character is white space (this includes the empty string). */
  predicate IsBlank(s: string)
  {
    forall i :: 0 <= i < |s| ==> IsSpace(s[i])
  }

  /** The first position at or after `i` that is not white space (or the end). */
  function SkipSpaces(s: string, i: nat): (j: nat)
    requires i <= |s|
    ensures i <= j <= |s|
    ensures j < |s| ==> !IsSpace(s[j])
    ensures forall k :: i <= k < j ==> IsSpace(s[k])
    decreases |s| - i
  {
    if i < |s| && IsSpace(s[i]) then SkipSpaces(s, i + 1) else i
  }

  /** The end of `s[..j]` once its trailing white space is dropped. */
  function SkipSpacesBack(s: string, j: nat): (i: nat)
    requires j <= |s|
    ensures i <= j
    ensures 0 < i ==> !IsSpace(s[i - 1])
    ensures forall k :: i <= k < j ==> IsSpace(s[k])
  {
    if 0 < j && IsSpace(s[j - 1]) then SkipSpacesBack(s, j - 1) else j
  }

  /** Where `trim` cuts: everything before `lo` and from `hi` on is white space, and
      a non-empty middle starts and ends with a non-space character. */
  function TrimBounds(s: string): (b: (nat, nat))
    ensures b.0 <= b.1 <= |s|
    ensures forall k :: 0 <= k < b.0 ==> IsSpace(s[k])
    ensures forall k :: b.1 <= k < |s| ==> IsSpace(s[k])
    ensures b.0 < b.1 ==> !IsSpace(s[b.0]) && !IsSpace(s[b.1 - 1])
  {
    var lo := SkipSpaces(s, 0);
    if lo == |s| then (lo, lo) else (lo, SkipSpacesBack(s, |s|))
  }

  /** `s.trim()`: empty exactly for blank input, otherwise starts and ends with a non-space. */
  function Trim(s: string): (r: string)
    ensures |r| <= |s|
    ensures r == [] <==> IsBlank(s)
    ensures r != [] ==> !IsSpace(r[0]) && !IsSpace(r[|r| - 1])
  {
    var b := TrimBounds(s);
    assert b.0 == b.1 ==> IsBlank(s) by {
      if b.0 == b.1 {
        forall k | 0 <= k < |s| ensures IsSpace(s[k]) { }
      }
    }
    s[b.0..b.1]
  }

  /** Trimming twice is trimming once. */
  lemma TrimIdempotent(s: string)
    ensures Trim(Trim(s)) == Trim(s)
  {
    var r := Trim(s);
    if r != [] {
      assert SkipSpaces(r, 0) == 0;
      assert SkipSpacesBack(r, |r|) == |r|;
      assert r[0..|r|] == r;
    }
  }

  /** The ASCII part of `toLowerCase`: upper-case letters map to lower case. */
  function LowerChar(c: char): (d: char)
    ensures !('A' <= d <= 'Z')
    ensures 'A' <= c <= 'Z' ==> d as int == c as int + 32
    ensures !('A' <= c <= 'Z') ==> d == c
  {
    if 'A' <= c <= 'Z' then (c as int + 32) as char else c
  }

  /** `s.toLowerCase()` on ASCII letters, character by character. */
  function ToLower(s: string): (r: string)
    ensures |r| == |s|
    ensures forall i :: 0 <= i < |s| ==> r[i] == LowerChar(s[i])
  {
    if s == [] then [] else [LowerChar(s[0])] + ToLower(s[1..])
  }

  /** Lowering leaves white space where it was, so blankness is unchanged. */
  lemma LowerKeepsBlank(s: string)
    ensures IsBlank(ToLower(s)) <==> IsBlank(s)
  {
    forall i | 0 <= i < |s| ensures IsSpace(ToLower(s)[i]) <==> IsSpace(s[i]) {
      assert ToLower(s)[i] == LowerChar(s[i]);
    }
  }

  /** Lower-casing is idempotent. */
  lemma LowerIdempotent(s: string)
    ensures ToLower(ToLower(s)) == ToLower(s)
  {
  }

  /** `haystack.includes(needle)`: `needle` occurs as a contiguous block. */
  predicate Contains(haystack: string, needle: string)
  {
    exists i :: 0 <= i <= |haystack| && needle <= haystack[i..]
  }

  /** Being a substring is transitive. */
  lemma ContainsTrans(a: string, b: string, c: string)
    requires Contains(b, a) && Contains(c, b)
    ensures Contains(c, a)
  {
    var i :| 0 <= i <= |b| && a <= b[i..];
    var j :| 0 <= j <= |c| && b <= c[j..];
    assert j + i <= |c|;
    forall k | 0 <= k < |a| ensures a[k] == c[j + i..][k] {
      assert a[k] == b[i..][k] == b[i + k];
      assert b[i + k] == c[j..][i + k];
    }
    assert a <= c[j + i..];
  }

  /** Sum of the character codes, folded from the left as `reduce` does. */
  function CharCodeSum(s: string): (n: nat)
    ensures s == [] ==> n == 0
  {
    if s == [] then 0 else CharCodeSum(s[..|s| - 1]) + s[|s| - 1] as int
  }

  /** The sum splits over concatenation. */
  lemma {:induction false} CharCodeSumAppend(u: string, v: string)
    ensures CharCodeSum(u + v) == CharCodeSum(u) + CharCodeSum(v)
    decreases |v|
  {
    if v == [] {
      assert u + v == u;
    } else {
      var w := v[..|v| - 1];
      assert (u + v)[..|u + v| - 1] == u + w;
      CharCodeSumAppend(u, w);
    }
  }

  /** The sum depends only on which characters occur how often, not on their order. */
  lemma {:induction false} CharCodeSumPermutation(a: string, b: string)
    requires multiset(a) == multiset(b)
    ensures CharCodeSum(a) == CharCodeSum(b)
    decreases |a|
  {
    if a != [] {
      var k := MatchLast(a, b);
      var p, x, q := b[..k], b[k], b[k + 1..];
      CharCodeSumPermutation(a[..|a| - 1], p + q);
      assert b == p + [x] + q;
      CharCodeSumMiddle(p, x, q);
    }
  }

  /** The last character of `a` sits at some position `k` of its rearrangement `b`,
      and what remains on both sides is again a rearrangement. */
  lemma MatchLast(a: string, b: string) returns (k: nat)
    requires multiset(a) == multiset(b) && a != []
    ensures k < |b| && b[k] == a[|a| - 1]
    ensures multiset(a[..|a| - 1]) == multiset(b[..k] + b[k + 1..])
  {
    var x := a[|a| - 1];
    assert a == a[..|a| - 1] + [x];
    assert multiset(a[..|a| - 1]) == multiset(a) - multiset{x};
    assert x in multiset(b);
    k :| 0 <= k < |b| && b[k] == x;
    assert b == b[..k] + [x] + b[k + 1..];
    assert multiset(b[..k] + b[k + 1..]) == multiset(b) - multiset{x};
  }

  /** Taking a character out of the middle lowers the sum by its code. */
  lemma CharCodeSumMiddle(p: string, x: char, q: string)
    ensures CharCodeSum(p + [x] + q) == CharCodeSum(p + q) + x as int
  {
    CharCodeSumAppend(p + [x], q);
    CharCodeSumAppend(p, [x]);
    CharCodeSumAppend(p, q);
    CharCodeSumSingle(x);
  }

  lemma CharCodeSumSingle(x: char)
    ensures CharCodeSum([x]) == x as int
  {
    assert [x][..0] == [];
  }

  /** `getTagColor`'s index: the char-code sum modulo the palette length. */
  function PaletteIndex(tag: string, paletteSize: nat): (index: nat)
    requires paletteSize > 0
    ensures index < paletteSize
  {
    CharCodeSum(tag) % paletteSize
  }

  /** Tags spelled with the same characters (anagrams) get the same colour. */
  lemma PaletteIndexAnagram(a: string, b: string, paletteSize: nat)
    requires paletteSize > 0
    requires multiset(a) == multiset(b)
    ensures PaletteIndex(a, paletteSize) == PaletteIndex(b, paletteSize)
  {
    CharCodeSumPermutation(a, b);
  }
}
