/** The string operations the pages use: `toLowerCase`, `toUpperCase`,
    `includes` and `startsWith`, with case mapping restricted to ASCII letters. */
module Text {

  function LowerChar(c: char): char {
    if 'A' <= c <= 'Z' then (c as int + 32) as char else c
  }

  function UpperChar(c: char): char {
    if 'a' <= c <= 'z' then (c as int - 32) as char else c
  }

  /** `s.toLowerCase()`: the same length, each letter mapped to lower case,
      no capital letter left. */
  function Lower(s: string): (r: string)
    ensures |r| == |s|
    ensures forall i :: 0 <= i < |s| ==> r[i] == LowerChar(s[i])
    ensures forall i :: 0 <= i < |r| ==> !('A' <= r[i] <= 'Z')
  {
    seq(|s|, i requires 0 <= i < |s| => LowerChar(s[i]))
  }

  /** `s.charAt(0).toUpperCase() + s.slice(1)`: only the first character can
      change, and it is no longer a lower-case letter. */
  function Capitalize(s: string): (r: string)
    ensures |r| == |s|
    ensures |s| > 0 ==> r[0] == UpperChar(s[0]) && r[1..] == s[1..]
    ensures |s| > 0 ==> !('a' <= r[0] <= 'z')
  {
    if |s| == 0 then "" else [UpperChar(s[0])] + s[1..]
  }

  /** `s.startsWith(prefix)`. */
  predicate StartsWith(s: string, prefix: string) {
    |prefix| <= |s| && s[..|prefix|] == prefix
  }

  /** `hay.includes(needle)`, searching offsets from left to right. A found
      needle is no longer than the text, and the empty needle is found in
      every text. */
  predicate Contains(hay: string, needle: string)
    ensures Contains(hay, needle) ==> |needle| <= |hay|
    ensures needle == "" ==> Contains(hay, needle)
    decreases |hay|
  {
    StartsWith(hay, needle) || (|hay| > 0 && Contains(hay[1..], needle))
  }

  /** `needle` occurs in `hay` starting at offset `i`. */
  ghost predicate OccursAt(hay: string, needle: string, i: int) {
    0 <= i && i + |needle| <= |hay| && hay[i..i + |needle|] == needle
  }

  /** The left-to-right search finds `needle` exactly when it occurs at some
      offset. */
  lemma {:induction false} ContainsIff(hay: string, needle: string)
    ensures Contains(hay, needle) <==> exists i :: OccursAt(hay, needle, i)
    decreases |hay|
  {
    if Contains(hay, needle) {
      if StartsWith(hay, needle) {
        assert OccursAt(hay, needle, 0);
      } else {
        ContainsIff(hay[1..], needle);
        var j :| OccursAt(hay[1..], needle, j);
        assert hay[1..][j..j + |needle|] == hay[j + 1..j + 1 + |needle|];
        assert OccursAt(hay, needle, j + 1);
      }
    }
    if exists i :: OccursAt(hay, needle, i) {
      var i :| OccursAt(hay, needle, i);
      if i > 0 {
        assert hay[1..][i - 1..i - 1 + |needle|] == hay[i..i + |needle|];
        assert OccursAt(hay[1..], needle, i - 1);
        ContainsIff(hay[1..], needle);
      } else {
        assert StartsWith(hay, needle);
      }
    }
  }

  /** A substring of a substring is a substring. */
  lemma ContainsTransitive(c: string, b: string, a: string)
    requires Contains(c, b) && Contains(b, a)
    ensures Contains(c, a)
  {
    ContainsIff(c, b);
    ContainsIff(b, a);
    var i :| OccursAt(c, b, i);
    var j :| OccursAt(b, a, j);
    forall k | 0 <= k < |a|
      ensures c[i + j + k] == a[k]
    {
      assert c[i..i + |b|][j + k] == b[j + k];
      assert b[j..j + |a|][k] == b[j + k];
    }
    assert c[i + j..i + j + |a|] == a;
    assert OccursAt(c, a, i + j);
    ContainsIff(c, a);
  }

  /** Lower-casing both sides keeps every occurrence. */
  lemma LowerKeepsContains(b: string, a: string)
    requires Contains(b, a)
    ensures Contains(Lower(b), Lower(a))
  {
    ContainsIff(b, a);
    var i :| OccursAt(b, a, i);
    assert Lower(b)[i..i + |a|] == Lower(a);
    assert OccursAt(Lower(b), Lower(a), i);
    ContainsIff(Lower(b), Lower(a));
  }

  /** A needle with a character absent from `hay` does not occur in it. */
  lemma MissingCharNotContained(hay: string, needle: string, k: int)
    requires 0 <= k < |needle| && needle[k] !in hay
    ensures !Contains(hay, needle)
  {
    forall i | 0 <= i && i + |needle| <= |hay|
      ensures !OccursAt(hay, needle, i)
    {
      assert hay[i..i + |needle|][k] == hay[i + k];
    }
    ContainsIff(hay, needle);
  }

  /** A lower-case letter that appears in `s` in neither case is absent from
      `Lower(s)`. */
  lemma LowerLacks(s: string, c: char)
    requires 'a' <= c <= 'z' && c !in s && UpperChar(c) !in s
    ensures c !in Lower(s)
  {
    forall i | 0 <= i < |s|
      ensures Lower(s)[i] != c
    {
      assert s[i] != c && s[i] != UpperChar(c);
    }
  }

  /** Lower-casing distributes over concatenation. */
  lemma LowerAppend(a: string, b: string)
    ensures Lower(a + b) == Lower(a) + Lower(b)
  {
  }

  /** If the needle's first character is not in `a`, every occurrence in
      `a + b` lies inside `b`. */
  lemma ContainsPastPrefix(a: string, b: string, needle: string)
    requires |needle| > 0 && needle[0] !in a
    requires Contains(a + b, needle)
    ensures Contains(b, needle)
  {
    ContainsIff(a + b, needle);
    var i :| OccursAt(a + b, needle, i);
    assert (a + b)[i..i + |needle|][0] == (a + b)[i];
    assert i >= |a|;
    assert b[i - |a|..i - |a| + |needle|] == (a + b)[i..i + |needle|];
    assert OccursAt(b, needle, i - |a|);
    ContainsIff(b, needle);
  }
}
