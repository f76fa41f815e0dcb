/**
 * The pieces of Go's `strings` and `unicode` packages that the validator and the
 * calculator use: character classes, `strings.TrimSpace` and `strings.Split`
 * with a one-character separator, and the byte length `len` of a string.
 */
module Text {

  /** ASCII decimal digit, as tested by `'0' <= r <= '9'`. */
  predicate IsAsciiDigit(c: char) {
    '0' <= c <= '9'
  }

  /** ASCII letter, as tested by `'a' <= r <= 'z'` or `'A' <= r <= 'Z'`. */
  predicate IsAsciiLetter(c: char) {
    ('a' <= c <= 'z') || ('A' <= c <= 'Z')
  }

  /**
   * Go's `unicode.IsSpace`: the Latin-1 spaces '\t', '\n', '\v', '\f', '\r',
   * ' ', U+0085, U+00A0, and the remaining Unicode White_Space characters.
   */
  predicate IsSpace(c: char) {
    var n := c as int;
    || (0x09 <= n <= 0x0D) || n == 0x20 || n == 0x85 || n == 0xA0
    || n == 0x1680 || (0x2000 <= n <= 0x200A) || n == 0x2028 || n == 0x2029
    || n == 0x202F || n == 0x205F || n == 0x3000
  }

  predicate AllSpace(s: string) {
    forall i :: 0 <= i < |s| ==> IsSpace(s[i])
  }

  /** Index of the first non-space character, or |s| when there is none. */
  function LeadingSpaces(s: string): (k: nat)
    ensures k <= |s|
    ensures AllSpace(s[..k])
    ensures k < |s| ==> !IsSpace(s[k])
  {
    if |s| == 0 || !IsSpace(s[0]) then 0
    else
      var k := 1 + LeadingSpaces(s[1..]);
      assert s[1..][..k - 1] == s[1..k];
      k
  }

  /** Number of space characters at the end of s. */
  function TrailingSpaces(s: string): (k: nat)
    ensures k <= |s|
    ensures AllSpace(s[|s| - k..])
    ensures k < |s| ==> !IsSpace(s[|s| - k - 1])
  {
    if |s| == 0 || !IsSpace(s[|s| - 1]) then 0
    else
      var k := 1 + TrailingSpaces(s[..|s| - 1]);
      assert s[..|s| - 1][|s| - 1 - (k - 1)..] == s[|s| - k..|s| - 1];
      k
  }

  /**
   * `strings.TrimSpace`: s without its leading and trailing white space. When s
   * has a non-space character, the trailing run stops short of it.
   */
  function TrimSpace(s: string): string {
    var i := LeadingSpaces(s);
    if i == |s| then []
    else
      var k := TrailingSpaces(s);
      TextBeforeTrailing(s, i, k);
      s[i..|s| - k]
  }

  /** A non-space character lies before the trailing white space. */
  lemma TextBeforeTrailing(s: string, i: nat, k: nat)
    requires i < |s| && !IsSpace(s[i]) && k <= |s| && AllSpace(s[|s| - k..])
    ensures i < |s| - k
  {
  }

  /**
   * The trimmed text is a contiguous slice of s, everything cut off is white
   * space, and the result neither starts nor ends with white space; it is empty
   * exactly when s is all white space.
   */
  lemma TrimSpaceSlice(s: string)
    ensures var t := TrimSpace(s);
      && (exists i, j :: 0 <= i <= j <= |s| && t == s[i..j] && AllSpace(s[..i]) && AllSpace(s[j..]))
      && (|t| > 0 ==> !IsSpace(t[0]) && !IsSpace(t[|t| - 1]))
      && (t == [] <==> AllSpace(s))
  {
    var i := LeadingSpaces(s);
    if i == |s| {
      assert s[..|s|] == s == s[0..];
      assert TrimSpace(s) == s[0..0];
    } else {
      var j := |s| - TrailingSpaces(s);
      TextBeforeTrailing(s, i, TrailingSpaces(s));
      var t := s[i..j];
      assert t[0] == s[i] && t[|t| - 1] == s[j - 1];
      assert !AllSpace(s) by { assert !IsSpace(s[i]); }
    }
  }

  /** Trimming is idempotent. */
  lemma TrimSpaceIdempotent(s: string)
    ensures TrimSpace(TrimSpace(s)) == TrimSpace(s)
  {
    TrimSpaceSlice(s);
    TrimSpaceOfTrimmed(TrimSpace(s));
  }

  /** A string with no white space at either end is its own trim. */
  lemma TrimSpaceOfTrimmed(s: string)
    requires |s| > 0 ==> !IsSpace(s[0]) && !IsSpace(s[|s| - 1])
    ensures TrimSpace(s) == s
  {
    if |s| > 0 {
      assert s[0..|s|] == s;
    }
  }

  /** Trimming removes exactly the white space around a text that has none at its ends. */
  lemma TrimSpaceOfPadded(before: string, t: string, after: string)
    requires AllSpace(before) && AllSpace(after)
    requires |t| > 0 && !IsSpace(t[0]) && !IsSpace(t[|t| - 1])
    ensures TrimSpace(before + t + after) == t
  {
    var s := before + t + after;
    var k := |before|;
    assert s[..k] == before && s[k] == t[0];
    LeadingSpacesUnique(s, k);
    assert s[|s| - |after|..] == after && s[|s| - |after| - 1] == t[|t| - 1];
    TrailingSpacesUnique(s, |after|);
    assert s[k..|s| - |after|] == t;
  }

  /** The leading white space is the longest all-space prefix. */
  lemma LeadingSpacesUnique(s: string, k: nat)
    requires k <= |s| && AllSpace(s[..k]) && (k < |s| ==> !IsSpace(s[k]))
    ensures LeadingSpaces(s) == k
  {
    var l := LeadingSpaces(s);
    if l < k {
      SpaceBefore(s, k, l);
      assert false;
    } else if l > k {
      SpaceBefore(s, l, k);
      assert false;
    }
  }

  /** The trailing white space is the longest all-space suffix. */
  lemma TrailingSpacesUnique(s: string, k: nat)
    requires k <= |s| && AllSpace(s[|s| - k..]) && (k < |s| ==> !IsSpace(s[|s| - k - 1]))
    ensures TrailingSpaces(s) == k
  {
    var l := TrailingSpaces(s);
    if l < k {
      assert false;
    } else if l > k {
      assert false;
    }
  }

  lemma SpaceBefore(s: string, k: nat, x: nat)
    requires x < k <= |s| && AllSpace(s[..k])
    ensures IsSpace(s[x])
  {
    assert s[..k][x] == s[x];
  }

  /** Number of occurrences of c in s. */
  function CountChar(s: string, c: char): (n: nat)
    ensures n <= |s|
    ensures n == 0 <==> c !in s
  {
    if |s| == 0 then 0
    else (if s[0] == c then 1 else 0) + CountChar(s[1..], c)
  }

  /** Index of the first occurrence of c in s; requires that c occurs. */
  function IndexOf(s: string, c: char): (i: nat)
    requires c in s
    ensures i < |s| && s[i] == c && c !in s[..i]
  {
    if s[0] == c then 0
    else
      var i := 1 + IndexOf(s[1..], c);
      assert s[..i] == [s[0]] + s[1..][..i - 1];
      i
  }

  /**
   * `strings.Split(s, sep)` for a one-character separator: the pieces of s between
   * the occurrences of sep, left to right. The empty string gives one empty piece.
   */
  function Split(s: string, sep: char): (parts: seq<string>)
    ensures |parts| == CountChar(s, sep) + 1
    ensures forall k :: 0 <= k < |parts| ==> sep !in parts[k]
    decreases |s|
  {
    if sep !in s then [s]
    else
      var i := IndexOf(s, sep);
      CountSplitsAt(s, sep, i);
      [s[..i]] + Split(s[i + 1..], sep)
  }

  /** Counting occurrences splits at the first occurrence. */
  lemma {:induction false} CountSplitsAt(s: string, c: char, i: nat)
    requires i < |s| && s[i] == c && c !in s[..i]
    ensures CountChar(s, c) == 1 + CountChar(s[i + 1..], c)
  {
    if i > 0 {
      assert s[0] != c by { assert s[0] == s[..i][0]; }
      assert s[1..][..i - 1] == s[1..i];
      assert s[1..][i..] == s[i + 1..];
      CountSplitsAt(s[1..], c, i - 1);
    }
  }

  /** `strings.Join(parts, sep)`: the pieces glued back together with sep between them. */
  function Join(parts: seq<string>, sep: char): string
    requires |parts| > 0
  {
    if |parts| == 1 then parts[0] else parts[0] + [sep] + Join(parts[1..], sep)
  }

  /** Splitting and joining with the same separator gives back the string. */
  lemma {:induction false} JoinSplit(s: string, sep: char)
    ensures Join(Split(s, sep), sep) == s
    decreases |s|
  {
    if sep in s {
      var i := IndexOf(s, sep);
      JoinSplit(s[i + 1..], sep);
      assert s == s[..i] + [sep] + s[i + 1..];
    }
  }

  /** Pieces free of the separator are recovered by splitting their join. */
  lemma {:induction false} SplitJoin(parts: seq<string>, sep: char)
    requires |parts| > 0
    requires forall k :: 0 <= k < |parts| ==> sep !in parts[k]
    ensures Split(Join(parts, sep), sep) == parts
  {
    if |parts| > 1 {
      var head, tail := parts[0], parts[1..];
      var rest := Join(tail, sep);
      SplitJoin(tail, sep);
      SplitGlued(head, rest, sep);
      assert Join(parts, sep) == head + [sep] + rest;
      HeadTail(parts);
    }
  }

  lemma HeadTail<T>(s: seq<T>)
    requires |s| > 0
    ensures [s[0]] + s[1..] == s
  {
  }

  /** Splitting at the first separator: the piece before it, then the split of the rest. */
  lemma SplitGlued(head: string, rest: string, sep: char)
    requires sep !in head
    ensures Split(head + [sep] + rest, sep) == [head] + Split(rest, sep)
  {
    var s := head + [sep] + rest;
    var i := |head|;
    assert s[..i] == head && s[i] == sep && s[i + 1..] == rest;
    IndexOfUnique(s, sep, i);
  }

  /** The first occurrence is the one with no occurrence before it. */
  lemma IndexOfUnique(s: string, c: char, i: nat)
    requires i < |s| && s[i] == c && c !in s[..i]
    ensures IndexOf(s, c) == i
  {
  }

  /** A string with exactly one separator splits into the text before it and the text after it. */
  lemma SplitAtOnly(s: string, sep: char, i: nat)
    requires i < |s| && s[i] == sep && sep !in s[..i] && sep !in s[i + 1..]
    ensures Split(s, sep) == [s[..i], s[i + 1..]]
  {
    SplitJoin([s[..i], s[i + 1..]], sep);
    assert Join([s[..i], s[i + 1..]], sep) == s;
  }

  /** Length in bytes of the UTF-8 encoding of c. */
  function Utf8Width(c: char): (w: nat)
    ensures 1 <= w <= 4
    ensures w == 1 <==> c as int < 0x80
  {
    if c as int < 0x80 then 1
    else if c as int < 0x800 then 2
    else if c as int < 0x10000 then 3
    else 4
  }

  /** Go's `len(s)`: the number of bytes of the UTF-8 encoding of s. */
  function ByteLength(s: string): (n: nat)
    ensures n >= |s|
  {
    if |s| == 0 then 0 else ByteLength(s[..|s| - 1]) + Utf8Width(s[|s| - 1])
  }

  /** The byte length equals the character count exactly when every character is ASCII. */
  lemma {:induction false} ByteLengthOfAscii(s: string)
    ensures ByteLength(s) == |s| <==> forall i :: 0 <= i < |s| ==> s[i] as int < 0x80
  {
    if |s| > 0 {
      ByteLengthOfAscii(s[..|s| - 1]);
      assert forall i :: 0 <= i < |s| - 1 ==> s[i] == s[..|s| - 1][i];
    }
  }
}
