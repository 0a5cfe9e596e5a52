/** The Python `str` operations the pipeline relies on, over `string` (a sequence of
    Unicode scalar values, as a Python `str` is a sequence of code points). */
module Text {

  /** Code points up to the ASCII space for which Python's `str.isspace()` holds. */
  const LowSpaceCodes: seq<int> := [0x09, 0x0a, 0x0b, 0x0c, 0x0d, 0x1c, 0x1d, 0x1e, 0x1f, 0x20]

  /** The remaining code points for which Python's `str.isspace()` holds. */
  const HighSpaceCodes: seq<int> := [
    0x85, 0xa0, 0x1680, 0x2000, 0x2001, 0x2002, 0x2003, 0x2004, 0x2005, 0x2006, 0x2007,
    0x2008, 0x2009, 0x200a, 0x2028, 0x2029, 0x202f, 0x205f, 0x3000]

  /** Python's `str.isspace()` for a single character. */
  predicate IsSpace(c: char) {
    var n := c as int;
    if n <= 0x20 then Listed(n, LowSpaceCodes)
    else if n < 0x85 then false
    else Listed(n, HighSpaceCodes)
  }

  /** `n` is one of `codes`, looked up one entry at a time. */
  predicate Listed(n: int, codes: seq<int>) {
    codes != [] && (codes[0] == n || Listed(n, codes[1..]))
  }

  lemma {:induction false} ListedIsIn(n: int, codes: seq<int>)
    ensures Listed(n, codes) <==> n in codes
  {
    if codes != [] {
      ListedIsIn(n, codes[1..]);
      assert codes == [codes[0]] + codes[1..];
    }
  }

  /** `IsSpace` holds exactly for the code points listed in the two tables: splitting them
      at the ASCII space only speeds up the lookup. */
  lemma IsSpaceIsListed(c: char)
    ensures IsSpace(c) <==> c as int in LowSpaceCodes + HighSpaceCodes
  {
    var n := c as int;
    ListedIsIn(n, LowSpaceCodes);
    ListedIsIn(n, HighSpaceCodes);
    assert forall k :: 0 <= k < |LowSpaceCodes| ==> LowSpaceCodes[k] <= 0x20;
    assert forall k :: 0 <= k < |HighSpaceCodes| ==> HighSpaceCodes[k] >= 0x85;
  }

  lemma NewlineIsSpace()
    ensures IsSpace('\n')
  {
    assert LowSpaceCodes[1] == '\n' as int;
  }

  /** Neither end of `s` is whitespace: what `str.strip()` leaves behind. */
  predicate IsStripped(s: string) {
    s == [] || (!IsSpace(s[0]) && !IsSpace(s[|s| - 1]))
  }

  predicate StartsWith(s: string, prefix: string) {
    |prefix| <= |s| && s[..|prefix|] == prefix
  }

  predicate EndsWith(s: string, suffix: string) {
    |suffix| <= |s| && s[|s| - |suffix|..] == suffix
  }

  /** `sub` occurs in `s` as one contiguous run of characters. */
  predicate IsSliceOf(sub: string, s: string) {
    exists lo :: 0 <= lo <= |s| - |sub| && IsSliceAt(sub, s, lo)
  }

  /** `sub` occurs in `s` starting at index `lo`. */
  predicate IsSliceAt(sub: string, s: string, lo: int) {
    0 <= lo <= |s| - |sub| && s[lo..lo + |sub|] == sub
  }

  /** A slice of a slice is a slice. */
  lemma {:induction false} SliceTransitive(a: string, b: string, c: string)
    requires IsSliceOf(a, b) && IsSliceOf(b, c)
    ensures IsSliceOf(a, c)
  {
    var i :| 0 <= i <= |b| - |a| && IsSliceAt(a, b, i);
    var j :| 0 <= j <= |c| - |b| && IsSliceAt(b, c, j);
    assert b == c[j..j + |b|];
    forall k | 0 <= k < |a|
      ensures c[j + i..j + i + |a|][k] == a[k]
    {
      assert a[k] == b[i + k] == c[j + i + k];
    }
    assert c[j + i..j + i + |a|] == a;
    assert IsSliceAt(a, c, j + i);
  }

  /** `str.lstrip()`: drops the leading whitespace and nothing else. */
  function TrimStart(s: string): (r: string)
    ensures |r| <= |s| && r == s[|s| - |r|..]
    ensures r == [] || !IsSpace(r[0])
  {
    if |s| > 0 && IsSpace(s[0]) then TrimStart(s[1..]) else s
  }

  /** `str.rstrip()`: drops the trailing whitespace and nothing else. */
  function TrimEnd(s: string): (r: string)
    ensures |r| <= |s| && r == s[..|r|]
    ensures r == [] || !IsSpace(r[|r| - 1])
  {
    if |s| > 0 && IsSpace(s[|s| - 1]) then TrimEnd(s[..|s| - 1]) else s
  }

  /** Where the text kept by `Strip(s)` begins in `s`. */
  function StripOffset(s: string): (lo: nat)
    ensures lo <= |s|
  {
    |s| - |TrimStart(s)|
  }

  /** Python's `str.strip()`: a slice of `s` with no whitespace at either end; a string
      that has none there already is left alone. */
  function Strip(s: string): (r: string)
    ensures IsStripped(r)
    ensures IsSliceOf(r, s)
    ensures IsStripped(s) ==> r == s
  {
    StripKeepsSlice(s);
    StripLeavesNoSpaceAtEnds(s);
    StripFixesStripped(s);
    TrimEnd(TrimStart(s))
  }

  lemma StripKeepsSlice(s: string)
    ensures var r := TrimEnd(TrimStart(s));
      StripOffset(s) + |r| <= |s| && r == s[StripOffset(s)..StripOffset(s) + |r|] && IsSliceOf(r, s)
  {
    var t := TrimStart(s);
    var r := TrimEnd(t);
    var lo := StripOffset(s);
    assert t == s[lo..];
    assert r == t[..|r|];
    assert r == s[lo..lo + |r|];
    assert IsSliceAt(r, s, lo);
  }

  lemma StripLeavesNoSpaceAtEnds(s: string)
    ensures IsStripped(TrimEnd(TrimStart(s)))
  {
    var t := TrimStart(s);
    var r := TrimEnd(t);
    if r != [] {
      assert r[0] == t[0];
    }
  }

  lemma StripFixesStripped(s: string)
    ensures IsStripped(s) ==> TrimEnd(TrimStart(s)) == s
  {
    if IsStripped(s) && s != [] {
      assert TrimStart(s) == s;
    }
  }

  /** Everything `Strip` removes is whitespace: the kept slice starts at `StripOffset(s)`
      and every character before or after it is a space character. */
  lemma StripRemovesOnlySpaces(s: string)
    ensures var lo, r := StripOffset(s), Strip(s);
      lo + |r| <= |s| && r == s[lo..lo + |r|]
      && (forall k :: 0 <= k < lo ==> IsSpace(s[k]))
      && (forall k :: lo + |r| <= k < |s| ==> IsSpace(s[k]))
  {
    StripKeepsSlice(s);
    TrimStartRemovesSpaces(s);
    TrimEndTailIsSpace(s);
  }

  lemma TrimEndTailIsSpace(s: string)
    ensures var lo, r := StripOffset(s), TrimEnd(TrimStart(s));
      forall k :: lo + |r| <= k < |s| ==> IsSpace(s[k])
  {
    var t := TrimStart(s);
    var lo := StripOffset(s);
    assert t == s[lo..];
    TrimEndRemovesSpaces(t);
    forall k | lo + |TrimEnd(t)| <= k < |s|
      ensures IsSpace(s[k])
    {
      assert s[k] == t[k - lo];
    }
  }

  lemma {:induction false} TrimStartRemovesSpaces(s: string)
    ensures forall k :: 0 <= k < |s| - |TrimStart(s)| ==> IsSpace(s[k])
  {
    if |s| > 0 && IsSpace(s[0]) {
      TrimStartRemovesSpaces(s[1..]);
      forall k | 1 <= k < |s| - |TrimStart(s)|
        ensures IsSpace(s[k])
      {
        assert s[k] == s[1..][k - 1];
      }
    }
  }

  lemma {:induction false} TrimEndRemovesSpaces(s: string)
    ensures forall k :: |TrimEnd(s)| <= k < |s| ==> IsSpace(s[k])
  {
    if |s| > 0 && IsSpace(s[|s| - 1]) {
      TrimEndRemovesSpaces(s[..|s| - 1]);
    }
  }

  /** Python's `sep.join(parts)`. */
  function Join(parts: seq<string>, sep: string): string {
    if |parts| == 0 then ""
    else if |parts| == 1 then parts[0]
    else parts[0] + sep + Join(parts[1..], sep)
  }

  /** Python's `s.split(c)` for a one-character separator: the pieces between the
      occurrences of `c`; there is always at least one piece and none contains `c`. */
  function Split(s: string, c: char): (r: seq<string>)
    ensures |r| >= 1
    ensures forall i :: 0 <= i < |r| ==> c !in r[i]
  {
    if s == [] then [""]
    else
      var rest := Split(s[1..], c);
      if s[0] == c then [""] + rest
      else [[s[0]] + rest[0]] + rest[1..]
  }

  /** A piece free of the separator, followed by more text, is the first piece read back. */
  lemma {:induction false} SplitAfterPiece(w: string, t: string, c: char)
    requires c !in w
    ensures Split(w + t, c) == [w + Split(t, c)[0]] + Split(t, c)[1..]
  {
    if w != [] {
      assert (w + t)[1..] == w[1..] + t;
      SplitAfterPiece(w[1..], t, c);
      assert [w[0]] + (w[1..] + Split(t, c)[0]) == w + Split(t, c)[0];
    } else {
      assert w + t == t;
      assert w + Split(t, c)[0] == Split(t, c)[0];
      assert Split(t, c) == [Split(t, c)[0]] + Split(t, c)[1..];
    }
  }

  /** `s.split(c)` undoes `c.join(parts)` when no part contains `c`. */
  lemma {:induction false} SplitJoin(parts: seq<string>, c: char)
    requires |parts| >= 1
    requires forall i :: 0 <= i < |parts| ==> c !in parts[i]
    ensures Split(Join(parts, [c]), c) == parts
  {
    if |parts| == 1 {
      SplitAfterPiece(parts[0], "", c);
      assert parts[0] + "" == parts[0];
    } else {
      var rest := Join(parts[1..], [c]);
      SplitJoin(parts[1..], c);
      assert Join(parts, [c]) == parts[0] + ([c] + rest);
      SplitAfterPiece(parts[0], [c] + rest, c);
      assert ([c] + rest)[1..] == rest;
      assert Split([c] + rest, c) == [""] + parts[1..];
      assert parts[0] + "" == parts[0];
      assert [parts[0]] + parts[1..] == parts;
    }
  }

  /** Python's `s.replace(from, to)` for one-character `from` and `to`. */
  function ReplaceChar(s: string, from: char, to: char): (r: string)
    ensures |r| == |s|
    ensures forall i :: 0 <= i < |s| ==> r[i] == (if s[i] == from then to else s[i])
  {
    if s == [] then [] else [if s[0] == from then to else s[0]] + ReplaceChar(s[1..], from, to)
  }

  predicate IsUpperAscii(c: char) { 'A' <= c && c <= 'Z' }
  predicate IsLowerAscii(c: char) { 'a' <= c && c <= 'z' }
  /** A character with case, in the ASCII range. */
  predicate IsCasedAscii(c: char) { IsUpperAscii(c) || IsLowerAscii(c) }

  function ToUpper(c: char): char {
    if IsLowerAscii(c) then (c as int - 32) as char else c
  }

  function ToLower(c: char): char {
    if IsUpperAscii(c) then (c as int + 32) as char else c
  }

  /** Python's `str.title()` loop: a character right after a cased character is
      lower-cased, every other character is title-cased. */
  function TitleFrom(s: string, prevCased: bool): (r: string)
    ensures |r| == |s|
  {
    if s == [] then []
    else [if prevCased then ToLower(s[0]) else ToUpper(s[0])] + TitleFrom(s[1..], IsCasedAscii(s[0]))
  }

  function TitleCase(s: string): string {
    TitleFrom(s, false)
  }

  /** Position by position: each character starting a word is upper-cased, every other
      one lower-cased, and nothing but letters changes. */
  lemma {:induction false} TitleCaseAt(s: string, i: nat)
    requires i < |s|
    ensures |TitleCase(s)| == |s|
    ensures TitleCase(s)[i] == (if i > 0 && IsCasedAscii(s[i - 1]) then ToLower(s[i]) else ToUpper(s[i]))
  {
    TitleFromAt(s, false, i);
  }

  lemma {:induction false} TitleFromAt(s: string, prevCased: bool, i: nat)
    requires i < |s|
    ensures TitleFrom(s, prevCased)[i]
            == (if (if i == 0 then prevCased else IsCasedAscii(s[i - 1])) then ToLower(s[i]) else ToUpper(s[i]))
  {
    if i > 0 {
      TitleFromAt(s[1..], IsCasedAscii(s[0]), i - 1);
    }
  }

  /** Title-casing changes letters only, so a character that is not a letter is kept
      exactly where it was and no new one appears. */
  lemma TitleCaseKeepsNonLetter(s: string, c: char)
    requires !IsCasedAscii(c)
    ensures c in TitleCase(s) <==> c in s
  {
    forall i | 0 <= i < |s|
      ensures TitleCase(s)[i] == c <==> s[i] == c
    {
      TitleCaseAt(s, i);
    }
    if c in s {
      var i :| 0 <= i < |s| && s[i] == c;
      assert TitleCase(s)[i] == c;
    }
    if c in TitleCase(s) {
      var i :| 0 <= i < |TitleCase(s)| && TitleCase(s)[i] == c;
      assert s[i] == c;
    }
  }
}
