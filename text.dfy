/** The three Python string methods the bot applies to user input:
    `str.upper()` on category tags, and `str.lower()` followed by
    `str.strip()` on the literal replies of the interactive prompts. */
module Text {

  /** `str.lower()` on ASCII letters, plus the one accented capital the
      bot's yes/no prompt cares about (`SÍ` reads as `sí`). */
  function LowerChar(c: char): char {
    if 'A' <= c <= 'Z' then (c as int + 32) as char
    else if c == 'Í' then 'í'
    else c
  }

  /** `str.upper()` on ASCII letters. */
  function UpperChar(c: char): char {
    if 'a' <= c <= 'z' then (c as int - 32) as char else c
  }

  /** `str.lower()`, character by character. */
  function Lower(s: string): (r: string)
    ensures |r| == |s|
  {
    if s == [] then [] else [LowerChar(s[0])] + Lower(s[1..])
  }

  /** `str.upper()`, character by character. */
  function Upper(s: string): (r: string)
    ensures |r| == |s|
  {
    if s == [] then [] else [UpperChar(s[0])] + Upper(s[1..])
  }

  /** Each character is lowered in place, and no capital ASCII letter is left. */
  lemma {:induction false} LowerPointwise(s: string)
    ensures forall i | 0 <= i < |s| :: Lower(s)[i] == LowerChar(s[i]) && !('A' <= Lower(s)[i] <= 'Z')
  {
    if s != [] {
      LowerPointwise(s[1..]);
      assert forall i | 1 <= i < |s| :: Lower(s)[i] == Lower(s[1..])[i - 1];
    }
  }

  /** Upper-casing twice is upper-casing once. */
  lemma {:induction false} UpperIdempotent(s: string)
    ensures Upper(Upper(s)) == Upper(s)
  {
    if s != [] {
      UpperIdempotent(s[1..]);
      assert Upper(s)[1..] == Upper(s[1..]);
    }
  }

  /** The ASCII characters for which `str.isspace()` holds, which are the
      ones `str.strip()` removes: tab, line feed, vertical tab, form feed,
      carriage return, the four separators U+001C to U+001F, and space. */
  predicate IsSpace(c: char) {
    c == ' ' || '\t' <= c <= '\r' || '\U{1C}' <= c <= '\U{1F}'
  }

  function TrimLeft(s: string): string {
    if s != [] && IsSpace(s[0]) then TrimLeft(s[1..]) else s
  }

  function TrimRight(s: string): string {
    if s != [] && IsSpace(s[|s| - 1]) then TrimRight(s[..|s| - 1]) else s
  }

  /** `str.strip()`: drop leading and trailing whitespace. What is left
      neither begins nor ends with whitespace. */
  function Strip(s: string): (r: string)
    ensures |r| <= |s|
    ensures r != [] ==> !IsSpace(r[0]) && !IsSpace(r[|r| - 1])
  {
    TrimLeftIsSuffix(s);
    TrimRightIsPrefix(TrimLeft(s));
    TrimRight(TrimLeft(s))
  }

  /** The result of `str.lower().strip()`, the normal form in which the
      bot compares a reply against its literal keywords: no surrounding
      whitespace. */
  function Normalize(s: string): (r: string)
    ensures |r| <= |s|
    ensures r != [] ==> !IsSpace(r[0]) && !IsSpace(r[|r| - 1])
  {
    Strip(Lower(s))
  }

  lemma {:induction false} TrimLeftIsSuffix(s: string)
    ensures var t := TrimLeft(s);
      |t| <= |s| && t == s[|s| - |t|..] &&
      (t != [] ==> !IsSpace(t[0])) &&
      (forall k | 0 <= k < |s| - |t| :: IsSpace(s[k]))
  {
    if s != [] && IsSpace(s[0]) {
      var r := s[1..];
      TrimLeftIsSuffix(r);
      var t := TrimLeft(r);
      assert TrimLeft(s) == t;
      assert r[|r| - |t|..] == s[|s| - |t|..];
      forall k | 0 <= k < |s| - |t|
        ensures IsSpace(s[k])
      {
        if k > 0 {
          assert s[k] == r[k - 1];
        }
      }
    }
  }

  lemma {:induction false} TrimRightIsPrefix(s: string)
    ensures var t := TrimRight(s);
      |t| <= |s| && t == s[..|t|] &&
      (t != [] ==> !IsSpace(t[|t| - 1])) &&
      (forall k | |t| <= k < |s| :: IsSpace(s[k]))
  {
    if s != [] && IsSpace(s[|s| - 1]) {
      TrimRightIsPrefix(s[..|s| - 1]);
    }
  }

  /** `strip` keeps a contiguous slice of its input; everything cut away is
      whitespace, and the slice neither begins nor ends with whitespace. */
  lemma StripIsTrimmedSlice(s: string)
    ensures exists lo, hi | 0 <= lo <= hi <= |s| ::
      Strip(s) == s[lo..hi] &&
      (forall k | 0 <= k < lo :: IsSpace(s[k])) &&
      (forall k | hi <= k < |s| :: IsSpace(s[k]))
    ensures Strip(s) != [] ==> !IsSpace(Strip(s)[0]) && !IsSpace(Strip(s)[|Strip(s)| - 1])
  {
    var l := TrimLeft(s);
    TrimLeftIsSuffix(s);
    TrimRightIsPrefix(l);
    var lo := |s| - |l|;
    var hi := lo + |TrimRight(l)|;
    assert Strip(s) == s[lo..hi];
    forall k | hi <= k < |s|
      ensures IsSpace(s[k])
    {
      assert s[k] == l[k - lo];
    }
  }

  /** The normal form holds no capital ASCII letter, so a keyword compared
      against it matches in any case. */
  lemma NormalizeHasNoCapitals(s: string)
    ensures forall i | 0 <= i < |Normalize(s)| :: !('A' <= Normalize(s)[i] <= 'Z')
  {
    var l := Lower(s);
    LowerPointwise(s);
    StripIsTrimmedSlice(l);
    var lo, hi :| 0 <= lo <= hi <= |l| && Strip(l) == l[lo..hi] &&
      (forall k | 0 <= k < lo :: IsSpace(l[k])) && (forall k | hi <= k < |l| :: IsSpace(l[k]));
    forall i | 0 <= i < |Normalize(s)| ensures !('A' <= Normalize(s)[i] <= 'Z') {
      assert Normalize(s)[i] == l[lo + i];
    }
  }
}
