/** Normalisation of category labels: Python's `label.strip().title()`,
    modelled on the ASCII range. */
module Labels {

  /** The ASCII characters Python's `str.isspace` accepts, which `str.strip()`
      removes: tab, line feed, vertical tab, form feed, carriage return, the
      four information separators 0x1C-0x1F and space. */
  predicate IsSpace(c: char): (b: bool)
    ensures b <==> c as int in {9, 10, 11, 12, 13, 28, 29, 30, 31, 32}
  {
    9 <= c as int <= 13 || 28 <= c as int <= 32
  }

  predicate IsUpper(c: char) { 'A' <= c <= 'Z' }

  predicate IsLower(c: char) { 'a' <= c <= 'z' }

  /** A character that has an upper and a lower case. */
  predicate IsCased(c: char) { IsUpper(c) || IsLower(c) }

  function ToUpper(c: char): (u: char)
    ensures IsCased(u) == IsCased(c)
    ensures IsCased(c) ==> IsUpper(u)
    ensures !IsLower(c) ==> u == c
    ensures IsSpace(u) == IsSpace(c)
  {
    if IsLower(c) then (c as int - 32) as char else c
  }

  function ToLower(c: char): (l: char)
    ensures IsCased(l) == IsCased(c)
    ensures IsCased(c) ==> IsLower(l)
    ensures !IsUpper(c) ==> l == c
    ensures IsSpace(l) == IsSpace(c)
  {
    if IsUpper(c) then (c as int + 32) as char else c
  }

  /** Changing the case of a character never changes the letter it is. */
  lemma CaseChangeKeepsLetter(c: char)
    ensures ToLower(ToUpper(c)) == ToLower(c)
    ensures ToUpper(ToLower(c)) == ToUpper(c)
  {
  }

  //// Stripping

  /** No whitespace at either end. */
  predicate Unpadded(s: string) {
    s == [] || (!IsSpace(s[0]) && !IsSpace(s[|s| - 1]))
  }

  /** `str.lstrip()`: the longest suffix of `s` that does not start with whitespace. */
  function TrimStart(s: string): (r: string)
    ensures |r| <= |s| && r == s[|s| - |r|..]
    ensures forall k :: 0 <= k < |s| - |r| ==> IsSpace(s[k])
    ensures r == [] || !IsSpace(r[0])
  {
    if |s| > 0 && IsSpace(s[0]) then TrimStart(s[1..]) else s
  }

  /** `str.rstrip()`: the longest prefix of `s` that does not end with whitespace. */
  function TrimEnd(s: string): (r: string)
    ensures |r| <= |s| && r == s[..|r|]
    ensures forall k :: |r| <= k < |s| ==> IsSpace(s[k])
    ensures r == [] || !IsSpace(r[|r| - 1])
  {
    if |s| > 0 && IsSpace(s[|s| - 1]) then TrimEnd(s[..|s| - 1]) else s
  }

  /** `r` is `s` from position `i` on, cut before trailing whitespace only:
      everything of `s` before `i` and after `r` is whitespace. */
  predicate SegmentAt(s: string, i: nat, r: string) {
    && i + |r| <= |s|
    && r == s[i..i + |r|]
    && (forall k :: 0 <= k < i ==> IsSpace(s[k]))
    && (forall k :: i + |r| <= k < |s| ==> IsSpace(s[k]))
  }

  /** `str.strip()`: `s` without its leading and trailing whitespace. The result
      is a segment of `s`, everything outside the segment is whitespace, and
      the segment neither starts nor ends with whitespace. */
  function Strip(s: string): (r: string)
    ensures Unpadded(r)
    ensures exists i :: SegmentAt(s, i, r)
  {
    var t := TrimStart(s);
    var r := TrimEnd(t);
    SegmentOfSuffix(s, t, r);
    r
  }

  /** A prefix `r` of a suffix `t` of `s`, with only whitespace cut off at
      either end, is a segment of `s`. */
  lemma SegmentOfSuffix(s: string, t: string, r: string)
    requires |t| <= |s| && t == s[|s| - |t|..]
    requires forall k :: 0 <= k < |s| - |t| ==> IsSpace(s[k])
    requires |r| <= |t| && r == t[..|r|]
    requires forall k :: |r| <= k < |t| ==> IsSpace(t[k])
    ensures SegmentAt(s, |s| - |t|, r)
  {
    var i := |s| - |t|;
    assert r == s[i..i + |r|];
    forall k | i + |r| <= k < |s|
      ensures IsSpace(s[k])
    {
      assert s[k] == t[k - i];
    }
  }

  /** Stripping a string that has no whitespace at its ends changes nothing. */
  lemma StripUnpadded(s: string)
    requires Unpadded(s)
    ensures Strip(s) == s
  {
  }

  //// Title-casing

  /** The character `str.title()` writes for `c`: upper case at the start of a
      word, that is, when the previous character is not cased; lower case inside one. */
  function TitleChar(c: char, afterCased: bool): char {
    if afterCased then ToLower(c) else ToUpper(c)
  }

  /** Whether position `k` of `s` starts a word in the sense of `str.title()`. */
  predicate StartsWord(s: string, k: nat)
    requires k < |s|
  {
    k == 0 || !IsCased(s[k - 1])
  }

  /** `str.title()` run over `s` when the character before `s` was cased
      (`afterCased`) or not. */
  function TitleFrom(s: string, afterCased: bool): (r: string)
    ensures |r| == |s|
    ensures forall k :: 0 <= k < |s| ==>
      r[k] == TitleChar(s[k], if k == 0 then afterCased else IsCased(s[k - 1]))
  {
    if s == [] then []
    else [TitleChar(s[0], afterCased)] + TitleFrom(s[1..], IsCased(s[0]))
  }

  /** `str.title()`. */
  function Title(s: string): (r: string)
    ensures |r| == |s|
    ensures forall k :: 0 <= k < |s| ==> r[k] == TitleChar(s[k], !StartsWord(s, k))
  {
    TitleFrom(s, false)
  }

  /** Every word starts with an upper-case letter and continues in lower case:
      a cased character is upper case exactly when it starts a word. */
  predicate IsTitled(s: string) {
    forall k :: 0 <= k < |s| && IsCased(s[k]) ==> (IsUpper(s[k]) <==> StartsWord(s, k))
  }

  /** `str.title()` keeps every character's letter, and keeps every uncased
      character (whitespace in particular) as it is. */
  lemma TitleKeepsLetters(s: string)
    ensures forall k :: 0 <= k < |s| ==> ToLower(Title(s)[k]) == ToLower(s[k])
    ensures forall k :: 0 <= k < |s| && !IsCased(s[k]) ==> Title(s)[k] == s[k]
  {
    forall k | 0 <= k < |s|
      ensures ToLower(Title(s)[k]) == ToLower(s[k])
    {
      CaseChangeKeepsLetter(s[k]);
    }
  }

  /** The output of `str.title()` is title-cased. */
  lemma TitleIsTitled(s: string)
    ensures IsTitled(Title(s))
  {
    var r := Title(s);
    forall k | 0 <= k < |r| && IsCased(r[k])
      ensures IsUpper(r[k]) <==> StartsWord(r, k)
    {
      assert k > 0 ==> IsCased(r[k - 1]) == IsCased(s[k - 1]);
    }
  }

  /** Title-casing a title-cased string changes nothing. */
  lemma TitleOfTitled(s: string)
    requires IsTitled(s)
    ensures Title(s) == s
  {
    var r := Title(s);
    forall k | 0 <= k < |s|
      ensures r[k] == s[k]
    {
    }
  }

  //// Normalisation

  /** `label.strip().title()`, the form in which a label is looked up. */
  function Normalize(raw: string): (r: string)
    ensures Unpadded(r) && IsTitled(r)
    ensures |r| == |Strip(raw)|
    ensures forall k :: 0 <= k < |r| ==> ToLower(r[k]) == ToLower(Strip(raw)[k])
  {
    var t := Strip(raw);
    TitleIsTitled(t);
    TitleKeepsLetters(t);
    TitleKeepsUnpadded(t);
    Title(t)
  }

  /** Title-casing a string without whitespace at its ends adds none. */
  lemma TitleKeepsUnpadded(t: string)
    requires Unpadded(t)
    ensures Unpadded(Title(t))
  {
    if t != [] {
      var r := Title(t);
      assert IsSpace(r[0]) == IsSpace(t[0]);
      assert IsSpace(r[|t| - 1]) == IsSpace(t[|t| - 1]);
    }
  }

  /** Normalising twice gives the same label as normalising once. */
  lemma NormalizeIdempotent(raw: string)
    ensures Normalize(Normalize(raw)) == Normalize(raw)
  {
    var n := Normalize(raw);
    StripUnpadded(n);
    TitleOfTitled(n);
  }

  /** Title-casing ignores the case the letters came in. */
  lemma TitleIgnoresCase(s: string, t: string)
    requires |s| == |t|
    requires forall k :: 0 <= k < |s| ==> ToLower(s[k]) == ToLower(t[k])
    ensures Title(s) == Title(t)
  {
    forall k | 0 <= k < |s|
      ensures Title(s)[k] == Title(t)[k]
    {
      CaseChangeKeepsLetter(s[k]);
      CaseChangeKeepsLetter(t[k]);
      assert IsCased(s[k]) == IsCased(t[k]);
      assert k > 0 ==> IsCased(s[k - 1]) == IsCased(t[k - 1]);
    }
  }

  /** A single capitalised word is already in normal form. */
  lemma CapitalisedWordIsNormal(s: string)
    requires |s| > 0 && IsUpper(s[0])
    requires forall k :: 0 < k < |s| ==> IsLower(s[k])
    ensures Normalize(s) == s
  {
    StripUnpadded(s);
    TitleOfTitled(s);
  }

  /** A word without surrounding whitespace normalises to its capitalised form,
      whatever the case of its letters. */
  lemma WordNormalizesToCapitalised(s: string, word: string)
    requires Unpadded(s) && |s| == |word|
    requires |word| > 0 && IsUpper(word[0])
    requires forall k :: 0 < k < |word| ==> IsLower(word[k])
    requires forall k :: 0 <= k < |s| ==> ToLower(s[k]) == ToLower(word[k])
    ensures Normalize(s) == word
  {
    calc {
      Normalize(s);
      { StripUnpadded(s); }
      Title(s);
      { TitleIgnoresCase(s, word); }
      Title(word);
      { StripUnpadded(word); }
      Normalize(word);
      { CapitalisedWordIsNormal(word); }
      word;
    }
  }

  /** A label is left unchanged by normalisation exactly when it has no
      whitespace at its ends and is title-cased. */
  lemma NormalFormCharacterised(s: string)
    ensures Normalize(s) == s <==> Unpadded(s) && IsTitled(s)
  {
    if Unpadded(s) && IsTitled(s) {
      StripUnpadded(s);
      TitleOfTitled(s);
    }
  }

  /** A label that has a word starting in lower case (as "and" in "Jammu and
      Kashmir") is changed by normalisation. A label with whitespace at an end
      is changed anyway, since the result has none. */
  lemma LowerCaseWordIsChanged(s: string, k: nat)
    requires k < |s| && StartsWord(s, k) && IsLower(s[k])
    ensures Normalize(s) != s
  {
    if Unpadded(s) {
      NormalizeUnpadded(s);
      var r := Title(s);
      assert r[k] == ToUpper(s[k]);
      assert IsUpper(r[k]) && !IsUpper(s[k]);
    }
  }

  /** A label without whitespace at its ends normalises to its title-cased form. */
  lemma NormalizeUnpadded(s: string)
    requires Unpadded(s)
    ensures Normalize(s) == Title(s)
  {
    StripUnpadded(s);
  }
}
