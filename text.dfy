/**
 * The few Python string operations the two applications rely on: `strip`, `split`,
 * `' '.join`, `lower`, `capitalize`, `title`, `isalpha`, `isdigit` and the substring
 * test `in`. Characters are interpreted for ASCII and for the basic Cyrillic alphabet
 * (А-Я, а-я, Ё, ё), which is what the applications' data uses.
 */
module Text {

  // ---------------------------------------------------------------------------
  // Character classes

  /** Whitespace as `str.strip` and `str.split` see it, restricted to ASCII. */
  predicate IsSpace(c: char) {
    c == ' ' || ('\t' <= c <= '\r') || ('\U{1C}' <= c <= '\U{1F}')
  }

  predicate IsLowerLetter(c: char) {
    ('a' <= c <= 'z') || ('а' <= c <= 'я') || c == 'ё'
  }

  predicate IsUpperLetter(c: char) {
    ('A' <= c <= 'Z') || ('А' <= c <= 'Я') || c == 'Ё'
  }

  /** A cased letter; these are the characters `str.isalpha` accepts in this model. */
  predicate IsLetter(c: char) {
    IsLowerLetter(c) || IsUpperLetter(c)
  }

  predicate IsDigit(c: char) {
    '0' <= c <= '9'
  }

  function ToUpper(c: char): (u: char)
    ensures IsLetter(c) <==> IsLetter(u)
    ensures IsSpace(c) <==> IsSpace(u)
    ensures !IsLowerLetter(u)
    ensures !IsLowerLetter(c) ==> u == c
  {
    if 'a' <= c <= 'z' then (c as int - 32) as char
    else if 'а' <= c <= 'я' then (c as int - 0x20) as char
    else if c == 'ё' then 'Ё'
    else c
  }

  function ToLower(c: char): (l: char)
    ensures IsLetter(c) <==> IsLetter(l)
    ensures IsSpace(c) <==> IsSpace(l)
    ensures !IsUpperLetter(l)
    ensures !IsUpperLetter(c) ==> l == c
  {
    if 'A' <= c <= 'Z' then (c as int + 32) as char
    else if 'А' <= c <= 'Я' then (c as int + 0x20) as char
    else if c == 'Ё' then 'ё'
    else c
  }

  // ---------------------------------------------------------------------------
  // Whole-string predicates

  predicate IsBlank(s: string) {
    forall i :: 0 <= i < |s| ==> IsSpace(s[i])
  }

  predicate NoSpace(s: string) {
    forall i :: 0 <= i < |s| ==> !IsSpace(s[i])
  }

  /** `str.isdigit`: non-empty and made of digits only. */
  predicate IsDigits(s: string) {
    |s| > 0 && forall i :: 0 <= i < |s| ==> IsDigit(s[i])
  }

  /** `str.isalpha`: non-empty and made of letters only. */
  predicate IsAlpha(s: string) {
    |s| > 0 && forall i :: 0 <= i < |s| ==> IsLetter(s[i])
  }

  /** Python's `needle in hay` on strings: `needle` occurs as a contiguous block of `hay`. */
  predicate Contains(hay: string, needle: string)
    decreases |hay|
  {
    needle <= hay || (|hay| > 0 && Contains(hay[1..], needle))
  }

  // ---------------------------------------------------------------------------
  // strip

  /** The index of the first non-space character (or |s|). */
  function StartOfText(s: string): (i: nat)
    ensures i <= |s| && IsBlank(s[..i])
    ensures i < |s| ==> !IsSpace(s[i])
  {
    if |s| == 0 || !IsSpace(s[0]) then 0
    else
      var j := StartOfText(s[1..]);
      assert s[..1 + j] == [s[0]] + s[1..][..j];
      1 + j
  }

  /** One past the index of the last non-space character (or 0). */
  function EndOfText(s: string): (j: nat)
    ensures j <= |s| && IsBlank(s[j..])
    ensures j > 0 ==> !IsSpace(s[j - 1])
  {
    if |s| == 0 || !IsSpace(s[|s| - 1]) then |s|
    else
      var j := EndOfText(s[..|s| - 1]);
      assert s[j..] == s[..|s| - 1][j..] + [s[|s| - 1]];
      j
  }

  /** `str.strip()`: `s` without its leading and trailing whitespace. */
  function Strip(s: string): (r: string)
    ensures r == "" <==> IsBlank(s)
    ensures r != "" ==> !IsSpace(r[0]) && !IsSpace(r[|r| - 1])
    ensures |r| <= |s|
  {
    TextBounds(s);
    var i := StartOfText(s);
    var j := EndOfText(s);
    if i < j then s[i..j] else ""
  }

  lemma TextBounds(s: string)
    ensures IsBlank(s) ==> StartOfText(s) == |s|
    ensures !IsBlank(s) ==> StartOfText(s) < EndOfText(s)
  {
    if !IsBlank(s) {
      var k :| 0 <= k < |s| && !IsSpace(s[k]);
      var i, j := StartOfText(s), EndOfText(s);
      assert forall m :: 0 <= m < i ==> s[..i][m] == s[m];
      assert forall m :: j <= m < |s| ==> s[j..][m - j] == s[m];
    }
  }

  /** A line `strip` leaves unchanged and non-empty. */
  predicate Trimmed(line: string) {
    line != "" && !IsSpace(line[0]) && !IsSpace(line[|line| - 1])
  }

  lemma StripUnchanged(s: string)
    requires s == "" || (!IsSpace(s[0]) && !IsSpace(s[|s| - 1]))
    ensures Strip(s) == s
  {
    if s != "" {
      assert StartOfText(s) == 0;
      assert EndOfText(s) == |s|;
      assert s[0..|s|] == s;
    }
  }

  // ---------------------------------------------------------------------------
  // split / join

  /** The length of the run of non-space characters `s` starts with. */
  function WordLength(s: string): (k: nat)
    ensures k <= |s| && NoSpace(s[..k])
    ensures k < |s| ==> IsSpace(s[k])
  {
    if |s| == 0 || IsSpace(s[0]) then 0
    else
      var k := WordLength(s[1..]);
      assert s[..1 + k] == [s[0]] + s[1..][..k];
      1 + k
  }

  predicate IsWord(w: string) {
    w != "" && NoSpace(w)
  }

  /** `str.split()` with no separator: the maximal runs of non-space characters, in order. */
  function Split(s: string): (words: seq<string>)
    ensures forall k :: 0 <= k < |words| ==> IsWord(words[k])
    decreases |s|
  {
    var i := StartOfText(s);
    if i == |s| then []
    else
      var t := s[i..];
      var k := WordLength(t);
      [t[..k]] + Split(t[k..])
  }

  /** `' '.join(words)`. */
  function Join(words: seq<string>): string {
    if |words| == 0 then ""
    else if |words| == 1 then words[0]
    else words[0] + " " + Join(words[1..])
  }

  lemma WordLengthOfWord(w: string, t: string)
    requires NoSpace(w)
    ensures WordLength(w + t) == |w| + WordLength(t)
    decreases |w|
  {
    if w != "" {
      assert (w + t)[1..] == w[1..] + t;
      WordLengthOfWord(w[1..], t);
    } else {
      assert w + t == t;
    }
  }

  lemma SplitSkipsSpace(c: char, x: string)
    requires IsSpace(c)
    ensures Split([c] + x) == Split(x)
  {
    var s := [c] + x;
    assert s[1..] == x;
    var i := StartOfText(x);
    assert StartOfText(s) == 1 + i;
    assert s[1 + i..] == x[i..];
  }

  lemma JoinStartsWithWord(words: seq<string>)
    requires |words| > 0 && IsWord(words[0])
    ensures Join(words) != "" && !IsSpace(Join(words)[0])
  {
    if |words| > 1 {
      assert Join(words)[0] == words[0][0];
    }
  }

  /** Splitting a space-joined list of words gives the words back. */
  lemma {:induction false} SplitJoin(words: seq<string>)
    requires forall k :: 0 <= k < |words| ==> IsWord(words[k])
    ensures Split(Join(words)) == words
  {
    if |words| == 0 {
    } else if |words| == 1 {
      var w := words[0];
      WordLengthOfWord(w, "");
      assert w + "" == w;
      assert StartOfText(w) == 0;
      assert w[0..] == w && w[..|w|] == w && w[|w|..] == "";
    } else {
      var w := words[0];
      var x := Join(words[1..]);
      JoinStartsWithWord(words[1..]);
      var s := w + " " + x;
      assert Join(words) == s;
      assert s == w + ([' '] + x);
      WordLengthOfWord(w, [' '] + x);
      assert StartOfText(s) == 0;
      assert s[0..] == s;
      assert s[..|w|] == w;
      assert s[|w|..] == [' '] + x;
      SplitSkipsSpace(' ', x);
      SplitJoin(words[1..]);
    }
  }

  // ---------------------------------------------------------------------------
  // Case conversions

  /** `str.lower()`. */
  function Lower(s: string): (r: string)
    ensures |r| == |s|
    ensures forall i :: 0 <= i < |s| ==> r[i] == ToLower(s[i])
  {
    seq(|s|, i requires 0 <= i < |s| => ToLower(s[i]))
  }

  /** Lower-casing twice is lower-casing once. */
  lemma LowerIdempotent(s: string)
    ensures Lower(Lower(s)) == Lower(s)
  {
  }

  /** `str.capitalize()`: the first character upper-cased, all others lower-cased. */
  function Capitalize(w: string): (r: string)
    ensures |r| == |w|
    ensures IsWord(w) ==> IsWord(r)
    ensures IsAlpha(w) ==> IsAlpha(r)
  {
    if w == "" then "" else [ToUpper(w[0])] + Lower(w[1..])
  }

  lemma CapitalizeIdempotent(w: string)
    ensures Capitalize(Capitalize(w)) == Capitalize(w)
  {
    if w != "" {
      var c := Capitalize(w);
      assert c[1..] == Lower(w[1..]);
      assert Lower(c[1..]) == c[1..];
    }
  }

  /** `str.title()` continued after a character that was (`prevCased`) or was not a letter. */
  function TitleFrom(s: string, prevCased: bool): (r: string)
    ensures |r| == |s|
    ensures forall i :: 0 <= i < |s| ==> (IsLetter(r[i]) <==> IsLetter(s[i]))
  {
    if s == "" then ""
    else
      var c := s[0];
      var d := if !IsLetter(c) then c else if prevCased then ToLower(c) else ToUpper(c);
      [d] + TitleFrom(s[1..], IsLetter(c))
  }

  /** `str.title()`: each letter that follows a non-letter is upper-cased, every other letter lower-cased. */
  function Title(s: string): (r: string)
    ensures |r| == |s|
    ensures IsAlpha(r) <==> IsAlpha(s)
  {
    TitleFrom(s, false)
  }
}
