/** The handful of Python `str` operations the program relies on, over
    `string` (a sequence of Unicode scalar values, as Python's `str` is).

    - `Lower` is `str.lower` restricted to ASCII letters: every table and
      keyword in the program is ASCII or CJK, and CJK has no case. Python
      also lowers other letters; the one that becomes ASCII, U+212A KELVIN
      SIGN (to `k`), is not modelled.
    - `Contains` is Python's `sub in s`.
    - `Join`/`Split` are `"\n".join(lines)` and `s.split("\n")`.
    - `Strip` is `str.strip()` with Python's own set of whitespace code points.
    - `ParseInt` is `int(s)` for a `str` argument, with ASCII digits only;
      `Show` is `str(n)`. */
module Text {
  import opened Results

  // ---------------------------------------------------------------------
  // Case folding

  function LowerChar(c: char): char {
    if 'A' <= c <= 'Z' then (c as int + 32) as char else c
  }

  predicate IsAsciiLetter(c: char) {
    'A' <= c <= 'Z' || 'a' <= c <= 'z'
  }

  /** ASCII `str.lower`. */
  function Lower(s: string): (r: string)
    ensures |r| == |s|
  {
    seq(|s|, i requires 0 <= i < |s| => LowerChar(s[i]))
  }

  /** A string without ASCII letters (every key of the location table is
      one) is its own lower-case form, and it is the lower-case form of
      nothing else. */
  lemma LowerFixesLetterless(s: string, t: string)
    requires forall i :: 0 <= i < |s| ==> !IsAsciiLetter(s[i])
    ensures Lower(s) == s
    ensures Lower(t) == s ==> t == s
  {
    if Lower(t) == s {
      forall i | 0 <= i < |t|
        ensures t[i] == s[i]
      {
        assert Lower(t)[i] == LowerChar(t[i]);
      }
    }
  }

  // ---------------------------------------------------------------------
  // Substrings

  /** `sub` occurs in `s` starting at index `i`. */
  predicate OccursAt(s: string, sub: string, i: int) {
    0 <= i <= |s| - |sub| && s[i..i + |sub|] == sub
  }

  /** Python's `sub in s`. */
  predicate Contains(s: string, sub: string) {
    exists i | 0 <= i <= |s| - |sub| :: OccursAt(s, sub, i)
  }

  /** The empty string is in every string, so an empty query matches
      everything. */
  lemma ContainsEmpty(s: string)
    ensures Contains(s, "")
  {
    assert OccursAt(s, "", 0);
  }

  /** Containment is transitive: whatever contains `mid` contains every
      substring of `mid`. */
  lemma ContainsTransitive(s: string, mid: string, sub: string)
    requires Contains(s, mid) && Contains(mid, sub)
    ensures Contains(s, sub)
  {
    var i :| 0 <= i <= |s| - |mid| && OccursAt(s, mid, i);
    var j :| 0 <= j <= |mid| - |sub| && OccursAt(mid, sub, j);
    assert mid == s[i..i + |mid|];
    forall k | 0 <= k < |sub|
      ensures s[i + j..i + j + |sub|][k] == sub[k]
    {
      assert sub[k] == mid[j + k] == s[i + j + k];
    }
    assert s[i + j..i + j + |sub|] == sub;
    assert OccursAt(s, sub, i + j);
  }

  // ---------------------------------------------------------------------
  // Lines

  /** `"\n".join(lines)`. */
  function Join(lines: seq<string>): string {
    if |lines| == 0 then ""
    else if |lines| == 1 then lines[0]
    else lines[0] + "\n" + Join(lines[1..])
  }

  /** `s.split("\n")`: always at least one piece, the empty string giving
      `[""]`. */
  function Split(s: string): (r: seq<string>)
    ensures |r| >= 1
    decreases |s|
  {
    if |s| == 0 then [""]
    else
      var rest := Split(s[1..]);
      if s[0] == '\n' then [""] + rest
      else [[s[0]] + rest[0]] + rest[1..]
  }

  predicate NoNewline(s: string) {
    forall i :: 0 <= i < |s| ==> s[i] != '\n'
  }

  /** A line without a newline is glued onto the first piece of whatever
      follows it. */
  lemma {:induction false} SplitPrefix(a: string, s: string)
    requires NoNewline(a)
    ensures Split(a + s) == [a + Split(s)[0]] + Split(s)[1..]
    decreases |a|
  {
    if |a| > 0 {
      assert (a + s)[1..] == a[1..] + s;
      SplitPrefix(a[1..], s);
      assert [a[0]] + (a[1..] + Split(s)[0]) == a + Split(s)[0];
    } else {
      assert a + s == s;
      assert a + Split(s)[0] == Split(s)[0];
      assert Split(s) == [Split(s)[0]] + Split(s)[1..];
    }
  }

  /** Splitting the joined lines gives the lines back, as long as no line
      holds a newline of its own. */
  lemma {:induction false} SplitJoin(lines: seq<string>)
    requires |lines| >= 1
    requires forall k :: 0 <= k < |lines| ==> NoNewline(lines[k])
    ensures Split(Join(lines)) == lines
    decreases |lines|
  {
    if |lines| == 1 {
      SplitPrefix(lines[0], "");
      assert lines[0] + "" == lines[0];
      assert Split("") == [""];
      assert [lines[0] + ""] + [""][1..] == lines;
    } else {
      var rest := Join(lines[1..]);
      SplitJoin(lines[1..]);
      assert lines[0] + "\n" + rest == lines[0] + ("\n" + rest);
      SplitPrefix(lines[0], "\n" + rest);
      assert ("\n" + rest)[1..] == rest;
      assert Split("\n" + rest) == [""] + lines[1..];
      assert Join(lines) == lines[0] + "\n" + rest;
      assert lines[0] + "" == lines[0];
      assert [lines[0]] + lines[1..] == lines;
    }
  }

  // ---------------------------------------------------------------------
  // Whitespace

  /** Python's `str.isspace` for one character: the ASCII controls 9..13
      and 28..31, space, NEL, NBSP and the Unicode space separators. */
  predicate IsSpace(c: char) {
    || c == ' '
    || '\t' <= c <= '\r'
    || '\U{1C}' <= c <= '\U{1F}'
    || c == '\U{85}' || c == '\U{A0}' || c == '\U{1680}'
    || '\U{2000}' <= c <= '\U{200A}'
    || c == '\U{2028}' || c == '\U{2029}' || c == '\U{202F}' || c == '\U{205F}'
    || c == '\U{3000}'
  }

  predicate AllSpace(s: string) {
    forall i :: 0 <= i < |s| ==> IsSpace(s[i])
  }

  /** Neither end of `s` is whitespace. */
  predicate Trimmed(s: string) {
    |s| > 0 ==> !IsSpace(s[0]) && !IsSpace(s[|s| - 1])
  }

  /** How many whitespace characters `s` starts with. */
  function Leading(s: string): (n: nat)
    ensures n <= |s| && AllSpace(s[..n])
    ensures n < |s| ==> !IsSpace(s[n])
  {
    if |s| > 0 && IsSpace(s[0]) then
      var n := 1 + Leading(s[1..]);
      assert s[..n] == [s[0]] + s[1..][..n - 1];
      n
    else 0
  }

  /** How many whitespace characters `s` ends with. */
  function Trailing(s: string): (n: nat)
    ensures n <= |s| && AllSpace(s[|s| - n..])
    ensures n < |s| ==> !IsSpace(s[|s| - n - 1])
  {
    if |s| > 0 && IsSpace(s[|s| - 1]) then
      var n := 1 + Trailing(s[..|s| - 1]);
      assert s[|s| - n..] == s[..|s| - 1][|s| - n..] + [s[|s| - 1]];
      n
    else 0
  }

  /** `str.strip()`: the infix of `s` that is left once the whitespace at
      both ends is removed. */
  function Strip(s: string): (r: string)
    ensures Leading(s) + |r| <= |s|
    ensures r == s[Leading(s)..Leading(s) + |r|]
    ensures AllSpace(s[Leading(s) + |r|..])
    ensures Trimmed(r)
  {
    var i := Leading(s);
    if i == |s| then ""
    else
      var k := Trailing(s);
      s[i..|s| - k]
  }

  /** A string already free of whitespace at both ends is left alone. */
  lemma StripTrimmed(s: string)
    requires Trimmed(s)
    ensures Strip(s) == s
  {
    if |s| > 0 {
      assert Leading(s) == 0;
      assert Trailing(s) == 0;
    }
  }

  /** A string strips to nothing exactly when it is all whitespace. */
  lemma StripAllSpace(s: string)
    ensures Strip(s) == "" <==> AllSpace(s)
  {
    var n := Leading(s);
    if Strip(s) == "" {
      assert n == |s|;
      assert s[..n] == s;
    }
  }

  // ---------------------------------------------------------------------
  // Integers

  predicate IsDigit(c: char) {
    '0' <= c <= '9'
  }

  /** `s.isdigit()` for ASCII: non-empty and digits only. */
  predicate IsDigits(s: string) {
    |s| > 0 && forall i :: 0 <= i < |s| ==> IsDigit(s[i])
  }

  /** The value of a run of decimal digits, most significant first. */
  function DigitsValue(s: string): (n: nat)
    requires forall i :: 0 <= i < |s| ==> IsDigit(s[i])
  {
    if |s| == 0 then 0
    else
      assert IsDigit(s[|s| - 1]);
      DigitsValue(s[..|s| - 1]) * 10 + (s[|s| - 1] as int - '0' as int)
  }

  /** The ASCII information separators U+001C..U+001F. `str.strip` removes
      them, but `int()` does not take them for whitespace: it skips only
      space and `\t\n\v\f\r` among the ASCII characters (and any non-ASCII
      whitespace, which it first turns into a space). */
  predicate IsSeparator(c: char) {
    '\U{1C}' <= c <= '\U{1F}'
  }

  predicate SeparatorFree(s: string) {
    forall i :: 0 <= i < |s| ==> !IsSeparator(s[i])
  }

  /** The text `int()` reads the number from: `s` without the whitespace
      at its ends, or `None` when that whitespace holds a separator. */
  function IntText(s: string): Option<string> {
    var t := Strip(s);
    var n := Leading(s);
    if SeparatorFree(s[..n]) && SeparatorFree(s[n + |t|..]) then Some(t) else None
  }

  /** One optional sign, then at least one decimal digit. */
  function SignedValue(t: string): Option<int> {
    if |t| > 0 && (t[0] == '+' || t[0] == '-') then
      if IsDigits(t[1..]) then
        var magnitude: int := DigitsValue(t[1..]);
        Some(if t[0] == '-' then -magnitude else magnitude)
      else None
    else if IsDigits(t) then Some(DigitsValue(t))
    else None
  }

  /** Python's `int(s)` for a `str`: surrounding whitespace is ignored, one
      optional sign, then at least one decimal digit; anything else raises
      `ValueError`, modelled as `None`. A separator in the whitespace
      around the number is not skipped, so it makes `int()` raise. */
  function ParseInt(s: string): Option<int> {
    var t :- IntText(s);
    SignedValue(t)
  }

  function DigitChar(d: nat): char
    requires d < 10
  {
    ('0' as int + d) as char
  }

  /** The decimal digits of `n` without leading zeros. */
  function NatDigits(n: nat): (r: string)
    ensures IsDigits(r)
  {
    if n < 10 then [DigitChar(n)] else NatDigits(n / 10) + [DigitChar(n % 10)]
  }

  /** Python's `str(n)` for an `int`. */
  function Show(n: int): string {
    if n < 0 then "-" + NatDigits(-n) else NatDigits(n)
  }

  lemma {:induction false} NatDigitsValue(n: nat)
    ensures DigitsValue(NatDigits(n)) == n
  {
    if n >= 10 {
      var r := NatDigits(n);
      NatDigitsValue(n / 10);
      assert r[..|r| - 1] == NatDigits(n / 10);
    }
  }

  lemma NatDigitsTrimmed(n: nat)
    ensures Trimmed(NatDigits(n)) && NatDigits(n)[0] != '+' && NatDigits(n)[0] != '-'
  {
    var r := NatDigits(n);
    assert IsDigit(r[0]) && IsDigit(r[|r| - 1]);
  }

  /** `int(str(n)) == n`: the parser reads back every integer the program
      could print. */
  lemma ShowParse(n: int)
    ensures ParseInt(Show(n)) == Some(n)
  {
    var s := Show(n);
    if n < 0 {
      var d := NatDigits(-n);
      NatDigitsValue(-n);
      NatDigitsTrimmed(-n);
      assert s[1..] == d;
      assert Trimmed(s);
      StripTrimmed(s);
    } else {
      NatDigitsValue(n);
      NatDigitsTrimmed(n);
      StripTrimmed(s);
    }
  }

  /** Spaces and newlines around a string that has no whitespace at its
      ends do not change what `int()` reads. */
  lemma PaddingIgnored(t: string)
    requires |t| > 0 && Trimmed(t)
    ensures ParseInt(" " + t + "\n") == ParseInt(t)
  {
    StripTrimmed(t);
    assert Leading(t) == 0;
    var a := " " + t + "\n";
    assert Leading(a) == 1 by {
      assert Leading(a[1..]) == 0 by { assert a[1..][0] == t[0]; }
    }
    assert Trailing(a) == 1 by {
      assert a[..|a| - 1] == " " + t;
      assert Trailing(" " + t) == 0;
    }
    assert Strip(a) == t by { assert a[1..|a| - 1] == t; }
    assert a[..1] == " " && a[1 + |t|..] == "\n";
  }

  /** A separator before the text is not skipped: `int()` raises. */
  lemma LeadingSeparatorRaises(t: string)
    requires |t| > 0 && !IsSpace(t[0])
    ensures ParseInt("\U{1C}" + t) == None
  {
    var b := "\U{1C}" + t;
    assert Leading(b[1..]) == 0 by { assert b[1..][0] == t[0]; }
    assert Leading(b) == 1;
    assert b[..1][0] == '\U{1C}';
  }

  /** A separator after the text is not skipped either. */
  lemma TrailingSeparatorRaises(t: string)
    requires |t| > 0 && !IsSpace(t[0]) && !IsSpace(t[|t| - 1])
    ensures ParseInt(t + "\U{1F}") == None
  {
    var c := t + "\U{1F}";
    assert Leading(c) == 0 by { assert c[0] == t[0]; }
    assert Trailing(c) == 1 by {
      assert c[..|c| - 1] == t;
      assert Trailing(t) == 0;
    }
    assert Strip(c) == t by { assert c[0..|c| - 1] == t; }
    assert c[|t|..] == "\U{1F}";
  }

  /** Around a printed integer, a space or a newline is skipped, but a
      separator makes `int()` raise. */
  lemma SeparatorRaises(n: int)
    ensures ParseInt(" " + Show(n) + "\n") == Some(n)
    ensures ParseInt("\U{1C}" + Show(n)) == None
    ensures ParseInt(Show(n) + "\U{1F}") == None
  {
    var s := Show(n);
    ShowParse(n);
    NatDigitsTrimmed(if n < 0 then -n else n);
    assert IsDigits(NatDigits(if n < 0 then -n else n));
    assert s[0] == '-' || IsDigit(s[0]);
    assert IsDigit(s[|s| - 1]);
    PaddingIgnored(s);
    LeadingSeparatorRaises(s);
    TrailingSeparatorRaises(s);
  }
}
