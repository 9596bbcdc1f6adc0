/** The string functions of Go's standard library that keys and symbols go through. */
module GoStrings {
  import opened Common

  /** unicode.IsSpace. */
  predicate IsSpace(c: char) {
    var n := c as int;
    || 9 <= n <= 13 || n == 32 || n == 0x85 || n == 0xA0 || n == 0x1680 || 0x2000 <= n <= 0x200a
    || n == 0x2028 || n == 0x2029 || n == 0x202f || n == 0x205f || n == 0x3000
  }

  /** unicode.IsControl. */
  predicate IsControl(c: char) {
    var n := c as int;
    n <= 0x1f || 0x7f <= n <= 0x9f
  }

  function TrimLeft(s: string): string {
    if s != "" && IsSpace(s[0]) then TrimLeft(s[1..]) else s
  }

  function TrimRight(s: string): string {
    if s != "" && IsSpace(s[|s| - 1]) then TrimRight(s[..|s| - 1]) else s
  }

  function TrimSpace(s: string): string {
    TrimRight(TrimLeft(s))
  }

  ghost predicate Trimmed(s: string) {
    s == "" || (!IsSpace(s[0]) && !IsSpace(s[|s| - 1]))
  }

  lemma {:induction false} TrimRightEnds(s: string)
    ensures TrimRight(s) <= s
    ensures TrimRight(s) == "" || !IsSpace(TrimRight(s)[|TrimRight(s)| - 1])
  {
    if s != "" && IsSpace(s[|s| - 1]) {
      TrimRightEnds(s[..|s| - 1]);
    }
  }

  lemma {:induction false} TrimLeftEnds(s: string)
    ensures TrimLeft(s) == "" || !IsSpace(TrimLeft(s)[0])
  {
    if s != "" && IsSpace(s[0]) {
      TrimLeftEnds(s[1..]);
    }
  }

  /** Trimming reaches a trimmed string, and a trimmed string is left alone. */
  lemma TrimSpaceTrims(s: string)
    ensures Trimmed(TrimSpace(s))
    ensures Trimmed(s) ==> TrimSpace(s) == s
  {
    TrimLeftEnds(s);
    TrimRightEnds(TrimLeft(s));
  }

  /** The white space, one character at a time. */
  lemma SpacesAre(c: char)
    ensures IsSpace(c) <==>
              c in "\t\n\U{b}\U{c}\r \U{85}\U{a0}\U{1680}\U{2000}\U{2001}\U{2002}\U{2003}\U{2004}\U{2005}" +
                   "\U{2006}\U{2007}\U{2008}\U{2009}\U{200a}\U{2028}\U{2029}\U{202f}\U{205f}\U{3000}"
  {
    var spaces := "\t\n\U{b}\U{c}\r \U{85}\U{a0}\U{1680}\U{2000}\U{2001}\U{2002}\U{2003}\U{2004}\U{2005}" +
                  "\U{2006}\U{2007}\U{2008}\U{2009}\U{200a}\U{2028}\U{2029}\U{202f}\U{205f}\U{3000}";
    assert c in spaces <==> exists i :: 0 <= i < |spaces| && spaces[i] == c;
  }

  ghost predicate Blank(s: string) {
    forall c :: c in s ==> IsSpace(c)
  }

  lemma {:induction false} TrimLeftCuts(s: string) returns (a: string)
    ensures s == a + TrimLeft(s) && Blank(a)
  {
    a := "";
    if s != "" && IsSpace(s[0]) {
      var rest := TrimLeftCuts(s[1..]);
      a := [s[0]] + rest;
      assert s == [s[0]] + s[1..];
    }
  }

  lemma {:induction false} TrimRightCuts(s: string) returns (b: string)
    ensures s == TrimRight(s) + b && Blank(b)
  {
    b := "";
    if s != "" && IsSpace(s[|s| - 1]) {
      var rest := TrimRightCuts(s[..|s| - 1]);
      b := rest + [s[|s| - 1]];
      assert s == s[..|s| - 1] + [s[|s| - 1]];
    }
  }

  /** Trimming takes away white space at the two ends and nothing else. */
  lemma TrimSpaceCuts(s: string) returns (a: string, b: string)
    ensures s == a + TrimSpace(s) + b && Blank(a) && Blank(b)
  {
    a := TrimLeftCuts(s);
    b := TrimRightCuts(TrimLeft(s));
  }

  /** Trimming finds a trimmed text between blanks. */
  lemma MiddleOf(a: string, s: string, b: string)
    requires Blank(a) && Blank(b) && s != "" && Trimmed(s)
    ensures TrimSpace(a + s + b) == s
  {
    BlankThen(a, s + b);
    ThenBlank(s, b);
    assert a + s + b == a + (s + b);
  }

  lemma {:induction false} BlankThen(a: string, s: string)
    requires Blank(a) && s != "" && !IsSpace(s[0])
    ensures TrimLeft(a + s) == s
  {
    if a == "" {
      assert a + s == s;
    } else {
      assert a[0] in a && (a + s)[1..] == a[1..] + s;
      BlankThen(a[1..], s);
    }
  }

  lemma {:induction false} ThenBlank(s: string, b: string)
    requires Blank(b) && s != "" && !IsSpace(s[|s| - 1])
    ensures TrimRight(s + b) == s
  {
    if b == "" {
      assert s + b == s;
    } else {
      assert b[|b| - 1] in b && (s + b)[..|s + b| - 1] == s + b[..|b| - 1];
      ThenBlank(s, b[..|b| - 1]);
    }
  }

  /** strings.LastIndex for a one-character pattern; -1 when absent. */
  function LastIndex(s: string, c: char): (i: int)
    ensures -1 <= i < |s|
    ensures 0 <= i ==> s[i] == c
    ensures forall j :: i < j < |s| ==> s[j] != c
  {
    if s == "" then -1 else if s[|s| - 1] == c then |s| - 1 else LastIndex(s[..|s| - 1], c)
  }

  /** Joined at a character the left parts do not contain, strings can be taken apart again. */
  lemma FirstSplits(a: string, b: string, a': string, b': string, c: char)
    requires a + [c] + b == a' + [c] + b' && c !in a && c !in a'
    ensures a == a' && b == b'
  {
    var s := a + [c] + b;
    assert s[|a|] == c && s[|a'|] == c;
    assert s[..|a|] == a && s[..|a'|] == a';
    assert s[|a| + 1..] == b && s[|a'| + 1..] == b';
  }

  /** The same at a character the right parts do not contain. */
  lemma LastSplits(a: string, b: string, a': string, b': string, c: char)
    requires a + [c] + b == a' + [c] + b' && c !in b && c !in b'
    ensures a == a' && b == b'
  {
    var s := a + [c] + b;
    assert s[|a|] == c && s[|a'|] == c;
    assert s[..|a|] == a && s[..|a'|] == a';
    assert s[|a| + 1..] == b && s[|a'| + 1..] == b';
  }

  function LowerChar(c: char): char {
    if 'A' <= c <= 'Z' then 'a' + (c - 'A') else c
  }

  /** strings.ToLower on ASCII letters. */
  function Lower(s: string): string {
    seq(|s|, i requires 0 <= i < |s| => LowerChar(s[i]))
  }

  function UpperChar(c: char): char {
    if 'a' <= c <= 'z' then 'A' + (c - 'a') else c
  }

  /** strings.ToUpper on ASCII letters. */
  function Upper(s: string): string {
    seq(|s|, i requires 0 <= i < |s| => UpperChar(s[i]))
  }

  // ---------------------------------------------------------------- letter case

  /** Equal, or the upper and the lower case of one ASCII letter. */
  predicate SameLetter(c: char, d: char) {
    || c == d
    || ('A' <= c <= 'Z' && d as int == c as int + 32)
    || ('a' <= c <= 'z' && d as int == c as int - 32)
  }

  /** strings.EqualFold on ASCII letters. */
  predicate SameIgnoringCase(a: string, b: string) {
    |a| == |b| && forall i :: 0 <= i < |a| ==> SameLetter(a[i], b[i])
  }

  /** Lower-casing keeps every character up to its case and leaves no capital; so two strings become the same
      exactly when they were the same up to case. */
  lemma LowerIff(a: string, b: string)
    ensures SameIgnoringCase(a, Lower(a)) && forall c :: c in Lower(a) ==> !('A' <= c <= 'Z')
    ensures (forall c :: c in a ==> !('A' <= c <= 'Z')) ==> Lower(a) == a
    ensures Lower(a) == Lower(b) <==> SameIgnoringCase(a, b)
  {
    assert forall i :: 0 <= i < |a| ==> a[i] in a;
    forall i | 0 <= i < |a| && i < |b| ensures LowerChar(a[i]) == LowerChar(b[i]) <==> SameLetter(a[i], b[i]) {
    }
    if Lower(a) == Lower(b) {
      forall i | 0 <= i < |a| ensures SameLetter(a[i], b[i]) {
        assert Lower(a)[i] == Lower(b)[i];
      }
    }
  }

  /** The same for upper case. */
  lemma UpperIff(a: string, b: string)
    ensures SameIgnoringCase(a, Upper(a)) && forall c :: c in Upper(a) ==> !('a' <= c <= 'z')
    ensures (forall c :: c in a ==> !('a' <= c <= 'z')) ==> Upper(a) == a
    ensures Upper(a) == Upper(b) <==> SameIgnoringCase(a, b)
  {
    assert forall i :: 0 <= i < |a| ==> a[i] in a;
    forall i | 0 <= i < |a| && i < |b| ensures UpperChar(a[i]) == UpperChar(b[i]) <==> SameLetter(a[i], b[i]) {
    }
    if Upper(a) == Upper(b) {
      forall i | 0 <= i < |a| ensures SameLetter(a[i], b[i]) {
        assert Upper(a)[i] == Upper(b)[i];
      }
    }
  }

  /** A word in capitals is met by its spellings in any case, and by nothing else. */
  lemma UpperIsWord(s: string, word: string)
    requires forall c :: c in word ==> !('a' <= c <= 'z')
    ensures Upper(s) == word <==> SameIgnoringCase(s, word)
  {
    UpperIff(word, word);
    UpperIff(s, word);
  }

  // ---------------------------------------------------------------- decimal numbers

  predicate IsDigit(c: char) { '0' <= c <= '9' }

  function DigitChar(d: nat): char
    requires d < 10
  {
    '0' + d as char
  }

  function Digits(n: nat): (s: string)
    ensures s != "" && forall c :: c in s ==> IsDigit(c)
  {
    if n < 10 then [DigitChar(n)] else Digits(n / 10) + [DigitChar(n % 10)]
  }

  /** Decimal: the last digit is the remainder by ten, the others are the quotient. */
  lemma DigitsAre(n: nat, d: nat)
    requires d < 10
    ensures Digits(d) == ["0123456789"[d]]
    ensures n > 0 ==> Digits(10 * n + d) == Digits(n) + Digits(d)
  {
  }

  /** fmt's %d. */
  function Itoa(n: int): string {
    if n < 0 then "-" + Digits(-n) else Digits(n)
  }

  function DigitsValue(s: string): Option<nat> {
    if s == "" then None
    else if !IsDigit(s[|s| - 1]) then None
    else
      var d := s[|s| - 1] as int - '0' as int;
      if |s| == 1 then Some(d)
      else
        match DigitsValue(s[..|s| - 1])
        case None => None
        case Some(v) => Some(10 * v + d)
  }

  /** The value strconv.Atoi returns when its error is ignored: 0 on a syntax error, the nearest
      64-bit value on a range error. */
  function AtoiValue(s: string): Int64 {
    var negative := s != "" && s[0] == '-';
    var digits := if s != "" && (s[0] == '-' || s[0] == '+') then s[1..] else s;
    match DigitsValue(digits)
    case None => 0
    case Some(v) =>
      if negative then (if v > TWO_63 then -TWO_63 else -(v as int))
      else if v >= TWO_63 then TWO_63 - 1 else v
  }

  lemma {:induction false} DigitsRoundTrip(n: nat)
    ensures DigitsValue(Digits(n)) == Some(n)
  {
    if n >= 10 {
      DigitsRoundTrip(n / 10);
      assert Digits(n)[..|Digits(n)| - 1] == Digits(n / 10);
    }
  }

  /** What the ignored error leaves when the string is no number: 0. */
  lemma AtoiSyntaxError(s: string, i: nat)
    requires 1 <= i < |s| && !IsDigit(s[i])
    ensures AtoiValue(s) == 0
  {
    NotANumber(s, i);
    NotANumber(s[1..], i - 1);
  }

  function Saturated(v: int): int {
    if v < -TWO_63 then -TWO_63 else if v >= TWO_63 then TWO_63 - 1 else v
  }

  /** The nearest 64-bit number when it is too large; a leading '+' is accepted. */
  lemma AtoiRangeError(n: nat)
    ensures AtoiValue(Digits(n)) == AtoiValue("+" + Digits(n)) == Saturated(n)
    ensures AtoiValue("-" + Digits(n)) == Saturated(-(n as int))
  {
    var s := Digits(n);
    DigitsRoundTrip(n);
    assert s[0] in s;
    assert ("-" + s)[1..] == s && ("+" + s)[1..] == s;
  }

  lemma {:induction false} NotANumber(s: string, i: nat)
    requires i < |s| && !IsDigit(s[i])
    ensures DigitsValue(s) == None
  {
    if i < |s| - 1 && IsDigit(s[|s| - 1]) {
      NotANumber(s[..|s| - 1], i);
    }
  }

  lemma AtoiInvertsItoa(n: Int64)
    ensures AtoiValue(Itoa(n)) == n
  {
    DigitsRoundTrip(if n < 0 then -(n as int) else n);
    if n < 0 {
      assert Itoa(n)[1..] == Digits(-(n as int));
    } else {
      assert Itoa(n)[0] in Itoa(n);
    }
  }
}
