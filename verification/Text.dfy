/** Results of fallible operations. */
module Results {
  datatype Option<+T> = None | Some(value: T)

  datatype Result<+T, +E> = Ok(value: T) | Err(error: E)
}

/** The few Go string functions that the parsers and printers of mulchd are built on.
    Text is a sequence of characters; letters are ASCII letters. */
module Text {
  import opened Results

  // bounds of a Go `int` on 64-bit platforms
  const MAX_INT: int := 0x7FFF_FFFF_FFFF_FFFF
  const MIN_INT: int := -0x8000_0000_0000_0000

  predicate IsDigit(c: char) {
    '0' <= c <= '9'
  }

  predicate IsWordChar(c: char) {
    IsDigit(c) || 'a' <= c <= 'z' || 'A' <= c <= 'Z' || c == '_'
  }

  predicate IsSpace(c: char) {
    c in {' ', '\t', '\n', '\U{000B}', '\U{000C}', '\r', '\U{0085}', '\U{00A0}'}
  }

  predicate AllDigits(s: string) {
    forall c | c in s :: IsDigit(c)
  }

  predicate AllWordChars(s: string) {
    forall c | c in s :: IsWordChar(c)
  }

  // -- decimal numbers ------------------------------------------------------

  function Digit(d: nat): (c: char)
    requires d < 10
    ensures IsDigit(c) && (c - '0') as int == d
  {
    '0' + d as char
  }

  function DigitValue(c: char): (d: nat)
    requires IsDigit(c)
    ensures d < 10 && Digit(d) == c
  {
    (c - '0') as nat
  }

  /** The value of a string of digits (leading zeros are allowed). */
  function DigitsValue(s: string): nat
    requires AllDigits(s)
  {
    if s == [] then 0 else 10 * DigitsValue(s[..|s| - 1]) + DigitValue(s[|s| - 1])
  }

  /** Decimal form of a natural number, without leading zeros. */
  function NatToString(n: nat): (s: string)
    ensures s != [] && AllDigits(s) && DigitsValue(s) == n
    ensures s[0] == '0' ==> n == 0 && s == "0"
  {
    if n < 10 then [Digit(n)] else NatToString(n / 10) + [Digit(n % 10)]
  }

  /** strconv.Itoa */
  function Itoa(n: int): string {
    if n < 0 then "-" + NatToString(-n) else NatToString(n)
  }

  /** strconv.Atoi: an optional sign, at least one digit, and a value that fits a Go `int`. */
  function Atoi(s: string): Option<int> {
    var digits := if s != [] && (s[0] == '+' || s[0] == '-') then s[1..] else s;
    if digits == [] || !AllDigits(digits) then None
    else
      var v: int := if s[0] == '-' then -(DigitsValue(digits) as int) else DigitsValue(digits);
      if MIN_INT <= v <= MAX_INT then Some(v) else None
  }

  lemma AtoiItoa(n: int)
    requires MIN_INT <= n <= MAX_INT
    ensures Atoi(Itoa(n)) == Some(n)
  {
    if n < 0 {
      assert Itoa(n)[1..] == NatToString(-n);
    } else {
      assert IsDigit(Itoa(n)[0]);
    }
  }

  lemma {:induction false} ValueOfDigits(s: string, c: char)
    requires AllDigits(s) && IsDigit(c)
    ensures DigitsValue(s + [c]) == 10 * DigitsValue(s) + (c as int - 48)
  {
    assert (s + [c])[..|s|] == s;
  }

  lemma AppendDigit(n: nat, d: nat)
    requires n > 0 && d < 10
    ensures NatToString(10 * n + d) == NatToString(n) + [Digit(d)]
  {
  }

  lemma {:induction false} CanonicalDigits(digits: string)
    requires AllDigits(digits) && digits != [] && digits[0] != '0'
    ensures DigitsValue(digits) > 0
    ensures NatToString(DigitsValue(digits)) == digits
  {
    var front, last := digits[..|digits| - 1], digits[|digits| - 1];
    assert digits == front + [last];
    assert IsDigit(last);
    if front != [] {
      CanonicalDigits(front);
      AppendDigit(DigitsValue(front), DigitValue(last));
    }
  }

  /** A number is a sequence of decimal digits that may have a sign; it must fit 64 bits. */
  lemma AtoiMeaning(digits: string)
    requires digits != "" && AllDigits(digits)
    ensures var v: int := DigitsValue(digits);
      && Atoi(digits) == Atoi("+" + digits) == (if v <= 9223372036854775807 then Some(v) else None)
      && Atoi("-" + digits) == (if v <= 9223372036854775808 then Some(-v) else None)
  {
    assert IsDigit(digits[0]);
    assert ("+" + digits)[1..] == digits && ("-" + digits)[1..] == digits;
  }

  /** Nothing else is a number. */
  lemma NoNumber(s: string)
    requires s in {"", "+", "-"}
      || exists i | 0 <= i < |s| :: !('0' <= s[i] <= '9') && (i > 0 || (s[i] != '+' && s[i] != '-'))
    ensures Atoi(s) == None
  {
    if i :| 0 <= i < |s| && !('0' <= s[i] <= '9') && (i > 0 || (s[i] != '+' && s[i] != '-')) {
      assert s[i] in s && (i > 0 ==> s[1..][i - 1] == s[i]);
    }
  }

  // -- searching and splitting ----------------------------------------------

  predicate At(s: string, sub: string, i: int) {
    0 <= i && i + |sub| <= |s| && s[i..i + |sub|] == sub
  }

  /** Position of the first occurrence of `sub`, at or after `from`; -1 if there is none. */
  function IndexFrom(s: string, sub: string, from: nat): (r: int)
    requires from <= |s|
    ensures r == -1 || from <= r
    ensures r >= 0 ==> At(s, sub, r) && forall j | from <= j < r :: !At(s, sub, j)
    ensures r == -1 ==> forall j | from <= j :: !At(s, sub, j)
    decreases |s| - from
  {
    if At(s, sub, from) then from
    else if from == |s| then -1
    else IndexFrom(s, sub, from + 1)
  }

  /** strings.Contains */
  predicate Contains(s: string, sub: string) {
    IndexFrom(s, sub, 0) >= 0
  }

  /** strings.Split, for a non-empty separator. */
  function Split(s: string, sep: string): (parts: seq<string>)
    requires sep != []
    ensures parts != []
    decreases |s|
  {
    var i := IndexFrom(s, sep, 0);
    if i < 0 then [s] else [s[..i]] + Split(s[i + |sep|..], sep)
  }

  /** strings.HasPrefix */
  predicate HasPrefix(s: string, prefix: string) {
    prefix <= s
  }

  lemma NotContained(s: string, sub: string, c: char)
    requires c in sub && c !in s
    ensures !Contains(s, sub)
  {
  }

  /** A separator whose first character occurs in neither side splits a text into these sides. */
  lemma SplitInTwo(a: string, sep: string, b: string)
    requires sep != [] && sep[0] !in a && sep[0] !in b
    ensures Contains(a + sep + b, sep)
    ensures Split(a + sep + b, sep) == [a, b]
  {
    var s := a + sep + b;
    assert s[|a|..|a| + |sep|] == sep;
    assert At(s, sep, |a|);
    var i := IndexFrom(s, sep, 0);
    forall j | 0 <= j < |a| ensures !At(s, sep, j) {
      assert s[j] == a[j] && (j + |sep| <= |s| ==> s[j..j + |sep|][0] == a[j]);
    }
    assert i == |a|;
    assert s[..i] == a && s[i + |sep|..] == b;
    NotContained(b, sep, sep[0]);
  }

  lemma SplitInOne(s: string, sep: string)
    requires sep != [] && sep[0] !in s
    ensures Split(s, sep) == [s]
  {
  }

  // -- trimming and case ----------------------------------------------------

  function TrimLeft(s: string): string {
    if s != [] && IsSpace(s[0]) then TrimLeft(s[1..]) else s
  }

  function TrimRight(s: string): string {
    if s != [] && IsSpace(s[|s| - 1]) then TrimRight(s[..|s| - 1]) else s
  }

  /** strings.TrimSpace */
  function TrimSpace(s: string): string {
    TrimRight(TrimLeft(s))
  }

  function LowerChar(c: char): char {
    if 'A' <= c <= 'Z' then 'a' + (c - 'A') else c
  }

  /** strings.ToLower */
  function ToLower(s: string): string {
    seq(|s|, i requires 0 <= i < |s| => LowerChar(s[i]))
  }

  lemma TrimNothing(s: string)
    requires s == [] || (!IsSpace(s[0]) && !IsSpace(s[|s| - 1]))
    ensures TrimSpace(s) == s
  {
  }

  /** The characters of names: letters, digits and the underscore. */
  lemma WordMeaning(c: char)
    ensures IsWordChar(c) <==> '0' <= c <= '9' || 'A' <= c <= 'Z' || 'a' <= c <= 'z' || c == '_'
  {
  }

  /** Trimming takes the white space of Latin-1 away, at both ends and nowhere else. */
  lemma {:induction false} TrimMeaning(before: string, s: string, after: string)
    requires forall i | 0 <= i < |before| ::
      before[i] in [' ', '\t', '\n', '\r', 11 as char, 12 as char, 133 as char, 160 as char]
    requires forall i | 0 <= i < |after| ::
      after[i] in [' ', '\t', '\n', '\r', 11 as char, 12 as char, 133 as char, 160 as char]
    requires s == "" || (!IsSpace(s[0]) && !IsSpace(s[|s| - 1]))
    ensures TrimSpace(before + s + after) == s
    decreases |before| + |after|
  {
    var t := before + s + after;
    if before != "" {
      assert t[1..] == before[1..] + s + after;
      TrimMeaning(before[1..], s, after);
    } else if after != "" {
      assert t[..|t| - 1] == before + s + after[..|after| - 1];
      TrimMeaning(before, s, after[..|after| - 1]);
      TrimLast(t);
    } else {
      assert t == s;
    }
  }

  lemma {:induction false} TrimLast(s: string)
    requires s != "" && IsSpace(s[|s| - 1])
    ensures TrimSpace(s) == TrimSpace(s[..|s| - 1])
  {
    var t := s[..|s| - 1];
    if |s| > 1 && IsSpace(s[0]) {
      TrimLast(s[1..]);
      assert s[1..][..|s| - 2] == t[1..] && t[0] == s[0];
    } else if |s| > 1 {
      assert t[0] == s[0] && TrimLeft(s) == s && TrimLeft(t) == t;
    } else {
      assert t == "" && s[1..] == "";
    }
  }

  /** Of ASCII letters, capitals become the small letters 32 places further. */
  lemma LowerMeaning(s: string)
    ensures |ToLower(s)| == |s| && forall i | 0 <= i < |s| ::
      ToLower(s)[i] as int == if 65 <= s[i] as int <= 90 then s[i] as int + 32 else s[i] as int
  {
  }

  lemma LowerNothing(s: string)
    requires forall c | c in s :: !('A' <= c <= 'Z')
    ensures ToLower(s) == s
  {
    assert forall i | 0 <= i < |s| :: s[i] in s;
  }

  /** The longest prefix of digits. */
  function LeadingDigits(s: string): (d: string)
    ensures AllDigits(d) && d <= s
    ensures |d| < |s| ==> !IsDigit(s[|d|])
  {
    if s == [] || !IsDigit(s[0]) then [] else [s[0]] + LeadingDigits(s[1..])
  }

  lemma {:induction false} LeadingDigitsOf(digits: string, rest: string)
    requires AllDigits(digits) && (rest == [] || !IsDigit(rest[0]))
    ensures LeadingDigits(digits + rest) == digits
  {
    if digits == [] {
      assert digits + rest == rest;
    } else {
      assert (digits + rest)[1..] == digits[1..] + rest;
      LeadingDigitsOf(digits[1..], rest);
    }
  }
}
