/** The few Python string and integer conversions the scripts rely on:
    `str.lower`, `int(str)` and the decimal text of an `int` as `f"{n}"`
    writes it. Only ASCII characters are given special meaning. */
module Text {
  import opened Wrappers

  // ---------------------------------------------------------------------
  // Characters

  predicate IsDigit(c: char) { '0' <= c <= '9' }

  predicate IsAsciiLetter(c: char) { 'a' <= c <= 'z' || 'A' <= c <= 'Z' }

  /** The characters `int()` skips around a number (`Py_ISSPACE`). */
  predicate IsSpace(c: char) {
    c == ' ' || c == '\t' || c == '\n' || c == '\r' || c == '\U{000B}' || c == '\U{000C}'
  }

  function DigitValue(c: char): (d: nat)
    requires IsDigit(c)
    ensures d < 10
  {
    (c as int) - ('0' as int)
  }

  function DigitChar(d: nat): (c: char)
    requires d < 10
    ensures IsDigit(c) && DigitValue(c) == d
  {
    ('0' as int + d) as char
  }

  /** Lower-casing of one character: `A`..`Z` become `a`..`z`, everything
      else is left alone. */
  function LowerChar(c: char): (l: char)
    ensures 'A' <= c <= 'Z' ==> l as int == c as int + 32
    ensures !('A' <= c <= 'Z') ==> l == c
  {
    if 'A' <= c <= 'Z' then (c as int + 32) as char else c
  }

  /** `s.lower()`, character by character. */
  function Lower(s: string): string {
    seq(|s|, i requires 0 <= i < |s| => LowerChar(s[i]))
  }

  /** Lower-casing leaves no upper-case ASCII letter, changes nothing a
      second time, and only changes case. */
  lemma LowerProperties(s: string)
    ensures forall i :: 0 <= i < |Lower(s)| ==> !('A' <= Lower(s)[i] <= 'Z')
    ensures Lower(Lower(s)) == Lower(s)
    ensures SameIgnoringCase(s, Lower(s))
  {
    var r := Lower(s);
    forall i | 0 <= i < |r| ensures LowerChar(r[i]) == r[i] && LowerChar(s[i]) == LowerChar(r[i]) {
      assert r[i] == LowerChar(s[i]);
    }
  }

  /** `a` and `b` are the same text when case is ignored. */
  predicate SameIgnoringCase(a: string, b: string) {
    |a| == |b| && forall i :: 0 <= i < |a| ==> LowerChar(a[i]) == LowerChar(b[i])
  }

  /** Lower-casing maps `s` onto a lower-case word exactly when `s` spells that
      word in any mixture of cases. */
  lemma LowerIsWord(s: string, w: string)
    requires Lower(w) == w
    ensures Lower(s) == w <==> SameIgnoringCase(s, w)
  {
    if SameIgnoringCase(s, w) {
      forall i | 0 <= i < |s| ensures Lower(s)[i] == w[i] {
        assert LowerChar(w[i]) == Lower(w)[i];
      }
    }
    if Lower(s) == w {
      forall i | 0 <= i < |s| ensures LowerChar(s[i]) == LowerChar(w[i]) {
        assert LowerChar(w[i]) == Lower(w)[i];
        assert LowerChar(LowerChar(s[i])) == LowerChar(s[i]);
      }
    }
  }

  // ---------------------------------------------------------------------
  // Splitting

  /** The first position at or after `from` that holds a character of
      `stops`, or `|s|` when there is none. */
  function FindFrom(s: string, stops: set<char>, from: nat): (k: nat)
    requires from <= |s|
    ensures from <= k <= |s|
    ensures forall i :: from <= i < k ==> s[i] !in stops
    ensures k < |s| ==> s[k] in stops
    decreases |s| - from
  {
    if from == |s| || s[from] in stops then from else FindFrom(s, stops, from + 1)
  }

  /** The search stops exactly at the first character of `stops`. */
  lemma {:induction false} FindFromFirst(s: string, stops: set<char>, from: nat, k: nat)
    requires from <= k <= |s|
    requires forall i :: from <= i < k ==> s[i] !in stops
    requires k == |s| || s[k] in stops
    ensures FindFrom(s, stops, from) == k
    decreases k - from
  {
    if from < k {
      FindFromFirst(s, stops, from + 1, k);
    }
  }

  /** The text before the first character that is in `stops`, or all of `s`. */
  function BeforeAny(s: string, stops: set<char>): (r: string)
    ensures |r| <= |s| && r == s[..|r|]
    ensures forall i :: 0 <= i < |r| ==> r[i] !in stops
    ensures |r| < |s| ==> s[|r|] in stops
  {
    s[..FindFrom(s, stops, 0)]
  }

  /** A text free of `stops` is kept whole, whatever comes after it. */
  lemma BeforeAnyStop(a: string, stops: set<char>, b: string)
    requires forall i :: 0 <= i < |a| ==> a[i] !in stops
    requires b == [] || b[0] in stops
    ensures BeforeAny(a + b, stops) == a
  {
    FindFromFirst(a + b, stops, 0, |a|);
  }

  /** `s.split(sep)[0]`: the text before the first `sep`, or all of `s`. */
  function Before(s: string, sep: char): (r: string)
    ensures |r| <= |s| && r == s[..|r|]
    ensures sep !in r
    ensures |r| < |s| ==> s[|r|] == sep
  {
    BeforeAny(s, {sep})
  }

  /** The text before the first `sep` is determined by where `sep` first occurs. */
  lemma BeforeSeparator(a: string, sep: char, b: string)
    requires sep !in a
    ensures Before(a + [sep] + b, sep) == a
  {
    BeforeAnyStop(a, {sep}, [sep] + b);
    assert a + [sep] + b == a + ([sep] + b);
  }

  // ---------------------------------------------------------------------
  // `int(text)` in base 10

  /** `s` with the leading characters `int()` skips removed. */
  function TrimStart(s: string): (r: string)
    ensures |r| <= |s| && r == s[|s| - |r|..]
  {
    if s != [] && IsSpace(s[0]) then TrimStart(s[1..]) else s
  }

  lemma {:induction false} TrimStartSkipsSpaces(s: string)
    ensures forall i :: 0 <= i < |s| - |TrimStart(s)| ==> IsSpace(s[i])
  {
    if s != [] && IsSpace(s[0]) {
      TrimStartSkipsSpaces(s[1..]);
      assert forall i :: 1 <= i < |s| ==> s[i] == s[1..][i - 1];
    }
  }

  /** `s` with the trailing characters `int()` skips removed. */
  function TrimEnd(s: string): (r: string)
    ensures |r| <= |s| && r == s[..|r|]
  {
    if s != [] && IsSpace(s[|s| - 1]) then TrimEnd(s[..|s| - 1]) else s
  }

  lemma {:induction false} TrimEndSkipsSpaces(s: string)
    ensures forall i :: |TrimEnd(s)| <= i < |s| ==> IsSpace(s[i])
  {
    if s != [] && IsSpace(s[|s| - 1]) {
      TrimEndSkipsSpaces(s[..|s| - 1]);
    }
  }

  /** The characters that can appear anywhere in a text `int()` accepts. */
  predicate IsNumberChar(c: char) {
    IsSpace(c) || IsDigit(c) || c == '_' || c == '+' || c == '-'
  }

  /** The digit part `int()` accepts: digits, with single underscores allowed
      between two digits. */
  predicate WellFormedDigits(s: string) {
    |s| > 0 && IsDigit(s[0]) && IsDigit(s[|s| - 1]) &&
    (forall i :: 0 <= i < |s| ==> IsDigit(s[i]) || s[i] == '_') &&
    (forall i :: 0 <= i < |s| - 1 ==> s[i] == '_' ==> s[i + 1] != '_')
  }

  /** The number the digits of `s` spell, underscores ignored. */
  function DigitsValue(s: string): nat
    requires forall i :: 0 <= i < |s| ==> IsDigit(s[i]) || s[i] == '_'
  {
    if s == [] then 0
    else if s[|s| - 1] == '_' then DigitsValue(s[..|s| - 1])
    else 10 * DigitsValue(s[..|s| - 1]) + DigitValue(s[|s| - 1])
  }

  /** `t` without one leading `+` or `-`. */
  function Unsigned(t: string): (body: string)
    ensures body == t || (|t| > 0 && t[0] in "+-" && body == t[1..])
  {
    if t != [] && (t[0] == '-' || t[0] == '+') then t[1..] else t
  }

  /** `int(s)`: `Some(n)` when Python returns `n`, `None` when it raises
      `ValueError`. Surrounding white space and one leading sign are allowed. */
  function ParseInt(s: string): (r: Option<int>)
  {
    var t := TrimEnd(TrimStart(s));
    var body := Unsigned(t);
    if !WellFormedDigits(body) then None
    else
      var v: int := DigitsValue(body);
      Some(if t[0] == '-' then -v else v)
  }

  /** A sign and digits with underscores are number characters. */
  lemma UnsignedChars(t: string)
    requires WellFormedDigits(Unsigned(t))
    ensures forall i :: 0 <= i < |t| ==> IsNumberChar(t[i])
    ensures IsDigit(t[|t| - |Unsigned(t)|])
  {
    var body := Unsigned(t);
    var c := |t| - |body|;
    forall i | 0 <= i < |t| ensures IsNumberChar(t[i]) {
      if i >= c {
        assert t[i] == body[i - c];
      }
    }
  }

  /** Number characters with white space around them are number characters. */
  lemma TrimmedChars(s: string)
    requires forall i :: 0 <= i < |TrimEnd(TrimStart(s))| ==> IsNumberChar(TrimEnd(TrimStart(s))[i])
    ensures forall i :: 0 <= i < |s| ==> IsNumberChar(s[i])
  {
    var u := TrimStart(s);
    var t := TrimEnd(u);
    TrimStartSkipsSpaces(s);
    TrimEndSkipsSpaces(u);
    var a := |s| - |u|;
    forall i | 0 <= i < |s| ensures IsNumberChar(s[i]) {
      if a <= i < a + |t| {
        assert s[i] == u[i - a] == t[i - a];
      } else if i >= a + |t| {
        assert s[i] == u[i - a];
      }
    }
  }

  /** A text that starts and ends with a digit is neither trimmed nor
      unsigned: `int()` reads it as its own digit part. */
  lemma DigitEnds(s: string)
    requires |s| > 0 && IsDigit(s[0]) && IsDigit(s[|s| - 1])
    ensures TrimStart(s) == s && TrimEnd(s) == s && Unsigned(s) == s
  {
    assert !IsSpace(s[0]) && !IsSpace(s[|s| - 1]);
    Untrimmed(s);
  }

  /** A text with no white space at either end is not trimmed. */
  lemma Untrimmed(s: string)
    requires |s| > 0 && !IsSpace(s[0]) && !IsSpace(s[|s| - 1])
    ensures TrimStart(s) == s && TrimEnd(s) == s
  {
  }

  /** A port range `"<a>-<b>"` is not an integer text: a sign is allowed
      only in front, so the `-` between the two digit runs is refused. */
  lemma RangeRefused(a: string, b: string)
    requires |a| > 0 && forall i :: 0 <= i < |a| ==> IsDigit(a[i])
    requires |b| > 0 && forall i :: 0 <= i < |b| ==> IsDigit(b[i])
    ensures ParseInt(a + "-" + b) == None
  {
    var s := a + "-" + b;
    assert s[0] == a[0] && s[|s| - 1] == b[|b| - 1] && s[|a|] == '-';
    DigitEnds(s);
    assert !WellFormedDigits(s);
  }

  /** A text `int()` accepts consists of white space, a sign, digits and
      underscores only, and contains at least one digit; so `"127.0.0.1"`
      and `""` are refused. */
  lemma ParseIntChars(s: string)
    ensures ParseInt(s).Some? ==> forall i :: 0 <= i < |s| ==> IsNumberChar(s[i])
    ensures ParseInt(s).Some? ==> exists k :: 0 <= k < |s| && IsDigit(s[k])
  {
    var u := TrimStart(s);
    var t := TrimEnd(u);
    if WellFormedDigits(Unsigned(t)) {
      UnsignedChars(t);
      TrimmedChars(s);
      var k := |s| - |u| + |t| - |Unsigned(t)|;
      assert s[k] == u[k - (|s| - |u|)] == t[|t| - |Unsigned(t)|];
    }
  }

  // ---------------------------------------------------------------------
  // `f"{n}"`

  /** The decimal digits of a natural number, without leading zeros. */
  function NatDecimal(n: nat): (r: string)
    ensures |r| > 0 && forall i :: 0 <= i < |r| ==> IsDigit(r[i])
    ensures |r| > 1 ==> r[0] != '0'
  {
    if n < 10 then [DigitChar(n)] else NatDecimal(n / 10) + [DigitChar(n % 10)]
  }

  /** The text Python writes for an integer: a `-` for negatives, then the
      decimal digits. */
  function Decimal(n: int): (r: string)
    ensures |r| > 0
    ensures forall i :: 0 <= i < |r| ==> IsDigit(r[i]) || (i == 0 && r[i] == '-')
    ensures (r[0] == '-') <==> n < 0
  {
    if n < 0 then "-" + NatDecimal(-n) else NatDecimal(n)
  }

  lemma {:induction false} NatDecimalValue(n: nat)
    ensures DigitsValue(NatDecimal(n)) == n
  {
    if n >= 10 {
      var s := NatDecimal(n);
      assert s[..|s| - 1] == NatDecimal(n / 10);
      NatDecimalValue(n / 10);
    }
  }

  /** A plain run of digits is read as the number it spells. */
  lemma ParseDigits(s: string)
    requires |s| > 0 && forall i :: 0 <= i < |s| ==> IsDigit(s[i])
    ensures ParseInt(s) == Some(DigitsValue(s))
  {
    TrimUnspaced(s);
    var t := TrimEnd(TrimStart(s));
    assert t == s;
    assert s[0] != '-' && s[0] != '+';
    assert Unsigned(t) == s;
    assert WellFormedDigits(s);
  }

  /** Text without surrounding white space is left alone by trimming. */
  lemma TrimUnspaced(s: string)
    requires s != [] && !IsSpace(s[0]) && !IsSpace(s[|s| - 1])
    ensures TrimEnd(TrimStart(s)) == s
  {
  }

  lemma NatDecimalWellFormed(n: nat)
    ensures WellFormedDigits(NatDecimal(n))
  {
  }

  /** Reading back the text written for `n` gives `n`: `int(f"{n}") == n`. */
  lemma ParseDecimal(n: int)
    ensures ParseInt(Decimal(n)) == Some(n)
  {
    var m: nat := if n < 0 then -n else n;
    var d := NatDecimal(m);
    var s := Decimal(n);
    TrimUnspaced(s);
    NatDecimalValue(m);
    NatDecimalWellFormed(m);
    assert Unsigned(s) == d;
  }

  /** Different integers are written as different texts. */
  lemma DecimalInjective(m: int, n: int)
    ensures Decimal(m) == Decimal(n) ==> m == n
  {
    ParseDecimal(m);
    ParseDecimal(n);
  }
}
