/** The `number` query parameter of the list page: Python's `int()` applied
    to a string of at most three characters, and the prefix slice
    `items[:n]` it drives. */
module Listing {
  import opened Results

  /** The framework refuses a `number` longer than this before the handler runs. */
  const MaxNumberLength: nat := 3

  /** The value of `number` when the query does not give one. */
  const DefaultNumber: string := "10"

  /** The ASCII characters Python's `int()` skips around a numeral: space,
      tab, line feed, vertical tab, form feed and carriage return. Unlike
      `str.strip()`, it does not skip the separators 0x1C to 0x1F. */
  predicate IsSpace(c: char) {
    c == ' ' || ('\t' <= c <= '\r')
  }

  predicate IsDigit(c: char) {
    '0' <= c <= '9'
  }

  /** The first index at or after `i` that is not white space. */
  function SkipSpaces(s: string, i: nat): (r: nat)
    requires i <= |s|
    ensures i <= r <= |s|
    ensures forall k :: i <= k < r ==> IsSpace(s[k])
    ensures r < |s| ==> !IsSpace(s[r])
    decreases |s| - i
  {
    if i < |s| && IsSpace(s[i]) then SkipSpaces(s, i + 1) else i
  }

  /** The end of `s[..j]` once its trailing white space, down to `lo`, is cut. */
  function CutSpaces(s: string, lo: nat, j: nat): (r: nat)
    requires lo <= j <= |s|
    ensures lo <= r <= j
    ensures forall k :: r <= k < j ==> IsSpace(s[k])
    ensures r > lo ==> !IsSpace(s[r - 1])
  {
    if j > lo && IsSpace(s[j - 1]) then CutSpaces(s, lo, j - 1) else j
  }

  /** `s` without the leading and trailing white space `int()` skips. */
  function Strip(s: string): (r: string)
    ensures exists lo, hi | 0 <= lo <= hi <= |s| ::
      && r == s[lo..hi]
      && (forall k :: 0 <= k < lo ==> IsSpace(s[k]))
      && (forall k :: hi <= k < |s| ==> IsSpace(s[k]))
    ensures r != [] ==> !IsSpace(r[0]) && !IsSpace(r[|r| - 1])
  {
    var lo := SkipSpaces(s, 0);
    var hi := CutSpaces(s, lo, |s|);
    assert s[lo..hi] == s[lo..hi] && (forall k :: 0 <= k < lo ==> IsSpace(s[k]));
    s[lo..hi]
  }

  /** A decimal numeral as `int()` reads it: digits, where single
      underscores may separate two digits. */
  predicate IsNumeral(s: string) {
    && s != []
    && IsDigit(s[0])
    && IsDigit(s[|s| - 1])
    && (forall i :: 0 <= i < |s| ==> IsDigit(s[i]) || s[i] == '_')
    && (forall i :: 0 <= i < |s| - 1 ==> s[i] == '_' ==> s[i + 1] != '_')
  }

  /** The value of a run of digits and underscores; underscores add nothing. */
  function NumeralValue(s: string): nat
    requires forall i :: 0 <= i < |s| ==> IsDigit(s[i]) || s[i] == '_'
  {
    if s == [] then 0
    else
      var last := s[|s| - 1];
      assert IsDigit(last) || last == '_';
      if last == '_' then NumeralValue(s[..|s| - 1])
      else NumeralValue(s[..|s| - 1]) * 10 + (last as int - '0' as int)
  }

  /** Python's `int(s)` for a string: white space around an optionally
      signed numeral; anything else raises ValueError. */
  function ParseInt(s: string): (r: Result<int>)
    ensures r.Err? ==> r.error == NotAnInteger
  {
    var t := Strip(s);
    var signed := t != [] && (t[0] == '-' || t[0] == '+');
    var body := if signed then t[1..] else t;
    if IsNumeral(body) then
      var magnitude: int := NumeralValue(body);
      Ok(if signed && t[0] == '-' then -magnitude else magnitude)
    else
      Err(NotAnInteger)
  }

  /** The characters besides digits and white space that `int()` accepts:
      a sign, or an underscore between digits. */
  predicate IsNumeralMark(c: char) {
    c == '+' || c == '-' || c == '_'
  }

  /** The value `int()` gives a numeral found between `start` and `hi`,
      negated when the sign at `lo` is a minus. */
  function SignedValue(s: string, lo: nat, start: nat, hi: nat): int
    requires lo <= start <= hi <= |s|
    requires forall i :: start <= i < hi ==> IsDigit(s[i]) || s[i] == '_'
  {
    var magnitude: int := NumeralValue(s[start..hi]);
    if start == lo + 1 && s[lo] == '-' then -magnitude else magnitude
  }

  /** Where `int()` found its numeral: white space up to `lo`, an optional
      sign at `lo`, the numeral from `start` to `hi`, white space after; the
      result is the numeral's value with that sign. */
  lemma ParsedNumeral(s: string) returns (lo: nat, start: nat, hi: nat)
    requires ParseInt(s).Ok?
    ensures lo <= start <= hi <= |s|
    ensures forall k :: 0 <= k < lo ==> IsSpace(s[k])
    ensures forall k :: hi <= k < |s| ==> IsSpace(s[k])
    ensures start == lo || (start == lo + 1 && (s[lo] == '-' || s[lo] == '+'))
    ensures IsNumeral(s[start..hi])
    ensures forall i :: start <= i < hi ==> IsDigit(s[i]) || s[i] == '_'
    ensures ParseInt(s).value == SignedValue(s, lo, start, hi)
  {
    lo := SkipSpaces(s, 0);
    hi := CutSpaces(s, lo, |s|);
    var t := s[lo..hi];
    assert t == Strip(s);
    var signed := t != [] && (t[0] == '-' || t[0] == '+');
    start := if signed then lo + 1 else lo;
    assert s[start..hi] == if signed then t[1..] else t;
    ParseNumeral(s, lo, start, hi);
  }

  /** `SkipSpaces` stops at the first character that is not white space. */
  lemma {:induction false} SkipSpacesTo(s: string, i: nat, lo: nat)
    requires i <= lo <= |s|
    requires forall k :: i <= k < lo ==> IsSpace(s[k])
    requires lo < |s| ==> !IsSpace(s[lo])
    ensures SkipSpaces(s, i) == lo
    decreases lo - i
  {
    if i < lo {
      SkipSpacesTo(s, i + 1, lo);
    }
  }

  /** `CutSpaces` stops after the last character that is not white space. */
  lemma {:induction false} CutSpacesTo(s: string, lo: nat, j: nat, hi: nat)
    requires lo <= hi <= j <= |s|
    requires forall k :: hi <= k < j ==> IsSpace(s[k])
    requires hi > lo ==> !IsSpace(s[hi - 1])
    ensures CutSpaces(s, lo, j) == hi
    decreases j - hi
  {
    if hi < j {
      CutSpacesTo(s, lo, j - 1, hi);
    }
  }

  /** White space up to `lo` and from `hi` on, with no white space at the
      ends of what lies between, is exactly what `Strip` removes. */
  lemma StripBetween(s: string, lo: nat, hi: nat)
    requires lo < hi <= |s|
    requires forall k :: 0 <= k < lo ==> IsSpace(s[k])
    requires forall k :: hi <= k < |s| ==> IsSpace(s[k])
    requires !IsSpace(s[lo]) && !IsSpace(s[hi - 1])
    ensures Strip(s) == s[lo..hi]
  {
    SkipSpacesTo(s, 0, lo);
    CutSpacesTo(s, lo, |s|, hi);
  }

  /** The characters of a numeral found inside `s`, read in `s` itself. */
  lemma NumeralChars(s: string, start: nat, hi: nat)
    requires start <= hi <= |s| && IsNumeral(s[start..hi])
    ensures start < hi && IsDigit(s[start]) && IsDigit(s[hi - 1])
    ensures forall i :: start <= i < hi ==> IsDigit(s[i]) || s[i] == '_'
  {
    var body := s[start..hi];
    assert body[0] == s[start] && body[|body| - 1] == s[hi - 1];
    forall i | start <= i < hi
      ensures IsDigit(s[i]) || s[i] == '_'
    {
      assert s[i] == body[i - start];
    }
  }

  /** The converse of `ParsedNumeral`: white space, an optional sign, a
      numeral and white space parse as the numeral's value with that sign,
      so `int(" 5") == 5`, `int("+5") == 5` and `int("1_0 ") == 10`. */
  lemma ParseNumeral(s: string, lo: nat, start: nat, hi: nat)
    requires lo <= start <= hi <= |s|
    requires forall k :: 0 <= k < lo ==> IsSpace(s[k])
    requires forall k :: hi <= k < |s| ==> IsSpace(s[k])
    requires start == lo || (start == lo + 1 && (s[lo] == '-' || s[lo] == '+'))
    requires IsNumeral(s[start..hi])
    ensures forall i :: start <= i < hi ==> IsDigit(s[i]) || s[i] == '_'
    ensures ParseInt(s) == Ok(SignedValue(s, lo, start, hi))
  {
    var body := s[start..hi];
    NumeralChars(s, start, hi);
    StripBetween(s, lo, hi);
    var t := s[lo..hi];
    var magnitude: int := NumeralValue(body);
    if start == lo + 1 {
      assert t[0] == s[lo] && body == t[1..];
      assert ParseInt(s) == Ok(if s[lo] == '-' then -magnitude else magnitude);
    } else {
      assert body == t && IsDigit(t[0]);
      assert ParseInt(s) == Ok(magnitude);
    }
  }

  /** The separator 0x1C, which `str.strip()` would remove, is not white
      space to `int()`: `int("\x1c5")` raises. */
  lemma ParseRejectsSeparator()
    ensures ParseInt("\U{1C}5") == Err(NotAnInteger)
  {
    StripUnpadded("\U{1C}5");
  }

  /** `int()` refuses a string that holds no digit or holds a character
      other than a digit, white space, a sign or an underscore. */
  lemma ParseNeedsNumeral(s: string)
    requires ParseInt(s).Ok?
    ensures exists i :: 0 <= i < |s| && IsDigit(s[i])
    ensures forall i :: 0 <= i < |s| ==> IsDigit(s[i]) || IsSpace(s[i]) || IsNumeralMark(s[i])
  {
    var lo, start, hi := ParsedNumeral(s);
    assert s[start..hi][0] == s[start];
    assert IsDigit(s[start]);
    forall i | 0 <= i < |s|
      ensures IsDigit(s[i]) || IsSpace(s[i]) || IsNumeralMark(s[i])
    {
      if i < lo {
      } else if i < start {
        assert i == lo;
      } else if i >= hi {
      }
    }
  }

  /** The decimal digits of `n`, most significant first, as `str(n)` writes them. */
  function Digits(n: nat): (s: string)
    ensures s != [] && forall i :: 0 <= i < |s| ==> IsDigit(s[i])
  {
    if n < 10 then [('0' as int + n) as char]
    else Digits(n / 10) + [('0' as int + n % 10) as char]
  }

  /** `str(n)` for an integer. */
  function Show(n: int): string {
    if n < 0 then "-" + Digits(-n) else Digits(n)
  }

  lemma {:induction false} DigitsValue(n: nat)
    ensures IsNumeral(Digits(n)) && NumeralValue(Digits(n)) == n
  {
    var s := Digits(n);
    if n >= 10 {
      DigitsValue(n / 10);
      assert s[..|s| - 1] == Digits(n / 10);
    }
  }

  /** A string with no white space at either end is its own strip. */
  lemma StripUnpadded(s: string)
    requires s != [] && !IsSpace(s[0]) && !IsSpace(s[|s| - 1])
    ensures Strip(s) == s
  {
  }

  /** `int()` of an unsigned numeral with nothing around it. */
  lemma ParseUnsigned(s: string)
    requires Strip(s) == s && IsNumeral(s)
    ensures ParseInt(s) == Ok(NumeralValue(s))
  {
  }

  /** `int()` of a numeral with a minus sign and nothing around it. */
  lemma ParseNegative(s: string)
    requires Strip(s) == s && s != [] && s[0] == '-' && IsNumeral(s[1..])
    ensures ParseInt(s) == Ok(-(NumeralValue(s[1..]) as int))
  {
  }

  /** `int()` reads back the digits of a natural number. */
  lemma ParseDigits(n: nat)
    ensures ParseInt(Digits(n)) == Ok(n)
  {
    var d := Digits(n);
    DigitsValue(n);
    assert IsDigit(d[0]) && IsDigit(d[|d| - 1]);
    StripUnpadded(d);
    ParseUnsigned(d);
  }

  /** `int()` reads back a minus sign followed by the digits of a positive number. */
  lemma ParseMinusDigits(n: nat)
    requires n > 0
    ensures ParseInt("-" + Digits(n)) == Ok(-(n as int))
  {
    var d := Digits(n);
    var s := "-" + d;
    DigitsValue(n);
    assert IsDigit(d[|d| - 1]);
    assert s[|s| - 1] == d[|d| - 1] && s[1..] == d;
    StripUnpadded(s);
    ParseNegative(s);
  }

  /** `int(str(n)) == n` for every integer. */
  lemma ParseShow(n: int)
    ensures ParseInt(Show(n)) == Ok(n)
  {
    if n < 0 {
      var m: nat := -n;
      ParseMinusDigits(m);
      assert Show(n) == "-" + Digits(m);
    } else {
      ParseDigits(n);
      assert Show(n) == Digits(n);
    }
  }

  /** `int()` accepts a plus sign: `int("+" + str(n)) == n`. */
  lemma ParsePlusDigits(n: nat)
    ensures ParseInt("+" + Digits(n)) == Ok(n)
  {
    var d := Digits(n);
    var s := "+" + d;
    DigitsValue(n);
    assert s[1..|s|] == d;
    ParseNumeral(s, 0, 1, |s|);
  }

  /** `int()` skips white space around the digits: `int(" " + str(n) + " ") == n`. */
  lemma ParsePaddedDigits(n: nat)
    ensures ParseInt(" " + Digits(n) + " ") == Ok(n)
  {
    var d := Digits(n);
    var s := " " + d + " ";
    DigitsValue(n);
    assert s[1..|s| - 1] == d;
    ParseNumeral(s, 1, 1, |s| - 1);
  }

  /** The stop index Python uses for `items[:n]` on a sequence of `len` items. */
  function SliceStop(len: nat, n: int): (k: nat)
    ensures k <= len
  {
    if n < 0 then (if len + n > 0 then len + n else 0)
    else if n < len then n
    else len
  }

  /** `items[:n]`: the first n items when n is not negative, every item but
      the last -n otherwise. */
  function Prefix<T>(items: seq<T>, n: int): (r: seq<T>)
    ensures r <= items
    ensures n >= 0 ==> |r| == if n < |items| then n else |items|
    ensures n < 0 ==> |r| + (-n) == |items| || (r == [] && -n >= |items|)
  {
    items[..SliceStop(|items|, n)]
  }

  /** What the list page shows for a `number` of at most three characters:
      the prefix slice, or the error `int()` raises. */
  function ListPrefix<T>(items: seq<T>, number: string): (r: Result<seq<T>>)
    ensures |number| > MaxNumberLength ==> r == Err(RequestRejected)
    ensures |number| <= MaxNumberLength ==> (r.Ok? <==> ParseInt(number).Ok?)
    ensures r.Ok? ==> r.value <= items && r.value == Prefix(items, ParseInt(number).value)
  {
    if |number| > MaxNumberLength then Err(RequestRejected)
    else
      match ParseInt(number)
      case Err(e) => Err(e)
      case Ok(n) => Ok(Prefix(items, n))
  }

  /** With the default `number`, the page lists the first ten items, or all
      of them when there are fewer. */
  lemma ListDefault<T>(items: seq<T>)
    ensures ListPrefix(items, DefaultNumber) == Ok(if |items| <= 10 then items else items[..10])
  {
    assert Digits(1) == "1";
    assert Show(10) == DefaultNumber;
    ParseShow(10);
    assert ParseInt(DefaultNumber) == Ok(10);
    assert ListPrefix(items, DefaultNumber) == Ok(Prefix(items, 10));
    if |items| <= 10 {
      assert items[..|items|] == items;
    }
  }
}
