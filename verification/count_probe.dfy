/** The parse-and-wrap step of `get_total_n_earthquakes`: the count
    endpoint's body is stripped, read with Python's `int()` and returned as
    a one-entry map keyed by the location name. The HTTP request itself is
    not modelled; the body text is the input. */
module CountProbe {
  import opened Frames

  /** The two `ValueError`s `int()` raises on text: "invalid literal for
      int() with base 10: ..." quoting its argument, and "Exceeds the limit
      (4300 digits) for integer string conversion" with the digit count. */
  datatype ParseError = InvalidLiteral(text: string) | DigitLimitExceeded(digits: nat)

  datatype Result<T> = Ok(value: T) | Err(error: ParseError)

  /** `str.isspace()`. */
  predicate IsSpace(c: char) {
    || c == ' '
    || '\t' <= c <= '\r'
    || '\U{1C}' <= c <= '\U{1F}'
    || c == '\U{85}' || c == '\U{A0}' || c == '\U{1680}'
    || '\U{2000}' <= c <= '\U{200A}'
    || c == '\U{2028}' || c == '\U{2029}' || c == '\U{202F}' || c == '\U{205F}' || c == '\U{3000}'
  }

  /** The characters `strip()` discards. */
  const SPACE: iset<char> := iset c: char | IsSpace(c)

  /** The whitespace `int()` skips around a literal: it turns non-ASCII
      whitespace into spaces, leaves ASCII alone and then skips only tab, line
      feed, vertical tab, form feed, carriage return and space, so the
      separators U+001C to U+001F stay. */
  const INT_SPACE: iset<char> := iset c: char | IsSpace(c) && !('\U{1C}' <= c <= '\U{1F}')

  predicate AllBlank(blanks: iset<char>, s: string) {
    forall i :: 0 <= i < |s| ==> s[i] in blanks
  }

  /** Neither end of `s` is a blank. */
  predicate Trimmed(blanks: iset<char>, s: string) {
    s == [] || (s[0] !in blanks && s[|s| - 1] !in blanks)
  }

  function StripStart(blanks: iset<char>, s: string): (r: string)
    ensures |r| <= |s|
    ensures r == [] || r[0] !in blanks
    decreases |s|
  {
    if s != [] && s[0] in blanks then StripStart(blanks, s[1..]) else s
  }

  function StripEnd(blanks: iset<char>, s: string): (r: string)
    ensures |r| <= |s| && r == s[..|r|]
    ensures r == [] || r[|r| - 1] !in blanks
    decreases |s|
  {
    if s != [] && s[|s| - 1] in blanks then StripEnd(blanks, s[..|s| - 1]) else s
  }

  /** The longest slice of `s` with no blank at either end. */
  function Trim(blanks: iset<char>, s: string): (r: string)
    ensures Trimmed(blanks, r)
    ensures |r| <= |s|
  {
    StripEnd(blanks, StripStart(blanks, s))
  }

  /** `str.strip()`. */
  function Strip(s: string): string {
    Trim(SPACE, s)
  }

  lemma {:induction false} StripStartPadding(blanks: iset<char>, pre: string, rest: string)
    requires AllBlank(blanks, pre) && (rest == [] || rest[0] !in blanks)
    ensures StripStart(blanks, pre + rest) == rest
    decreases |pre|
  {
    if pre != [] {
      var s := pre + rest;
      assert s[0] == pre[0] && s[0] in blanks;
      assert s[1..] == pre[1..] + rest;
      StripStartPadding(blanks, pre[1..], rest);
    }
  }

  lemma {:induction false} StripEndPadding(blanks: iset<char>, rest: string, post: string)
    requires AllBlank(blanks, post) && (rest == [] || rest[|rest| - 1] !in blanks)
    ensures StripEnd(blanks, rest + post) == rest
    decreases |post|
  {
    if post != [] {
      assert (rest + post)[..|rest + post| - 1] == rest + post[..|post| - 1];
      StripEndPadding(blanks, rest, post[..|post| - 1]);
    }
  }

  /** Trimming removes exactly the blanks around a trimmed core. */
  lemma StripPadding(blanks: iset<char>, pre: string, core: string, post: string)
    requires AllBlank(blanks, pre) && AllBlank(blanks, post) && Trimmed(blanks, core)
    ensures Trim(blanks, pre + core + post) == core
  {
    if core == [] {
      var blank := pre + post;
      assert pre + core + post == blank + [];
      assert AllBlank(blanks, blank) by {
        forall i | 0 <= i < |blank|
          ensures blank[i] in blanks
        {
          if i < |pre| { assert blank[i] == pre[i]; } else { assert blank[i] == post[i - |pre|]; }
        }
      }
      StripStartPadding(blanks, blank, []);
    } else {
      assert pre + core + post == pre + (core + post);
      StripStartPadding(blanks, pre, core + post);
      StripEndPadding(blanks, core, post);
    }
  }

  lemma StripTrimmed(blanks: iset<char>, s: string)
    requires Trimmed(blanks, s)
    ensures Trim(blanks, s) == s
  {
    StripPadding(blanks, [], s, []);
    assert [] + s + [] == s;
  }

  /** Stripping twice is stripping once. */
  lemma StripIdempotent(s: string)
    ensures Strip(Strip(s)) == Strip(s)
  {
    StripTrimmed(SPACE, Strip(s));
  }

  /** What `strip()` leaves has nothing at its ends that `int()` would skip. */
  lemma StrippedIsIntTrimmed(s: string)
    ensures Trim(INT_SPACE, Strip(s)) == Strip(s)
  {
    StripTrimmed(INT_SPACE, Strip(s));
  }

  /** `StripStart` only cuts blanks off the front. */
  lemma {:induction false} StripStartSplit(blanks: iset<char>, s: string) returns (pre: string)
    ensures s == pre + StripStart(blanks, s) && AllBlank(blanks, pre)
    decreases |s|
  {
    if s != [] && s[0] in blanks {
      var rest := StripStartSplit(blanks, s[1..]);
      pre := [s[0]] + rest;
      assert s == [s[0]] + s[1..];
      forall i | 0 <= i < |pre|
        ensures pre[i] in blanks
      {
        if i > 0 {
          assert pre[i] == rest[i - 1];
        }
      }
    } else {
      pre := [];
    }
  }

  /** `StripEnd` only cuts blanks off the back. */
  lemma {:induction false} StripEndSplit(blanks: iset<char>, s: string) returns (post: string)
    ensures s == StripEnd(blanks, s) + post && AllBlank(blanks, post)
    decreases |s|
  {
    if s != [] && s[|s| - 1] in blanks {
      var front := s[..|s| - 1];
      var rest := StripEndSplit(blanks, front);
      post := rest + [s[|s| - 1]];
      assert s == front + [s[|s| - 1]];
      forall i | 0 <= i < |post|
        ensures post[i] in blanks
      {
        if i < |rest| {
          assert post[i] == rest[i];
        }
      }
    } else {
      post := [];
    }
  }

  /** A trim only cuts blanks off the two ends. */
  lemma TrimSplit(blanks: iset<char>, s: string) returns (pre: string, post: string)
    ensures s == pre + Trim(blanks, s) + post
    ensures AllBlank(blanks, pre) && AllBlank(blanks, post)
  {
    var mid := StripStart(blanks, s);
    var core := StripEnd(blanks, mid);
    pre := StripStartSplit(blanks, s);
    post := StripEndSplit(blanks, mid);
    assert s == pre + (core + post);
    assert pre + (core + post) == pre + core + post;
  }

  predicate IsDigit(c: char) {
    '0' <= c <= '9'
  }

  function DigitValue(c: char): nat {
    if IsDigit(c) then c as int - '0' as int else 0
  }

  /** Digits with single underscores between them: the body of a base-10
      literal that `int()` accepts. */
  predicate IsDigitRun(s: string) {
    && |s| > 0
    && (forall i :: 0 <= i < |s| ==> IsDigit(s[i]) || s[i] == '_')
    && s[0] != '_' && s[|s| - 1] != '_'
    && (forall i, j :: 0 <= i < |s| && 0 <= j < |s| && j == i + 1 ==> s[i] != '_' || s[j] != '_')
  }

  /** The number a digit run denotes; underscores only separate digits. */
  function DigitRunValue(s: string): nat
    decreases |s|
  {
    if s == [] then 0
    else if s[|s| - 1] == '_' then DigitRunValue(s[..|s| - 1])
    else DigitRunValue(s[..|s| - 1]) * 10 + DigitValue(s[|s| - 1])
  }

  /** A base-10 integer literal with no surrounding whitespace: an optional
      sign, then a digit run. */
  function ParseLiteral(t: string): Option<int> {
    if |t| > 0 && (t[0] == '+' || t[0] == '-') then
      if IsDigitRun(t[1..]) then
        var magnitude: int := DigitRunValue(t[1..]);
        Some(if t[0] == '-' then -magnitude else magnitude)
      else None
    else if IsDigitRun(t) then Some(DigitRunValue(t))
    else None
  }

  /** The default of `sys.get_int_max_str_digits()`: from Python 3.11 on, and
      in the 3.7.14, 3.8.14, 3.9.14 and 3.10.7 security releases, `int()`
      refuses a decimal literal with more digits than this. */
  const MAX_STR_DIGITS: nat := 4300

  /** The number of decimal digits in `s`; signs and underscores do not count. */
  function DigitCount(s: string): nat
    decreases |s|
  {
    if s == [] then 0 else (if IsDigit(s[0]) then 1 else 0) + DigitCount(s[1..])
  }

  /** `int(s)` in base 10: the whitespace `int()` skips around the literal is
      ignored, a malformed literal raises the invalid-literal error on `s`,
      and a well-formed one with too many digits raises the digit-limit error. */
  function PyInt(s: string): Result<int> {
    ReadLiteral(Trim(INT_SPACE, s), s)
  }

  /** `int()` on the trimmed text `t` of its argument `s`. */
  function ReadLiteral(t: string, s: string): Result<int> {
    match ParseLiteral(t)
    case None => Err(InvalidLiteral(s))
    case Some(n) =>
      if DigitCount(t) > MAX_STR_DIGITS then Err(DigitLimitExceeded(DigitCount(t))) else Ok(n)
  }

  /** `get_total_n_earthquakes` after the response arrives: `{location_name: int(text.strip())}`. */
  function GetTotalNEarthquakes(locationName: string, body: string): (r: Result<map<string, int>>)
    ensures r.Ok? ==> r.value.Keys == {locationName}
  {
    Keyed(locationName, PyInt(Strip(body)))
  }

  /** `{location_name: count}`, or the error that reading the count raised. */
  function Keyed(locationName: string, count: Result<int>): (r: Result<map<string, int>>)
    ensures r.Ok? ==> r.value.Keys == {locationName}
  {
    match count
    case Ok(n) => Ok(map[locationName := n])
    case Err(e) => Err(e)
  }

  /** The count is the literal `strip()` leaves, under the location name;
      errors are `int()`'s own on that text. */
  lemma CountReadsBody(locationName: string, body: string)
    ensures var r := GetTotalNEarthquakes(locationName, body); var t := Strip(body);
      && (r.Ok? <==> ParseLiteral(t).Some? && DigitCount(t) <= MAX_STR_DIGITS)
      && (r.Ok? ==> ParseLiteral(t) == Some(r.value[locationName]))
      && (r.Err? ==> r.error == if ParseLiteral(t).None? then InvalidLiteral(t) else DigitLimitExceeded(DigitCount(t)))
  {
    var t := Strip(body);
    StrippedIsIntTrimmed(body);
    var count := ReadLiteral(t, t);
    assert PyInt(t) == count;
    var r := GetTotalNEarthquakes(locationName, body);
    assert r == if count.Ok? then Ok(map[locationName := count.value]) else Err(count.error);
    match ParseLiteral(t)
    case None =>
      assert r == Err(InvalidLiteral(t));
    case Some(n) =>
      if DigitCount(t) > MAX_STR_DIGITS {
        assert r == Err(DigitLimitExceeded(DigitCount(t)));
      } else {
        assert r == Ok(map[locationName := n]);
      }
  }

  /** `int()` finds nothing more to skip in what `strip()` leaves, and where
      `int(s)` reads a literal, `int(s.strip())` reads the same one. */
  lemma StrippedPyInt(s: string)
    ensures PyInt(Strip(s)) == ReadLiteral(Strip(s), Strip(s))
    ensures !(PyInt(s).Err? && PyInt(s).error.InvalidLiteral?) ==> PyInt(Strip(s)) == PyInt(s)
  {
    StrippedIsIntTrimmed(s);
    var t := Trim(INT_SPACE, s);
    if ParseLiteral(t).Some? {
      LiteralTrimmed(t);
      var pre, post := TrimSplit(INT_SPACE, s);
      NarrowerBlanks(pre);
      NarrowerBlanks(post);
      StripPadding(SPACE, pre, t, post);
    }
  }

  /** What `int()` skips, `strip()` discards too. */
  lemma NarrowerBlanks(s: string)
    requires AllBlank(INT_SPACE, s)
    ensures AllBlank(SPACE, s)
  {
  }

  /** A literal starts with a sign or a digit and ends with a digit. */
  lemma LiteralTrimmed(t: string)
    requires ParseLiteral(t).Some?
    ensures t != [] && Trimmed(SPACE, t)
  {
    if t[0] == '+' || t[0] == '-' {
      assert t[|t| - 1] == t[1..][|t| - 2];
    }
  }

  /** A literal padded with whitespace that `int()` skips reads as the literal. */
  lemma PaddedLiteral(pre: string, t: string, post: string, n: int)
    requires AllBlank(INT_SPACE, pre) && AllBlank(INT_SPACE, post)
    requires ParseLiteral(t) == Some(n) && DigitCount(t) <= MAX_STR_DIGITS
    ensures PyInt(pre + t + post) == Ok(n)
  {
    LiteralTrimmed(t);
    StripPadding(INT_SPACE, pre, t, post);
  }

  function DigitChar(d: nat): char
    requires d < 10
  {
    ('0' as int + d) as char
  }

  /** `str(n)` for a natural number. */
  function ShowNat(n: nat): string
    decreases n
  {
    if n < 10 then [DigitChar(n)] else ShowNat(n / 10) + [DigitChar(n % 10)]
  }

  /** `str(n)`. */
  function Show(n: int): string {
    if n < 0 then "-" + ShowNat(-n) else ShowNat(n)
  }

  lemma {:induction false} ShowNatDigits(n: nat)
    ensures |ShowNat(n)| > 0
    ensures forall i :: 0 <= i < |ShowNat(n)| ==> IsDigit(ShowNat(n)[i])
    ensures DigitRunValue(ShowNat(n)) == n
    decreases n
  {
    if n >= 10 {
      ShowNatDigits(n / 10);
      var s := ShowNat(n);
      assert s[..|s| - 1] == ShowNat(n / 10);
    }
  }

  /** A decimal rendering is a digit run (after its sign). */
  lemma ShowNatIsDigitRun(n: nat)
    ensures IsDigitRun(ShowNat(n)) && DigitRunValue(ShowNat(n)) == n
    ensures ShowNat(n)[0] != '+' && ShowNat(n)[0] != '-'
  {
    ShowNatDigits(n);
  }

  /** A decimal rendering reads back as the number it shows. */
  lemma ShowLiteral(n: int)
    ensures ParseLiteral(Show(n)) == Some(n)
  {
    if n < 0 {
      var digits := ShowNat(-n);
      ShowNatIsDigitRun(-n);
      var s := "-" + digits;
      assert s[0] == '-' && s[1..] == digits;
      assert Show(n) == s;
    } else {
      ShowNatIsDigitRun(n);
    }
  }
  /** The digits of `str(n)`, without its sign. */
  function Digits(n: int): string {
    ShowNat(if n < 0 then -n else n)
  }

  lemma {:induction false} AllDigitsCount(s: string)
    requires forall i :: 0 <= i < |s| ==> IsDigit(s[i])
    ensures DigitCount(s) == |s|
    decreases |s|
  {
    if s != [] {
      AllDigitsCount(s[1..]);
    }
  }

  /** Every character of `str(n)` but its sign is a digit. */
  lemma ShowDigitCount(n: int)
    ensures DigitCount(Show(n)) == |Digits(n)|
  {
    var d := Digits(n);
    ShowNatDigits(if n < 0 then -n else n);
    AllDigitsCount(d);
    if n < 0 {
      var s := "-" + d;
      assert s[1..] == d;
      assert Show(n) == s;
    }
  }

  /** `int(str(n)) == n` while `str(n)` has at most 4300 digits; beyond that
      `int()` refuses it with the digit-limit error. */
  lemma ShowParses(n: int)
    ensures PyInt(Show(n)) == if |Digits(n)| <= MAX_STR_DIGITS then Ok(n) else Err(DigitLimitExceeded(|Digits(n)|))
  {
    ShowLiteral(n);
    LiteralTrimmed(Show(n));
    StripTrimmed(INT_SPACE, Show(n));
    ShowDigitCount(n);
  }

  /** Any count rendered in decimal and padded with whitespace comes back as
      the one-entry map from the location name to that count, unless its
      rendering has more than 4300 digits. */
  lemma CountRoundTrip(locationName: string, n: int, pre: string, post: string)
    requires AllBlank(SPACE, pre) && AllBlank(SPACE, post)
    ensures GetTotalNEarthquakes(locationName, pre + Show(n) + post) ==
      if |Digits(n)| <= MAX_STR_DIGITS then Ok(map[locationName := n]) else Err(DigitLimitExceeded(|Digits(n)|))
  {
    var s := Show(n);
    ShowLiteral(n);
    LiteralTrimmed(s);
    StripPadding(SPACE, pre, s, post);
    assert Strip(pre + s + post) == s;
    ShowParses(n);
  }

  /** A body `int()` reads as `n` gives exactly `{location_name: n}`. The
      converse fails (see `SeparatorBodyExample`). */
  lemma CountOf(locationName: string, body: string, n: int)
    requires PyInt(body) == Ok(n)
    ensures GetTotalNEarthquakes(locationName, body) == Ok(map[locationName := n])
  {
    StrippedPyInt(body);
  }

  /** Body "5" gives {name: 5}. */
  lemma PlainBodyExample()
    ensures GetTotalNEarthquakes("TestLocation", "5") == Ok(map["TestLocation" := 5])
  {
    assert Show(5) == "5";
    assert Digits(5) == "5";
    ShowParses(5);
    CountOf("TestLocation", "5", 5);
  }

  /** A trailing newline is stripped. */
  lemma NewlineBodyExample()
    ensures GetTotalNEarthquakes("TestLocation", "12\n") == Ok(map["TestLocation" := 12])
  {
    var s := "12";
    assert [] + s + "\n" == "12\n";
    assert DigitRunValue(s) == 12 by {
      assert s[..1] == "1";
      assert "1"[..0] == "";
    }
    forall i | 0 <= i < |s|
      ensures IsDigit(s[i])
    {
      assert i == 0 || i == 1;
    }
    assert IsDigitRun(s);
    assert s[0] == '1';
    assert ParseLiteral(s) == Some(12);
    assert DigitCount(s) == 2 by {
      assert s[1..][1..] == [];
    }
    PaddedLiteral([], s, "\n", 12);
    CountOf("TestLocation", "12\n", 12);
  }

  /** Underscores between digits are accepted, as `int()` accepts them. */
  lemma UnderscoreExample()
    ensures GetTotalNEarthquakes("TestLocation", "1_000") == Ok(map["TestLocation" := 1000])
  {
    var s := "1_000";
    assert [] + s + [] == s;
    assert IsDigitRun(s);
    assert s[0] == '1';
    assert DigitRunValue(s) == 1000 by {
      assert s[..4] == "1_00";
      assert "1_00"[..3] == "1_0";
      assert "1_0"[..2] == "1_";
      assert "1_"[..1] == "1";
      assert "1"[..0] == "";
    }
    assert ParseLiteral(s) == Some(1000);
    assert DigitCount(s) == 4 by {
      assert s[1..] == "_000";
      assert "_000"[1..] == "000";
      assert "000"[1..] == "00";
      assert "00"[1..] == "0";
      assert "0"[1..] == "";
    }
    PaddedLiteral([], s, [], 1000);
    CountOf("TestLocation", s, 1000);
  }

  /** A trailing unit separator (U+001F) is whitespace to `strip()` but not
      to `int()`: `int()` alone refuses the body. */
  lemma SeparatorRefused()
    ensures PyInt("5\U{1F}") == Err(InvalidLiteral("5\U{1F}"))
  {
    var body := "5\U{1F}";
    StripTrimmed(INT_SPACE, body);
    assert !IsDigitRun(body) by {
      assert !IsDigit(body[1]) && body[1] != '_';
    }
    assert ParseLiteral(body) == None;
  }

  /** With the explicit strip, the same body gives the count 5. */
  lemma SeparatorBodyExample()
    ensures GetTotalNEarthquakes("TestLocation", "5\U{1F}") == Ok(map["TestLocation" := 5])
  {
    var body := "5\U{1F}";
    assert [] + "5" + "\U{1F}" == body;
    StripPadding(SPACE, [], "5", "\U{1F}");
    assert Strip(body) == "5";
    assert Show(5) == "5";
    assert Digits(5) == "5";
    ShowParses(5);
    assert PyInt("5") == Ok(5);
  }

  /** A blank body raises. */
  lemma BlankBodyRaises()
    ensures GetTotalNEarthquakes("TestLocation", " ") == Err(InvalidLiteral(""))
  {
    assert " " + [] + [] == " ";
    assert AllBlank(SPACE, " ");
    StripPadding(SPACE, " ", [], []);
    StripTrimmed(INT_SPACE, []);
    assert PyInt([]) == Err(InvalidLiteral([]));
  }
}
