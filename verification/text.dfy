/** Text as the Rust standard library treats it: white space, decimal numbers, prefixes, splitting. */
module Text {
  import opened Wrappers

  // ----- white space

  /** The Unicode White_Space property. */
  predicate IsSpace(c: char) {
    || '\U{0009}' <= c <= '\U{000D}' || c == ' ' || c == '\U{0085}' || c == '\U{00A0}' || c == '\U{1680}'
    || '\U{2000}' <= c <= '\U{200A}' || c == '\U{2028}' || c == '\U{2029}' || c == '\U{202F}' || c == '\U{205F}' || c == '\U{3000}'
  }

  function TrimStart(s: string): string {
    if s != "" && IsSpace(s[0]) then TrimStart(s[1..]) else s
  }

  function TrimEnd(s: string): string {
    if s != "" && IsSpace(s[|s| - 1]) then TrimEnd(s[..|s| - 1]) else s
  }

  function Trim(s: string): string {
    TrimEnd(TrimStart(s))
  }

  predicate Trimmed(s: string) {
    s == "" || (!IsSpace(s[0]) && !IsSpace(s[|s| - 1]))
  }

  lemma {:induction false} TrimEndKeepsFirst(s: string)
    ensures TrimEnd(s) != "" ==> s != "" && TrimEnd(s)[0] == s[0]
    ensures TrimEnd(s) != "" ==> !IsSpace(TrimEnd(s)[|TrimEnd(s)| - 1])
  {
    if s != "" && IsSpace(s[|s| - 1]) {
      TrimEndKeepsFirst(s[..|s| - 1]);
    }
  }

  lemma {:induction false} TrimStartFirst(s: string)
    ensures TrimStart(s) != "" ==> !IsSpace(TrimStart(s)[0])
  {
    if s != "" && IsSpace(s[0]) {
      TrimStartFirst(s[1..]);
    }
  }

  lemma TrimIsTrimmed(s: string)
    ensures Trimmed(Trim(s))
  {
    TrimStartFirst(s);
    TrimEndKeepsFirst(TrimStart(s));
  }

  lemma TrimmedStays(s: string)
    requires Trimmed(s)
    ensures Trim(s) == s
  {
  }

  predicate Blank(s: string) {
    forall i :: 0 <= i < |s| ==> IsSpace(s[i])
  }

  lemma {:induction false} TrimStartSkips(blank: string, s: string)
    requires Blank(blank)
    ensures TrimStart(blank + s) == TrimStart(s)
  {
    if blank == "" {
      assert blank + s == s;
    } else {
      assert (blank + s)[1..] == blank[1..] + s;
      TrimStartSkips(blank[1..], s);
    }
  }

  lemma {:induction false} TrimEndSkips(s: string, blank: string)
    requires Blank(blank)
    ensures TrimEnd(s + blank) == TrimEnd(s)
    decreases |blank|
  {
    if blank == "" {
      assert s + blank == s;
    } else {
      assert (s + blank)[..|s + blank| - 1] == s + blank[..|blank| - 1];
      TrimEndSkips(s, blank[..|blank| - 1]);
    }
  }

  lemma {:induction false} TrimEndStopsAt(head: string, s: string)
    requires head != "" && !IsSpace(head[|head| - 1])
    ensures TrimEnd(head + s) == head + TrimEnd(s)
  {
    if s != "" && IsSpace(s[|s| - 1]) {
      assert (head + s)[..|head + s| - 1] == head + s[..|s| - 1];
      TrimEndStopsAt(head, s[..|s| - 1]);
    } else if s == "" {
      assert head + s == head;
    }
  }

  /** Trimming takes off white space and nothing else. */
  lemma TrimExactly(before: string, s: string, after: string)
    requires Blank(before) && Trimmed(s) && Blank(after)
    ensures Trim(before + s + after) == s
  {
    assert before + s + after == before + (s + after);
    TrimStartSkips(before, s + after);
    if s == "" {
      assert s + after == after + "";
      TrimStartSkips(after, "");
    }
    TrimEndSkips(s, after);
  }

  /** Every text is what is left of it, between white space. */
  lemma TrimTakesOff(s: string) returns (before: string, after: string)
    ensures Blank(before) && Blank(after) && s == before + Trim(s) + after
  {
    var rest := TrimStart(s);
    before := StartTakenOff(s);
    after := EndTakenOff(rest);
    assert before + (Trim(s) + after) == before + Trim(s) + after;
  }

  lemma {:induction false} StartTakenOff(s: string) returns (blank: string)
    ensures Blank(blank) && s == blank + TrimStart(s)
  {
    blank := "";
    if s != "" && IsSpace(s[0]) {
      blank := StartTakenOff(s[1..]);
      blank := [s[0]] + blank;
      assert s == [s[0]] + s[1..];
    }
  }

  lemma {:induction false} EndTakenOff(s: string) returns (blank: string)
    ensures Blank(blank) && s == TrimEnd(s) + blank
  {
    blank := "";
    if s != "" && IsSpace(s[|s| - 1]) {
      blank := EndTakenOff(s[..|s| - 1]);
      blank := blank + [s[|s| - 1]];
      assert s == s[..|s| - 1] + [s[|s| - 1]];
    }
  }

  // ----- decimal numbers

  predicate IsDigit(c: char) {
    '0' <= c <= '9'
  }

  predicate AllDigits(s: string) {
    forall i :: 0 <= i < |s| ==> IsDigit(s[i])
  }

  function Decimal(n: nat): (s: string)
    ensures s != "" && AllDigits(s)
  {
    if n < 10 then [(n + '0' as int) as char] else Decimal(n / 10) + [(n % 10 + '0' as int) as char]
  }

  function Value(s: string): nat
    requires AllDigits(s)
  {
    if s == "" then 0 else Value(s[..|s| - 1]) * 10 + (s[|s| - 1] as int - '0' as int)
  }

  lemma {:induction false} ValueOfDecimal(n: nat)
    ensures Value(Decimal(n)) == n
    ensures |Decimal(n)| > 1 ==> Decimal(n)[0] != '0'
    ensures n > 0 ==> Decimal(n)[0] != '0'
  {
    if n >= 10 {
      ValueOfDecimal(n / 10);
      assert Decimal(n)[..|Decimal(n)| - 1] == Decimal(n / 10);
    }
  }

  lemma {:induction false} ValuePositive(s: string)
    requires AllDigits(s) && s != "" && s[0] != '0'
    ensures Value(s) > 0
  {
    if |s| > 1 {
      ValuePositive(s[..|s| - 1]);
    }
  }

  /** Without a leading zero, a number is written in one way only. */
  lemma {:induction false} DecimalOfValue(s: string)
    requires AllDigits(s) && s != "" && (|s| > 1 ==> s[0] != '0')
    ensures Decimal(Value(s)) == s
  {
    if |s| == 1 {
      assert Value(s[..0]) == 0;
    } else {
      var init := s[..|s| - 1];
      DecimalOfValue(init);
      ValuePositive(init);
      assert Value(s) / 10 == Value(init) && Value(s) % 10 == s[|s| - 1] as int - '0' as int;
      assert s == init + [s[|s| - 1]];
    }
  }

  lemma DecimalInjective(m: nat, n: nat)
    requires Decimal(m) == Decimal(n)
    ensures m == n
  {
    ValueOfDecimal(m);
    ValueOfDecimal(n);
  }

  /** Rust's unsigned integer parsing: one optional plus sign, at least one digit, no overflow. */
  function ParseUnsigned(s: string, max: nat): Option<nat> {
    var digits := if s != "" && s[0] == '+' then s[1..] else s;
    if digits == "" || !AllDigits(digits) || Value(digits) > max then None else Some(Value(digits))
  }

  lemma ParseUnsignedDecimal(n: nat, max: nat)
    requires n <= max
    ensures ParseUnsigned(Decimal(n), max) == Some(n)
  {
    ValueOfDecimal(n);
  }

  function Padding(k: nat): string {
    if k == 0 then "" else "0" + Padding(k - 1)
  }

  lemma {:induction false} LeadingZero(s: string)
    requires AllDigits(s)
    ensures Value("0" + s) == Value(s)
  {
    var padded := "0" + s;
    if s == "" {
      assert padded[..0] == "";
    } else {
      var init := s[..|s| - 1];
      assert padded[..|padded| - 1] == "0" + init && padded[|padded| - 1] == s[|s| - 1];
      LeadingZero(init);
    }
  }

  lemma {:induction false} PaddedValue(k: nat, n: nat)
    ensures AllDigits(Padding(k) + Decimal(n)) && Value(Padding(k) + Decimal(n)) == n
  {
    hide Decimal;
    if k == 0 {
      assert Padding(0) + Decimal(n) == Decimal(n);
      ValueOfDecimal(n);
    } else {
      PaddedValue(k - 1, n);
      LeadingZero(Padding(k - 1) + Decimal(n));
      assert Padding(k) + Decimal(n) == "0" + (Padding(k - 1) + Decimal(n));
    }
  }

  lemma {:induction false} DigitsArePadded(s: string) returns (k: nat)
    requires AllDigits(s) && s != ""
    ensures s == Padding(k) + Decimal(Value(s))
  {
    hide Decimal;
    if |s| > 1 && s[0] == '0' {
      k := DigitsArePadded(s[1..]);
      assert s == "0" + s[1..];
      LeadingZero(s[1..]);
      k := k + 1;
      assert "0" + (Padding(k - 1) + Decimal(Value(s))) == Padding(k) + Decimal(Value(s));
    } else {
      k := 0;
      DecimalOfValue(s);
      assert Padding(0) + s == s;
    }
  }

  /** A number is read from its decimal digits, after any zeros and perhaps a plus sign, and from nothing else. */
  lemma UnsignedExactly(s: string, max: nat, n: nat)
    ensures ParseUnsigned(s, max) == Some(n) <==>
            n <= max && exists k :: s == Padding(k) + Decimal(n) || s == "+" + (Padding(k) + Decimal(n))
  {
    hide Decimal, Value;
    if ParseUnsigned(s, max) == Some(n) {
      var k := DigitsArePadded(if s[0] == '+' then s[1..] else s);
      assert s[0] == '+' ==> s == "+" + s[1..];
      assert s == Padding(k) + Decimal(n) || s == "+" + (Padding(k) + Decimal(n));
    }
    if n <= max {
      forall k | s == Padding(k) + Decimal(n) || s == "+" + (Padding(k) + Decimal(n))
        ensures ParseUnsigned(s, max) == Some(n)
      {
        var digits := Padding(k) + Decimal(n);
        PaddedValue(k, n);
        assert digits != "" && IsDigit(digits[0]);
        assert s != digits ==> s[0] == '+' && s[1..] == digits;
      }
    }
  }

  // ----- prefixes and splitting

  predicate StartsWith(s: string, prefix: string) {
    prefix <= s
  }

  /** `trim_start_matches`: removes the prefix as often as it is there. */
  function TrimStartMatches(s: string, prefix: string): string
    requires prefix != ""
  {
    if StartsWith(s, prefix) then TrimStartMatches(s[|prefix|..], prefix) else s
  }

  /** The text before the first character that satisfies the test. */
  function TakeUntil(s: string, stop: char -> bool): (r: string)
    ensures r <= s && forall i :: 0 <= i < |r| ==> !stop(r[i])
  {
    if s == "" || stop(s[0]) then "" else [s[0]] + TakeUntil(s[1..], stop)
  }

  lemma {:induction false} TakeUntilAll(s: string, stop: char -> bool)
    requires forall i :: 0 <= i < |s| ==> !stop(s[i])
    ensures TakeUntil(s, stop) == s
  {
    if s != "" {
      TakeUntilAll(s[1..], stop);
    }
  }

  lemma {:induction false} TakeUntilStops(s: string, rest: string, stop: char -> bool)
    requires forall i :: 0 <= i < |s| ==> !stop(s[i])
    requires rest == "" || stop(rest[0])
    ensures TakeUntil(s + rest, stop) == s
  {
    if s == "" {
      assert s + rest == rest;
    } else {
      assert (s + rest)[1..] == s[1..] + rest;
      TakeUntilStops(s[1..], rest, stop);
      assert s == [s[0]] + s[1..];
    }
  }

  /** `split_once`: the texts before and after the first occurrence of a separator. */
  function SplitOnce(s: string, separator: string): (r: Option<(string, string)>)
    requires separator != ""
    ensures r.Some? ==> s == r.value.0 + separator + r.value.1
  {
    if |s| < |separator| then None
    else if StartsWith(s, separator) then Some(("", s[|separator|..]))
    else match SplitOnce(s[1..], separator)
         case None => None
         case Some((before, after)) => Some(([s[0]] + before, after))
  }

  /** Splitting at a separator character that the first part does not contain. */
  lemma {:induction false} SplitAtChar(before: string, c: char, after: string)
    requires c !in before
    ensures SplitOnce(before + [c] + after, [c]) == Some((before, after))
  {
    var s := before + [c] + after;
    if before == "" {
      assert s[1..] == after;
    } else {
      assert s[1..] == before[1..] + [c] + after;
      SplitAtChar(before[1..], c, after);
      assert s[0] == before[0] && before[0] in before;
      assert [before[0]] + before[1..] == before;
    }
  }

  lemma {:induction false} SplitHasNoSeparator(s: string, c: char)
    ensures SplitOnce(s, [c]).Some? ==> c !in SplitOnce(s, [c]).value.0
    ensures SplitOnce(s, [c]).None? ==> c !in s
  {
    if s != "" && s[0] != c {
      SplitHasNoSeparator(s[1..], c);
      assert s == [s[0]] + s[1..];
    }
  }
}
