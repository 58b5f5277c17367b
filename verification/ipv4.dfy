/** IPv4 addresses in text form, as the Rust standard library parses and prints them. */
module Ipv4Text {
  import opened Wrappers
  import opened Text

  datatype Ipv4 = Ipv4(a: nat, b: nat, c: nat, d: nat) {
    predicate Valid() {
      a < 256 && b < 256 && c < 256 && d < 256
    }
  }

  function PrintIpv4(h: Ipv4): string {
    Decimal(h.a) + "." + Decimal(h.b) + "." + Decimal(h.c) + "." + Decimal(h.d)
  }

  /** One to three digits, no leading zero, at most 255. */
  function ParseOctet(s: string): Option<nat> {
    if s == "" || |s| > 3 || !AllDigits(s) || (|s| > 1 && s[0] == '0') || Value(s) > 255 then None else Some(Value(s))
  }

  function ParseIpv4(s: string): Option<Ipv4> {
    var p := SplitOnce(s, ".");
    if p.None? then None
    else
      var q := SplitOnce(p.value.1, ".");
      if q.None? then None
      else
        var r := SplitOnce(q.value.1, ".");
        if r.None? then None
        else
          var a, b, c, d := ParseOctet(p.value.0), ParseOctet(q.value.0), ParseOctet(r.value.0), ParseOctet(r.value.1);
          if a.None? || b.None? || c.None? || d.None? then None
          else Some(Ipv4(a.value, b.value, c.value, d.value))
  }

  // ----- printing and parsing

  lemma OctetRoundTrip(n: nat)
    requires n < 256
    ensures ParseOctet(Decimal(n)) == Some(n)
  {
    ValueOfDecimal(n);
    assert n >= 100 ==> |Decimal(n / 10)| == 2 && |Decimal(n)| == 3;
  }

  lemma OctetIsDecimal(s: string)
    requires ParseOctet(s).Some?
    ensures s == Decimal(ParseOctet(s).value) && ParseOctet(s).value < 256 && AllDigits(s)
  {
    DecimalOfValue(s);
  }

  lemma DigitsHaveNo(s: string, c: char)
    requires AllDigits(s) && !IsDigit(c)
    ensures c !in s
  {
  }

  lemma Ipv4HasNoColon(h: Ipv4)
    ensures ':' !in PrintIpv4(h)
  {
    DigitsHaveNo(Decimal(h.a), ':');
    DigitsHaveNo(Decimal(h.b), ':');
    DigitsHaveNo(Decimal(h.c), ':');
    DigitsHaveNo(Decimal(h.d), ':');
  }

  lemma Ipv4RoundTrip(h: Ipv4)
    requires h.Valid()
    ensures ParseIpv4(PrintIpv4(h)) == Some(h)
    ensures ':' !in PrintIpv4(h)
  {
    hide Decimal, ParseOctet, SplitOnce;
    Ipv4HasNoColon(h);
    DigitsHaveNo(Decimal(h.a), '.');
    DigitsHaveNo(Decimal(h.b), '.');
    DigitsHaveNo(Decimal(h.c), '.');
    var a, b, c, d := Decimal(h.a), Decimal(h.b), Decimal(h.c), Decimal(h.d);
    OctetRoundTrip(h.a);
    OctetRoundTrip(h.b);
    OctetRoundTrip(h.c);
    OctetRoundTrip(h.d);
    assert PrintIpv4(h) == a + ['.'] + (b + ['.'] + (c + ['.'] + d));
    SplitAtChar(a, '.', b + ['.'] + (c + ['.'] + d));
    SplitAtChar(b, '.', c + ['.'] + d);
    SplitAtChar(c, '.', d);
  }

  /** Every text that parses as a host is that host as printed. */
  lemma Ipv4IsPrinted(s: string)
    requires ParseIpv4(s).Some?
    ensures ParseIpv4(s).value.Valid() && s == PrintIpv4(ParseIpv4(s).value)
  {
    hide SplitOnce, ParseOctet, Decimal;
    var p := SplitOnce(s, ".").value;
    var q := SplitOnce(p.1, ".").value;
    var r := SplitOnce(q.1, ".").value;
    OctetIsDecimal(p.0);
    OctetIsDecimal(q.0);
    OctetIsDecimal(r.0);
    OctetIsDecimal(r.1);
  }

  lemma Ipv4HasDot(h: Ipv4)
    ensures '.' in PrintIpv4(h)
  {
    assert PrintIpv4(h)[|Decimal(h.a)|] == '.';
  }
}
