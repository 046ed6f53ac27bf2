/**
 * The assets page's money format: `'$' + value.toFixed(2)` with a thousands separator
 * inserted by the regular expression `\B(?=(\d{3})+(?!\d))`. The regular expression is
 * modelled position by position; `toFixed(2)` is modelled for amounts given in whole cents.
 */
module Currency {
  import opened Text

  /** The number of consecutive digits starting at position `p`. */
  function DigitRun(s: string, p: nat): (n: nat)
    requires p <= |s|
    ensures p + n <= |s|
    decreases |s| - p
  {
    if p < |s| && IsDigit(s[p]) then 1 + DigitRun(s, p + 1) else 0
  }

  /**
   * The pattern matches at position `p` (just before `s[p]`): no word boundary there, and
   * a positive multiple of three digits follows, then no further digit.
   */
  predicate CommaBefore(s: string, p: nat) {
    0 < p < |s| && IsWordChar(s[p - 1]) && DigitRun(s, p) > 0 && DigitRun(s, p) % 3 == 0
  }

  /** The output for one input character: a comma where the pattern matches, then the character. */
  function Piece(s: string, p: nat): string
    requires p < |s|
  {
    (if CommaBefore(s, p) then "," else "") + [s[p]]
  }

  /** The output for the first `k` input characters. */
  function Commas(s: string, k: nat): string
    requires k <= |s|
  {
    if k == 0 then "" else Commas(s, k - 1) + Piece(s, k - 1)
  }

  /** `s.replace(/\B(?=(\d{3})+(?!\d))/g, ',')`. */
  function Commafy(s: string): string {
    Commas(s, |s|)
  }

  /** `'$' + fixed.replace(...)`, where `fixed` is the text `toFixed(2)` produced. */
  function FormatCurrency(fixed: string): (r: string)
    ensures |r| >= 1 && r[0] == '$'
  {
    "$" + Commafy(fixed)
  }

  /** The text with every comma removed. */
  function StripCommas(t: string): string {
    if t == [] then ""
    else StripCommas(t[..|t| - 1]) + (if t[|t| - 1] == ',' then "" else [t[|t| - 1]])
  }

  lemma {:induction false} StripCommasConcat(a: string, b: string)
    ensures StripCommas(a + b) == StripCommas(a) + StripCommas(b)
    decreases |b|
  {
    if b == [] {
      assert a + b == a;
    } else {
      assert (a + b)[..|a + b| - 1] == a + b[..|b| - 1];
      StripCommasConcat(a, b[..|b| - 1]);
    }
  }

  /** Removing the separators gives back the number text: formatting only inserts commas. */
  lemma {:induction false} CommafyStrip(s: string)
    requires ',' !in s
    ensures StripCommas(Commafy(s)) == s
  {
    CommasStrip(s, |s|);
  }

  lemma {:induction false} CommasStrip(s: string, k: nat)
    requires k <= |s| && ',' !in s
    ensures StripCommas(Commas(s, k)) == s[..k]
  {
    if k > 0 {
      CommasStrip(s, k - 1);
      StripCommasConcat(Commas(s, k - 1), Piece(s, k - 1));
      StripPiece(s, k - 1);
      assert s[..k] == s[..k - 1] + [s[k - 1]];
    }
  }

  /** A piece loses its separator and keeps its character. */
  lemma StripPiece(s: string, p: nat)
    requires p < |s| && ',' !in s
    ensures StripCommas(Piece(s, p)) == [s[p]]
  {
    var c := if CommaBefore(s, p) then "," else "";
    StripCommasConcat(c, [s[p]]);
    assert StripCommas(c) == "" by {
      if c == "," {
        assert StripCommas(c) == StripCommas(c[..0]) + "";
      }
    }
    assert StripCommas([s[p]]) == StripCommas([s[p]][..0]) + [s[p]];
  }

  /** Reference grouping: the digits in groups of three from the right, joined by commas. */
  function Group3(d: string): string
    decreases |d|
  {
    if |d| <= 3 then d else Group3(d[..|d| - 3]) + "," + d[|d| - 3..]
  }

  /** Removing the separators from the reference grouping gives back the digits. */
  lemma {:induction false} Group3Strip(d: string)
    requires AllDigits(d)
    ensures StripCommas(Group3(d)) == d
    decreases |d|
  {
    if |d| <= 3 {
      DigitsHaveNoComma(d);
      CommasFree(d);
    } else {
      var head, last := d[..|d| - 3], d[|d| - 3..];
      Group3Strip(head);
      DigitsHaveNoComma(last);
      StripCommasConcat(Group3(head) + ",", last);
      StripCommasConcat(Group3(head), ",");
      CommasFree(last);
      assert StripCommas(",") == StripCommas(","[..0]) + "";
      assert d == head + last;
    }
  }

  /** Every group of the reference grouping holds one to three digits, and all but the first exactly three. */
  lemma {:induction false} Group3Groups(d: string)
    requires |d| >= 1 && AllDigits(d)
    ensures var groups := Split(Group3(d), ',');
      (forall i :: 0 <= i < |groups| ==> 1 <= |groups[i]| <= 3 && AllDigits(groups[i]))
      && forall i :: 1 <= i < |groups| ==> |groups[i]| == 3
    decreases |d|
  {
    if |d| <= 3 {
      DigitsHaveNoComma(d);
      SplitNoSeparator(d, ',');
    } else {
      var head, last := d[..|d| - 3], d[|d| - 3..];
      Group3Groups(head);
      DigitsHaveNoComma(last);
      SplitLastSeparator(Group3(head), ',', last);
      assert Group3(d) == Group3(head) + [','] + last;
    }
  }

  lemma DigitsHaveNoComma(s: string)
    requires AllDigits(s)
    ensures ',' !in s
  {
    assert forall i :: 0 <= i < |s| ==> IsDigit(s[i]);
  }

  /** A text without commas is left as it is. */
  lemma {:induction false} CommasFree(s: string)
    requires ',' !in s
    ensures StripCommas(s) == s
  {
    if s != [] {
      CommasFree(s[..|s| - 1]);
      assert s == s[..|s| - 1] + [s[|s| - 1]];
    }
  }

  /** Between positions `a` and `b` the pattern never matches: the characters are copied as they are. */
  lemma {:induction false} Plain(s: string, a: nat, b: nat)
    requires a <= b <= |s|
    requires forall q :: a <= q < b ==> !CommaBefore(s, q)
    ensures Commas(s, b) == Commas(s, a) + s[a..b]
    decreases b - a
  {
    if a < b {
      Plain(s, a, b - 1);
      assert s[a..b] == s[a..b - 1] + [s[b - 1]];
    }
  }

  /** What `toFixed(2)` writes: an optional minus sign, the integer digits, a point and two digits. */
  predicate FixedShape(sign: string, d: string, f: string) {
    (sign == "" || sign == "-") && |d| >= 1 && AllDigits(d) && |f| == 2 && AllDigits(f)
  }

  /**
   * The same shape read off the text itself: integer digits in `[o, p)` after an optional
   * minus sign, the point at `p`, then two digits.
   */
  predicate Shaped(s: string, o: nat, p: nat) {
    o < p && |s| == p + 3 && (o == 0 || (o == 1 && s[0] == '-'))
    && (forall i :: o <= i < p ==> IsDigit(s[i]))
    && s[p] == '.' && IsDigit(s[p + 1]) && IsDigit(s[p + 2])
  }

  lemma ShapeOf(sign: string, d: string, f: string)
    requires FixedShape(sign, d, f)
    ensures Shaped(sign + d + "." + f, |sign|, |sign| + |d|)
    ensures (sign + d + "." + f)[..|sign|] == sign
    ensures (sign + d + "." + f)[|sign|..|sign| + |d|] == d
    ensures (sign + d + "." + f)[|sign| + |d|..] == "." + f
  {
    var s := sign + d + "." + f;
    forall i | |sign| <= i < |sign| + |d|
      ensures IsDigit(s[i])
    {
      assert s[i] == d[i - |sign|];
    }
    assert s[|sign| + |d| + 1] == f[0];
    assert s[|sign| + |d| + 2] == f[1];
  }

  /** Inside the integer digits the run of digits reaches the decimal point. */
  lemma {:induction false} RunToPoint(s: string, o: nat, p: nat, q: nat)
    requires Shaped(s, o, p) && o <= q <= p
    ensures DigitRun(s, q) == p - q
    decreases p - q
  {
    if q < p {
      RunToPoint(s, o, p, q + 1);
    }
  }

  /** The pattern matches inside the integer digits exactly where a multiple of three digits remains. */
  lemma CommaAt(s: string, o: nat, p: nat, q: nat)
    requires Shaped(s, o, p) && o <= q <= p
    ensures CommaBefore(s, q) <==> o < q < p && (p - q) % 3 == 0
  {
    RunToPoint(s, o, p, q);
  }

  /** The pattern matches inside the integer digits exactly where a multiple of three digits remains. */
  lemma CommaInInteger(sign: string, d: string, f: string, q: nat)
    requires FixedShape(sign, d, f)
    requires |sign| <= q <= |sign| + |d|
    ensures CommaBefore(sign + d + "." + f, q) <==> |sign| < q < |sign| + |d| && (|sign| + |d| - q) % 3 == 0
  {
    ShapeOf(sign, d, f);
    CommaAt(sign + d + "." + f, |sign|, |sign| + |d|, q);
  }

  /** Up to three leading digits are copied without a separator. */
  lemma GroupFirst(s: string, o: nat, p: nat, j: nat)
    requires Shaped(s, o, p)
    requires 1 <= j <= 3 && o + j <= p && (p - o - j) % 3 == 0
    ensures Commas(s, o + j) == s[..o + j]
  {
    forall q | 0 <= q < o + j
      ensures !CommaBefore(s, q)
    {
      if q >= o {
        CommaAt(s, o, p, q);
      }
    }
    Plain(s, 0, o + j);
  }

  /** A position where the pattern does not match copies its character. */
  lemma CopyOne(s: string, q: nat)
    requires q < |s| && !CommaBefore(s, q)
    ensures Commas(s, q + 1) == Commas(s, q) + [s[q]]
  {
  }

  /** A position where the pattern matches puts a separator before its character. */
  lemma SeparateOne(s: string, q: nat)
    requires q < |s| && CommaBefore(s, q)
    ensures Commas(s, q + 1) == Commas(s, q) + "," + [s[q]]
  {
  }

  /** Of three more digits, only the first has the pattern matching before it. */
  lemma NextThreeMarks(s: string, o: nat, p: nat, k: nat)
    requires Shaped(s, o, p)
    requires o + 3 < k <= p && (p - k) % 3 == 0
    ensures CommaBefore(s, k - 3) && !CommaBefore(s, k - 2) && !CommaBefore(s, k - 1)
  {
    var m := p - k;
    assert (m + 3) % 3 == 0 && (m + 2) % 3 == 2 && (m + 1) % 3 == 1;
    CommaAt(s, o, p, k - 3);
    CommaAt(s, o, p, k - 2);
    CommaAt(s, o, p, k - 1);
  }

  /** Three more digits add a separator and the three digits. */
  lemma GroupNext(s: string, o: nat, p: nat, k: nat)
    requires Shaped(s, o, p)
    requires o + 3 < k <= p && (p - k) % 3 == 0
    ensures Commas(s, k) == Commas(s, k - 3) + "," + s[k - 3..k]
  {
    NextThreeMarks(s, o, p, k);
    SeparateOne(s, k - 3);
    CopyOne(s, k - 2);
    CopyOne(s, k - 1);
    assert s[k - 3..k] == [s[k - 3], s[k - 2], s[k - 1]];
  }

  /** Three more digits after a non-empty head are one more group of the reference grouping. */
  lemma Group3Append(head: string, last: string)
    requires |head| >= 1 && |last| == 3
    ensures Group3(head + last) == Group3(head) + "," + last
  {
    var g := head + last;
    assert g[..|g| - 3] == head;
    assert g[|g| - 3..] == last;
  }

  /** Up to three leading digits: the sign and the digits, which are their own grouping. */
  lemma GroupPrefixFirst(s: string, o: nat, p: nat, k: nat)
    requires Shaped(s, o, p)
    requires o + 1 <= k <= o + 3 && k <= p && (p - k) % 3 == 0
    ensures Commas(s, k) == s[..o] + Group3(s[o..k])
  {
    GroupFirst(s, o, p, k - o);
    assert s[..k] == s[..o] + s[o..k];
  }

  /** A separator and three more digits after a grouped head make the grouping of the longer digits. */
  lemma GroupExtend(out: string, before: string, sign: string, head: string, last: string)
    requires |head| >= 1 && |last| == 3
    requires before == sign + Group3(head)
    requires out == before + "," + last
    ensures out == sign + Group3(head + last)
  {
    Group3Append(head, last);
  }

  /** The output up to a point that leaves a multiple of three integer digits is the sign and the reference grouping. */
  lemma {:induction false} GroupPrefix(s: string, o: nat, p: nat, k: nat)
    requires Shaped(s, o, p)
    requires o < k <= p && (p - k) % 3 == 0
    ensures Commas(s, k) == s[..o] + Group3(s[o..k])
    decreases k
  {
    if k <= o + 3 {
      GroupPrefixFirst(s, o, p, k);
    } else {
      assert (p - (k - 3)) % 3 == 0;
      GroupPrefix(s, o, p, k - 3);
      GroupNext(s, o, p, k);
      assert s[o..k] == s[o..k - 3] + s[k - 3..k];
      GroupExtend(Commas(s, k), Commas(s, k - 3), s[..o], s[o..k - 3], s[k - 3..k]);
    }
  }

  /** From the decimal point on, the pattern never matches. */
  lemma NoCommaAfterPoint(s: string, o: nat, p: nat, q: nat)
    requires Shaped(s, o, p) && p <= q < |s|
    ensures !CommaBefore(s, q)
  {
    if q == p + 2 {
      assert DigitRun(s, q + 1) == 0;
    }
  }

  /** From the decimal point on, the pattern never matches. */
  lemma NoCommaInFraction(sign: string, d: string, f: string, q: nat)
    requires FixedShape(sign, d, f)
    requires |sign| + |d| <= q < |sign| + |d| + 3
    ensures !CommaBefore(sign + d + "." + f, q)
  {
    ShapeOf(sign, d, f);
    NoCommaAfterPoint(sign + d + "." + f, |sign|, |sign| + |d|, q);
  }

  /** The point and the two fraction digits are copied as they are. */
  lemma FractionPlain(s: string, o: nat, p: nat)
    requires Shaped(s, o, p)
    ensures Commas(s, |s|) == Commas(s, p) + s[p..]
  {
    forall q | p <= q < |s|
      ensures !CommaBefore(s, q)
    {
      NoCommaAfterPoint(s, o, p, q);
    }
    Plain(s, p, |s|);
  }

  /** A `toFixed(2)` text is formatted as its sign, its integer digits grouped by three, and its cents unchanged. */
  lemma FormatFixed(sign: string, d: string, f: string)
    requires FixedShape(sign, d, f)
    ensures FormatCurrency(sign + d + "." + f) == "$" + sign + Group3(d) + "." + f
  {
    var s := sign + d + "." + f;
    var o, p := |sign|, |sign| + |d|;
    ShapeOf(sign, d, f);
    var c := Commas(s, |s|);
    assert c == s[..o] + Group3(s[o..p]) + s[p..] by {
      GroupPrefix(s, o, p, p);
      FractionPlain(s, o, p);
    }
    assert c == sign + Group3(d) + ("." + f);
    assert FormatCurrency(s) == "$" + c;
  }

  /** `toFixed(2)` of an amount of whole cents. */
  function Fixed2(cents: int): string {
    var units := if cents < 0 then -cents else cents;
    (if cents < 0 then "-" else "") + Decimal(units / 100) + "." + Digits(units % 100, 2)
  }

  /** `formatCurrency` of an amount of whole cents: sign, grouped units, two-digit cents. */
  lemma FormatCents(cents: int)
    ensures var units := if cents < 0 then -cents else cents;
      FormatCurrency(Fixed2(cents))
        == "$" + (if cents < 0 then "-" else "") + Group3(Decimal(units / 100)) + "." + Digits(units % 100, 2)
  {
    var units := if cents < 0 then -cents else cents;
    FormatFixed(if cents < 0 then "-" else "", Decimal(units / 100), Digits(units % 100, 2));
  }

  /** A refund of 1234.5 dollars is written `$-1,234.50`. */
  lemma FormatExample(cents: int)
    requires cents == -123450
    ensures FormatCurrency(Fixed2(cents)) == "$-1,234.50"
  {
    FormatCents(cents);
    assert Fixed2(cents) == "-" + Decimal(1234) + "." + Digits(50, 2);
    assert Decimal(1234) == "1234" by {
      assert Decimal(1) == "1";
      assert Decimal(12) == "12";
      assert Decimal(123) == "123";
    }
    assert Digits(50, 2) == "50" by {
      assert Digits(5, 1) == "5";
    }
    assert Group3("1234") == "1,234" by {
      assert "1234"[..1] == "1" && "1234"[1..] == "234";
    }
  }
}
