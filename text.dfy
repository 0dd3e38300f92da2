/**
 * Decimal rendering of whole numbers as JavaScript's `Number.prototype.toString`
 * gives it, and `String.prototype.padStart` with a one-character filler.
 */
module Text {

  predicate IsDigit(c: char) {
    '0' <= c <= '9'
  }

  predicate AllDigits(s: string) {
    forall i :: 0 <= i < |s| ==> IsDigit(s[i])
  }

  function DigitChar(d: nat): (c: char)
    requires d < 10
    ensures IsDigit(c) && c as int - '0' as int == d
  {
    (d + '0' as int) as char
  }

  /** `n.toString()` for a whole number `n >= 0`: decimal, no leading zeros. */
  function NatToString(n: nat): (s: string)
    ensures |s| >= 1 && forall i :: 0 <= i < |s| ==> IsDigit(s[i])
    ensures |s| > 1 ==> s[0] != '0'
    ensures n < 10 <==> |s| == 1
  {
    if n < 10 then [DigitChar(n)] else NatToString(n / 10) + [DigitChar(n % 10)]
  }

  /** `n.toString()` for any whole number: a minus sign before the digits of a negative one. */
  function IntToString(n: int): (s: string)
    ensures n >= 0 ==> s == NatToString(n)
    ensures n < 0 ==> s == "-" + NatToString(-n)
    ensures |s| >= 1 && (n < 0 <==> s[0] == '-')
    ensures n >= 0 ==> AllDigits(s) && ParseDigits(s) == n
    ensures n < 0 ==> AllDigits(s[1..]) && ParseDigits(s[1..]) == -n
  {
    if n >= 0 then
      ParseNatToString(n);
      NatToString(n)
    else
      ParseNatToString(-n);
      var digits := NatToString(-n);
      assert ("-" + digits)[1..] == digits;
      "-" + digits
  }

  /** The value of a string of decimal digits (leading zeros allowed). */
  function ParseDigits(s: string): nat
    requires AllDigits(s)
  {
    if s == [] then 0
    else
      assert IsDigit(s[|s| - 1]);
      ParseDigits(s[..|s| - 1]) * 10 + (s[|s| - 1] as int - '0' as int)
  }

  /** Reading back the decimal rendering gives the number. */
  lemma {:induction false} ParseNatToString(n: nat)
    ensures ParseDigits(NatToString(n)) == n
  {
    var s := NatToString(n);
    if n >= 10 {
      ParseNatToString(n / 10);
      assert s[..|s| - 1] == NatToString(n / 10);
    }
  }

  /** `s.padStart(width, fill)`: fill characters in front up to `width`, nothing cut off. */
  function PadStart(s: string, width: nat, fill: char): (r: string)
    ensures |r| == if |s| >= width then |s| else width
    ensures r[|r| - |s|..] == s
    ensures forall i :: 0 <= i < |r| - |s| ==> r[i] == fill
  {
    if |s| >= width then s else seq(width - |s|, _ => fill) + s
  }

  /** A number zero-padded to two digits, as `n.toString().padStart(2, '0')`. */
  function Pad2(n: nat): (r: string)
    ensures forall i :: 0 <= i < |r| ==> IsDigit(r[i])
    ensures n < 100 <==> |r| == 2
    ensures ParseDigits(r) == n
  {
    var r := PadStart(NatToString(n), 2, '0');
    ParseNatToString(n);
    LeadingZeros(NatToString(n), r);
    r
  }

  /** Zeros in front do not change the value of a digit string. */
  lemma {:induction false} LeadingZeros(s: string, r: string)
    requires forall i :: 0 <= i < |s| ==> IsDigit(s[i])
    requires |s| <= |r| && r[|r| - |s|..] == s
    requires forall i :: 0 <= i < |r| - |s| ==> r[i] == '0'
    ensures forall i :: 0 <= i < |r| ==> IsDigit(r[i])
    ensures ParseDigits(r) == ParseDigits(s)
    decreases |s|
  {
    assert forall i :: 0 <= i < |r| ==> IsDigit(r[i]) by {
      forall i | 0 <= i < |r| ensures IsDigit(r[i]) {
        if i >= |r| - |s| {
          assert r[i] == s[i - (|r| - |s|)];
        }
      }
    }
    if s == [] {
      AllZeros(r);
    } else {
      var r' := r[..|r| - 1];
      var s' := s[..|s| - 1];
      assert r'[|r'| - |s'|..] == s';
      LeadingZeros(s', r');
      assert r[|r| - 1] == s[|s| - 1];
    }
  }

  lemma {:induction false} AllZeros(r: string)
    requires forall i :: 0 <= i < |r| ==> r[i] == '0'
    ensures ParseDigits(r) == 0
  {
    if r != [] {
      AllZeros(r[..|r| - 1]);
    }
  }

  /** Where the fields of "AA?BB..." sit: two two-character fields around one separator. */
  lemma FieldLayout(a: string, sep: string, b: string, rest: string)
    requires |a| == 2 && |sep| == 1 && |b| == 2
    ensures var r := a + sep + b + rest;
      |r| == 5 + |rest| && r[..2] == a && r[2] == sep[0] && r[3..5] == b && r[5..] == rest
  {
    var r := a + sep + b + rest;
    assert r[..2] == a;
    assert r[3..5] == b;
    assert r[5..] == rest;
  }

  /** Where the parts of "TTTTT - N min." sit around a number of any width. */
  lemma TitleLayout(t: string, n: string)
    requires |t| == 5
    ensures var r := t + " - " + n + " min.";
      && |r| == 13 + |n| && r[..5] == t && r[5..8] == " - " && r[8..|r| - 5] == n && r[|r| - 5..] == " min."
  {
    var r := t + " - " + n + " min.";
    assert r[..5] == t;
    assert r[5..8] == " - ";
    assert r[8..|r| - 5] == n;
    assert r[|r| - 5..] == " min.";
  }

  lemma SuffixSlice(r: string, k: nat, a: nat, b: nat)
    requires a <= b && k + b <= |r|
    ensures r[k..][a..b] == r[k + a..k + b]
  {
  }

  /** The fields of a nine-character "HH:MM UTC" placed after a six-character prefix. */
  lemma TimeAfterPrefix(r: string, t: string)
    requires |t| == 9 && |r| == 15 && r[6..] == t
    ensures r[6..8] == t[..2] && r[9..11] == t[3..5] && r[11..] == t[5..]
  {
    SuffixSlice(r, 6, 0, 2);
    SuffixSlice(r, 6, 3, 5);
  }
}
