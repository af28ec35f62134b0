/** String helpers shared by the renderers: `Array.prototype.join`, the decimal text of a
    number (JavaScript template interpolation of an integer) and `Number(digits)`. */
module Strings {

  /** `ss.join(sep)`. */
  function Join(ss: seq<string>, sep: string): (r: string)
    ensures |ss| == 0 ==> r == ""
    ensures |ss| == 1 ==> r == ss[0]
  {
    if |ss| == 0 then ""
    else if |ss| == 1 then ss[0]
    else ss[0] + sep + Join(ss[1..], sep)
  }

  lemma {:induction false} JoinCons(s: string, ss: seq<string>, sep: string)
    requires |ss| > 0
    ensures Join([s] + ss, sep) == s + sep + Join(ss, sep)
  {
    assert ([s] + ss)[1..] == ss;
  }

  /** Joining one more string at the end adds one separator and that string. */
  lemma {:induction false} JoinSnoc(ss: seq<string>, s: string, sep: string)
    requires |ss| > 0
    ensures Join(ss + [s], sep) == Join(ss, sep) + sep + s
    decreases |ss|
  {
    if |ss| == 1 {
      assert ss + [s] == [ss[0]] + [s];
      JoinCons(ss[0], [s], sep);
    } else {
      assert ss + [s] == [ss[0]] + (ss[1..] + [s]);
      JoinCons(ss[0], ss[1..] + [s], sep);
      JoinSnoc(ss[1..], s, sep);
      assert ss == [ss[0]] + ss[1..];
      JoinCons(ss[0], ss[1..], sep);
    }
  }

  function DigitChar(d: nat): (c: char)
    requires d < 10
    ensures '0' <= c <= '9'
  {
    ['0', '1', '2', '3', '4', '5', '6', '7', '8', '9'][d]
  }

  predicate IsDigitChar(c: char) {
    '0' <= c <= '9'
  }

  /** Decimal text of a natural number, most significant digit first, no leading zero. */
  function NatToString(n: nat): (s: string)
    ensures |s| > 0
    ensures forall i | 0 <= i < |s| :: IsDigitChar(s[i])
    ensures n > 0 ==> s[0] != '0'
  {
    if n < 10 then [DigitChar(n)] else NatToString(n / 10) + [DigitChar(n % 10)]
  }

  /** Decimal text of an integer, as `${n}` prints it. */
  function IntToString(n: int): (s: string)
    ensures |s| > 0
    ensures n < 0 <==> s[0] == '-'
  {
    if n < 0 then "-" + NatToString(-n) else NatToString(n)
  }

  /** Value of a run of decimal digits, as `Number(literal)` computes it for a lexer INT token. */
  function DecimalValue(s: string): nat
  {
    if s == [] then 0
    else DecimalValue(s[..|s| - 1]) * 10 + DigitValue(s[|s| - 1])
  }

  function DigitValue(c: char): nat {
    if IsDigitChar(c) then (c as int) - ('0' as int) else 0
  }

  /** Decimal rendering is a left inverse of `Number`: reading back what `NatToString` prints
      gives the number again. */
  lemma {:induction false} DecimalValueOfNatToString(n: nat)
    ensures DecimalValue(NatToString(n)) == n
  {
    var s := NatToString(n);
    if n < 10 {
      assert s[..|s| - 1] == [];
      assert DigitValue(DigitChar(n)) == n by {
        assert ['0', '1', '2', '3', '4', '5', '6', '7', '8', '9'][n] as int == '0' as int + n;
      }
    } else {
      var p := NatToString(n / 10);
      assert s == p + [DigitChar(n % 10)];
      assert s[..|s| - 1] == p;
      DecimalValueOfNatToString(n / 10);
      assert DigitValue(DigitChar(n % 10)) == n % 10 by {
        assert ['0', '1', '2', '3', '4', '5', '6', '7', '8', '9'][n % 10] as int == '0' as int + n % 10;
      }
    }
  }

  /** ASCII `toLowerCase`. */
  function LowerChar(c: char): char {
    if 'A' <= c <= 'Z' then ((c as int) + 32) as char else c
  }

  function UpperChar(c: char): char {
    if 'a' <= c <= 'z' then ((c as int) - 32) as char else c
  }

  function ToLower(s: string): (r: string)
    ensures |r| == |s|
    ensures forall i | 0 <= i < |s| :: r[i] == LowerChar(s[i])
  {
    seq(|s|, i requires 0 <= i < |s| => LowerChar(s[i]))
  }

  function ToUpper(s: string): (r: string)
    ensures |r| == |s|
    ensures forall i | 0 <= i < |s| :: r[i] == UpperChar(s[i])
  {
    seq(|s|, i requires 0 <= i < |s| => UpperChar(s[i]))
  }

  /** Case conversion leaves no upper-case ASCII letter behind, and converting twice is
      converting once. */
  lemma ToLowerIdempotent(s: string)
    ensures forall i | 0 <= i < |ToLower(s)| :: !('A' <= ToLower(s)[i] <= 'Z')
    ensures ToLower(ToLower(s)) == ToLower(s)
  {
  }

  lemma ToUpperIdempotent(s: string)
    ensures forall i | 0 <= i < |ToUpper(s)| :: !('a' <= ToUpper(s)[i] <= 'z')
    ensures ToUpper(ToUpper(s)) == ToUpper(s)
  {
  }
}
