/**
 * The vertex properties the loader asks the PLY reader for, and the names it
 * asks for them by. Indexed names are built as prefix + std::to_string(index).
 */
module PlyNames {

  /** One scalar vertex property of a Gaussian-splat PLY file. */
  datatype Prop =
    | X | Y | Z
    | Opacity
    | Rot(k: nat)      // rot_k: the stored quaternion, in the order w, x, y, z
    | Scale(k: nat)    // scale_k: the stored log-scale
    | FDc(k: nat)      // f_dc_k: the base colour of channel k
    | FRest(n: nat)    // f_rest_n: the n-th higher-band colour coefficient in the file

  /** The character for a decimal digit. */
  function Digit(d: nat): (c: char)
    requires d < 10
    ensures '0' <= c <= '9'
  {
    ('0' as int + d) as char
  }

  /** The value of a decimal digit character. */
  function DigitValue(c: char): (d: nat)
    requires '0' <= c <= '9'
    ensures d < 10
  {
    (c as int - '0' as int) as nat
  }

  /** std::to_string on a non-negative int: decimal, no sign, no leading zero. */
  function DecimalString(n: nat): (s: string)
    ensures |s| >= 1
    ensures forall k :: 0 <= k < |s| ==> '0' <= s[k] <= '9'
    ensures |s| > 1 ==> s[0] != '0'
  {
    if n < 10 then [Digit(n)] else DecimalString(n / 10) + [Digit(n % 10)]
  }

  /** Reads back a string of decimal digits. */
  function ParseDecimal(s: string): nat
    requires forall k :: 0 <= k < |s| ==> '0' <= s[k] <= '9'
  {
    if s == [] then 0 else 10 * ParseDecimal(s[..|s| - 1]) + DigitValue(s[|s| - 1])
  }

  /** Reading back the decimal rendering of n gives n. */
  lemma {:induction false} DecimalRoundTrip(n: nat)
    ensures ParseDecimal(DecimalString(n)) == n
  {
    var s := DecimalString(n);
    if n >= 10 {
      DecimalRoundTrip(n / 10);
      assert s[..|s| - 1] == DecimalString(n / 10);
    }
  }

  /** Different indices get different decimal renderings. */
  lemma DecimalInjective(a: nat, b: nat)
    requires DecimalString(a) == DecimalString(b)
    ensures a == b
  {
    DecimalRoundTrip(a);
    DecimalRoundTrip(b);
  }

  /** The property name the loader passes to the PLY reader. */
  function Name(p: Prop): string {
    match p
    case X => "x"
    case Y => "y"
    case Z => "z"
    case Opacity => "opacity"
    case Rot(k) => "rot_" + DecimalString(k)
    case Scale(k) => "scale_" + DecimalString(k)
    case FDc(k) => "f_dc_" + DecimalString(k)
    case FRest(n) => "f_rest_" + DecimalString(n)
  }

  /** What follows a known prefix. */
  lemma AfterPrefix(pre: string, a: string, b: string)
    requires pre + a == pre + b
    ensures a == b
  {
    assert a == (pre + a)[|pre|..];
    assert b == (pre + b)[|pre|..];
  }

  /**
   * Distinct properties have distinct names, so no two requests of the loader
   * ask the reader for the same property.
   */
  lemma NameInjective(p: Prop, q: Prop)
    requires Name(p) == Name(q)
    ensures p == q
  {
    var s := Name(p);
    match p
    case X =>
    case Y =>
    case Z =>
    case Opacity =>
      assert s[0] == 'o';
    case Rot(a) =>
      assert s[0] == 'r' && |s| > 4;
      if q.Rot? {
        AfterPrefix("rot_", DecimalString(a), DecimalString(q.k));
        DecimalInjective(a, q.k);
      }
    case Scale(a) =>
      assert s[0] == 's' && |s| > 6;
      if q.Scale? {
        AfterPrefix("scale_", DecimalString(a), DecimalString(q.k));
        DecimalInjective(a, q.k);
      }
    case FDc(a) =>
      assert s[0] == 'f' && s[2] == 'd' && |s| > 5;
      if q.FDc? {
        AfterPrefix("f_dc_", DecimalString(a), DecimalString(q.k));
        DecimalInjective(a, q.k);
      }
    case FRest(a) =>
      assert s[0] == 'f' && s[2] == 'r' && |s| > 7;
      if q.FRest? {
        AfterPrefix("f_rest_", DecimalString(a), DecimalString(q.n));
        DecimalInjective(a, q.n);
      }
  }
}
