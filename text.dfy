/**
 * Text helpers shared by the model: Python's `str()` of an integer, `str.join`,
 * `str.split` on one separator character and `str.rjust`, each with the
 * properties the rest of the model relies on (round trips, lengths).
 */
module Text {

  datatype Option<+T> = None | Some(value: T)

  predicate IsDigit(c: char) {
    '0' <= c <= '9'
  }

  /** A non-empty run of decimal digits. */
  predicate IsDigits(s: string) {
    |s| > 0 && forall k :: 0 <= k < |s| ==> IsDigit(s[k])
  }

  function DigitChar(d: nat): (c: char)
    requires d < 10
    ensures IsDigit(c) && c as int - '0' as int == d
  {
    ('0' as int + d) as char
  }

  /** Decimal representation of a natural number, as Python's `str(n)`. */
  function NatToString(n: nat): (s: string)
    ensures IsDigits(s)
    ensures n > 0 ==> s[0] != '0'
    ensures n < 10 <==> |s| == 1
  {
    if n < 10 then [DigitChar(n)] else NatToString(n / 10) + [DigitChar(n % 10)]
  }

  function DigitValue(c: char): nat
    requires IsDigit(c)
  {
    c as int - '0' as int
  }

  /** Value of a run of decimal digits. */
  function DigitsValue(s: string): nat
    requires forall k :: 0 <= k < |s| ==> IsDigit(s[k])
  {
    if s == [] then 0 else DigitsValue(s[..|s| - 1]) * 10 + DigitValue(s[|s| - 1])
  }

  function ParseNat(s: string): Option<nat> {
    if IsDigits(s) then Some(DigitsValue(s)) else None
  }

  /** Python's `str(i)` for any integer: a minus sign before the digits of a negative value. */
  function IntToString(i: int): (s: string)
    ensures |s| > 0
    ensures forall k :: 0 <= k < |s| ==> IsDigit(s[k]) || s[k] == '-'
  {
    if i < 0 then "-" + NatToString(-i) else NatToString(i)
  }

  function ParseInt(s: string): Option<int> {
    if |s| > 0 && s[0] == '-' then
      match ParseNat(s[1..])
      case Some(v) => Some(-(v as int))
      case None => None
    else
      match ParseNat(s)
      case Some(v) => Some(v)
      case None => None
  }

  lemma {:induction false} NatToStringRoundTrip(n: nat)
    ensures ParseNat(NatToString(n)) == Some(n)
  {
    var s := NatToString(n);
    if n < 10 {
      assert s[..|s| - 1] == [];
    } else {
      NatToStringRoundTrip(n / 10);
      assert s[..|s| - 1] == NatToString(n / 10);
    }
    assert DigitsValue(s) == DigitsValue(s[..|s| - 1]) * 10 + DigitValue(s[|s| - 1]);
  }

  lemma IntToStringRoundTrip(i: int)
    ensures ParseInt(IntToString(i)) == Some(i)
  {
    if i < 0 {
      NatToStringRoundTrip(-i);
      assert IntToString(i)[1..] == NatToString(-i);
    } else {
      NatToStringRoundTrip(i);
    }
  }

  /** A larger number never has fewer decimal digits. */
  lemma {:induction false} NatToStringLengthMonotone(a: nat, b: nat)
    requires a <= b
    ensures |NatToString(a)| <= |NatToString(b)|
  {
    if a >= 10 {
      NatToStringLengthMonotone(a / 10, b / 10);
    }
  }

  /** Index of the first occurrence of `c` in `s`, or `|s|` when there is none. */
  function FirstIndex(s: string, c: char): (k: nat)
    ensures k <= |s|
    ensures k < |s| ==> s[k] == c
    ensures forall j :: 0 <= j < k ==> s[j] != c
  {
    if s == [] then 0 else if s[0] == c then 0 else 1 + FirstIndex(s[1..], c)
  }

  /** The first `c` in `a + [c] + b` is the one after `a` when `a` has none. */
  lemma {:induction false} FirstIndexAfter(a: string, c: char, b: string)
    requires c !in a
    ensures FirstIndex(a + [c] + b, c) == |a|
  {
    if a != [] {
      assert (a + [c] + b)[1..] == a[1..] + [c] + b;
      FirstIndexAfter(a[1..], c, b);
    }
  }

  /** Python's `sep.join(parts)`. */
  function Join(parts: seq<string>, sep: string): string {
    if |parts| == 0 then ""
    else if |parts| == 1 then parts[0]
    else Join(parts[..|parts| - 1], sep) + sep + parts[|parts| - 1]
  }

  /** Python's `s.split(c)` for a single separator character: always at least one piece. */
  function Split(s: string, c: char): (pieces: seq<string>)
    ensures |pieces| > 0
  {
    if |s| == 0 then [""]
    else
      var init := Split(s[..|s| - 1], c);
      if s[|s| - 1] == c then init + [""]
      else init[..|init| - 1] + [init[|init| - 1] + [s[|s| - 1]]]
  }

  /** Appending a character other than `c` extends the last piece. */
  lemma SplitSnoc(s: string, ch: char, c: char)
    requires ch != c
    ensures var init := Split(s, c);
            Split(s + [ch], c) == init[..|init| - 1] + [init[|init| - 1] + [ch]]
  {
    assert (s + [ch])[..|s + [ch]| - 1] == s;
  }

  lemma {:induction false} SplitAppendPlain(x: string, b: string, c: char)
    requires c !in b
    ensures var p := Split(x, c);
            Split(x + b, c) == p[..|p| - 1] + [p[|p| - 1] + b]
  {
    var p := Split(x, c);
    if b != [] {
      var b', ch := b[..|b| - 1], b[|b| - 1];
      var init := Split(x + b', c);
      assert init == p[..|p| - 1] + [p[|p| - 1] + b'] by {
        SplitAppendPlain(x, b', c);
      }
      assert Split(x + b, c) == init[..|init| - 1] + [init[|init| - 1] + [ch]] by {
        assert x + b == (x + b') + [ch];
        SplitSnoc(x + b', ch, c);
      }
      assert init[..|init| - 1] == p[..|p| - 1];
      assert init[|init| - 1] + [ch] == p[|p| - 1] + b by {
        assert b' + [ch] == b;
      }
    } else {
      assert x + b == x;
      assert p[..|p| - 1] + [p[|p| - 1] + b] == p by {
        assert p[|p| - 1] + b == p[|p| - 1];
      }
    }
  }

  /** Splitting on `c` undoes joining with `c` when no piece contains `c`. */
  lemma {:induction false} SplitJoin(parts: seq<string>, c: char)
    requires |parts| > 0
    requires forall k :: 0 <= k < |parts| ==> c !in parts[k]
    ensures Split(Join(parts, [c]), c) == parts
  {
    var n := |parts|;
    if n == 1 {
      SplitAppendPlain("", parts[0], c);
      assert "" + parts[0] == parts[0];
    } else {
      var front, last := Join(parts[..n - 1], [c]), parts[n - 1];
      assert Split(front + [c], c) == parts[..n - 1] + [""] by {
        SplitJoin(parts[..n - 1], c);
        assert (front + [c])[..|front + [c]| - 1] == front;
      }
      assert Split(front + [c] + last, c) == parts[..n - 1] + ["" + last] by {
        SplitAppendPlain(front + [c], last, c);
      }
      assert Join(parts, [c]) == front + [c] + last;
      assert parts[..n - 1] + ["" + last] == parts by {
        assert "" + last == last;
      }
    }
  }

  predicate StartsWith(s: string, prefix: string) {
    |prefix| <= |s| && s[..|prefix|] == prefix
  }

  /** The first piece of a join is a prefix of it. */
  lemma {:induction false} JoinStartsWithFirst(parts: seq<string>, sep: string)
    requires |parts| > 0
    ensures |parts[0]| <= |Join(parts, sep)|
    ensures Join(parts, sep)[..|parts[0]|] == parts[0]
  {
    if |parts| > 1 {
      JoinStartsWithFirst(parts[..|parts| - 1], sep);
    }
  }

  function Spaces(k: nat): (s: string)
    ensures |s| == k && forall j :: 0 <= j < k ==> s[j] == ' '
  {
    seq(k, _ => ' ')
  }

  /** Python's `s.rjust(width)`: left-padded with spaces up to `width` characters. */
  function RJust(s: string, width: int): (r: string)
    ensures |r| == if width <= |s| then |s| else width
    ensures r[|r| - |s|..] == s
    ensures forall j :: 0 <= j < |r| - |s| ==> r[j] == ' '
  {
    if width <= |s| then s else Spaces(width - |s|) + s
  }
}
