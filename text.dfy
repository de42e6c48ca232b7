/**
  * The JavaScript string operations the skill relies on: `split` on a
  * one-character separator, `Array.prototype.join`, the `Number()` coercion
  * of a digit string and the decimal rendering of an integer in a template.
  */
module Text {
  import opened Wrappers

  /** `s.split(sep)` for a one-character separator: every separator ends a segment. */
  function Split(s: string, sep: char): (r: seq<string>)
    ensures |r| >= 1
    ensures forall k :: 0 <= k < |r| ==> sep !in r[k]
  {
    if s == [] then [""]
    else
      var rest := Split(s[1..], sep);
      if s[0] == sep then [""] + rest
      else [[s[0]] + rest[0]] + rest[1..]
  }

  /** `xs.join(sep)`: the items with `sep` between neighbours, "" for no items. */
  function Join(xs: seq<string>, sep: string): string
  {
    if |xs| == 0 then ""
    else if |xs| == 1 then xs[0]
    else xs[0] + sep + Join(xs[1..], sep)
  }

  /** Joining one more item puts exactly one separator in front of it. */
  lemma {:induction false} JoinSnoc(xs: seq<string>, y: string, sep: string)
    requires |xs| > 0
    ensures Join(xs + [y], sep) == Join(xs, sep) + sep + y
  {
    if |xs| == 1 {
      assert (xs + [y])[1..] == [y];
    } else {
      assert (xs + [y])[1..] == xs[1..] + [y];
      JoinSnoc(xs[1..], y, sep);
    }
  }

  /** Splitting a string with no separator before `t` extends the first segment of `t`. */
  lemma {:induction false} SplitPrefix(a: string, t: string, sep: char)
    requires sep !in a
    ensures Split(a + t, sep) == [a + Split(t, sep)[0]] + Split(t, sep)[1..]
  {
    if a != [] {
      assert (a + t)[1..] == a[1..] + t;
      SplitPrefix(a[1..], t, sep);
      assert [a[0]] + (a[1..] + Split(t, sep)[0]) == a + Split(t, sep)[0];
    } else {
      assert a + t == t;
      assert a + Split(t, sep)[0] == Split(t, sep)[0];
      assert Split(t, sep) == [Split(t, sep)[0]] + Split(t, sep)[1..];
    }
  }

  /** Joining the segments back with the separator gives the original string. */
  lemma {:induction false} JoinSplit(s: string, sep: char)
    ensures Join(Split(s, sep), [sep]) == s
  {
    if s != [] {
      var rest := Split(s[1..], sep);
      JoinSplit(s[1..], sep);
      if s[0] == sep {
        assert Split(s, sep) == [""] + rest;
        assert ([""] + rest)[1..] == rest;
        assert s == [sep] + s[1..];
      } else {
        var r := [[s[0]] + rest[0]] + rest[1..];
        assert Split(s, sep) == r;
        if |rest| == 1 {
          assert Join(r, [sep]) == [s[0]] + rest[0];
        } else {
          assert r[1..] == rest[1..];
          assert Join(r, [sep]) == [s[0]] + rest[0] + [sep] + Join(rest[1..], [sep]);
        }
        assert s == [s[0]] + s[1..];
      }
    }
  }

  /** Splitting joined separator-free segments gives the segments back. */
  lemma {:induction false} SplitJoin(segs: seq<string>, sep: char)
    requires |segs| >= 1
    requires forall k :: 0 <= k < |segs| ==> sep !in segs[k]
    ensures Split(Join(segs, [sep]), sep) == segs
  {
    if |segs| == 1 {
      SplitPrefix(segs[0], "", sep);
      assert segs[0] + "" == segs[0];
    } else {
      var tail := Join(segs[1..], [sep]);
      SplitJoin(segs[1..], sep);
      assert Join(segs, [sep]) == segs[0] + ([sep] + tail);
      SplitPrefix(segs[0], [sep] + tail, sep);
      assert ([sep] + tail)[1..] == tail;
      assert Split([sep] + tail, sep) == [""] + segs[1..];
      assert segs[0] + "" == segs[0];
      assert segs == [segs[0]] + segs[1..];
    }
  }

  /** The number of times `c` occurs in `s`. */
  function Occurrences(s: string, c: char): nat {
    if s == [] then 0 else (if s[0] == c then 1 else 0) + Occurrences(s[1..], c)
  }

  /** `split` gives one segment more than there are separators. */
  lemma {:induction false} SplitSize(s: string, sep: char)
    ensures |Split(s, sep)| == Occurrences(s, sep) + 1
  {
    if s != [] {
      SplitSize(s[1..], sep);
    }
  }

  predicate IsDigit(c: char) { '0' <= c <= '9' }

  predicate AllDigits(s: string) { forall i :: 0 <= i < |s| ==> IsDigit(s[i]) }

  /** The value of a string of decimal digits (the empty string reads as 0). */
  function DigitsValue(s: string): (n: nat)
    requires AllDigits(s)
  {
    if s == [] then 0
    else 10 * DigitsValue(s[..|s| - 1]) + (s[|s| - 1] as int - '0' as int)
  }

  /**
    * `Number(s)` for the strings this model reads numbers from: a digit string
    * (possibly empty, which JavaScript reads as 0) gives its value; any other
    * string is `NaN`, written `None`.
    */
  function JsNumber(s: string): (r: Option<nat>)
    ensures r.Some? <==> AllDigits(s)
  {
    if AllDigits(s) then Some(DigitsValue(s)) else None
  }

  /** `Number("")` is 0: an empty week number after the 'W' reads as week 0. */
  lemma EmptyIsZero()
    ensures JsNumber("") == Some(0)
  {
  }

  /** A leading zero does not change the number: "05" reads as 5. */
  lemma {:induction false} LeadingZero(s: string)
    requires AllDigits(s)
    ensures JsNumber("0" + s) == JsNumber(s)
  {
    var t := "0" + s;
    assert AllDigits(t) by {
      forall i | 0 <= i < |t|
        ensures IsDigit(t[i])
      {
        if i > 0 {
          assert t[i] == s[i - 1];
        }
      }
    }
    LeadingZeroValue(s);
  }

  lemma {:induction false} LeadingZeroValue(s: string)
    requires AllDigits(s) && AllDigits("0" + s)
    ensures DigitsValue("0" + s) == DigitsValue(s)
  {
    var t := "0" + s;
    if s == [] {
      assert t[..|t| - 1] == [];
    } else {
      var init := s[..|s| - 1];
      assert t[..|t| - 1] == "0" + init;
      assert t[|t| - 1] == s[|s| - 1];
      LeadingZeroValue(init);
    }
  }

  function Pow10(width: nat): (p: nat)
    ensures p >= 1
  {
    if width == 0 then 1 else 10 * Pow10(width - 1)
  }

  /** The last `width` decimal digits of `n`, padded with leading zeros: a `YYYY` or `MM` field. */
  function PadDigits(n: nat, width: nat): (s: string)
    ensures |s| == width && AllDigits(s)
  {
    if width == 0 then "" else PadDigits(n / 10, width - 1) + [('0' as int + n % 10) as char]
  }

  /** A number below `10^width` written in `width` zero-padded digits reads back as itself. */
  lemma {:induction false} PadDigitsValue(n: nat, width: nat)
    requires n < Pow10(width)
    ensures JsNumber(PadDigits(n, width)) == Some(n)
  {
    var s := PadDigits(n, width);
    if width == 0 {
      assert n == 0;
    } else {
      var p := Pow10(width - 1);
      assert n / 10 < p;
      PadDigitsValue(n / 10, width - 1);
      assert s[..|s| - 1] == PadDigits(n / 10, width - 1);
      assert DigitsValue(s) == 10 * (n / 10) + n % 10;
    }
  }

  /** The decimal digits of `n`, without leading zeros, as a template literal renders it. */
  function NatToString(n: nat): (s: string)
    ensures |s| >= 1 && AllDigits(s)
  {
    if n < 10 then [('0' as int + n) as char]
    else NatToString(n / 10) + [('0' as int + n % 10) as char]
  }

  /** The decimal rendering of an integer, with a leading '-' when negative. */
  function IntToString(i: int): (s: string)
    ensures |s| >= 1
    ensures i < 0 <==> s[0] == '-'
  {
    if i < 0 then "-" + NatToString(-i) else NatToString(i)
  }

  /** Reading a rendered number back gives the number: rendering loses nothing. */
  lemma {:induction false} NumberOfNatToString(n: nat)
    ensures JsNumber(NatToString(n)) == Some(n)
  {
    var s := NatToString(n);
    if n >= 10 {
      NumberOfNatToString(n / 10);
      assert s[..|s| - 1] == NatToString(n / 10);
      assert DigitsValue(s) == 10 * (n / 10) + n % 10;
    } else {
      assert s[..|s| - 1] == [];
    }
  }
}
