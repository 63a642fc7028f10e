/**
 * The `m:ss / m:ss` label a video player writes under its timeline
 * (script.js, updateProgress). Minutes are the whole number of minutes,
 * seconds the remainder, with a leading '0' below ten; an unknown duration
 * reads as 0:00. The label is modelled over whole seconds; the lemma
 * WholeSecondsSplit shows that flooring a non-negative playhead first
 * gives the same minutes and seconds as the source's Math.floor(t / 60)
 * and Math.floor(t % 60).
 */
module TimeLabel {
  import opened Wrappers

  predicate IsDigit(c: char) {
    '0' <= c <= '9'
  }

  predicate AllDigits(s: string) {
    forall i :: 0 <= i < |s| ==> IsDigit(s[i])
  }

  function DigitChar(d: nat): (c: char)
    requires d < 10
    ensures IsDigit(c) && c as int - '0' as int == d
  {
    ('0' as int + d) as char
  }

  /** The decimal numeral of n, as a template literal renders a whole number: no leading zero. */
  function Numeral(n: nat): (s: string)
    ensures |s| >= 1 && AllDigits(s)
    ensures s[0] == '0' <==> n == 0
  {
    if n < 10 then [DigitChar(n)] else Numeral(n / 10) + [DigitChar(n % 10)]
  }

  /** The number a string of decimal digits denotes. */
  function NumeralValue(s: string): nat
    requires AllDigits(s)
  {
    if s == [] then 0 else 10 * NumeralValue(s[..|s| - 1]) + (s[|s| - 1] as int - '0' as int)
  }

  lemma {:induction false} NumeralRoundTrip(n: nat)
    ensures NumeralValue(Numeral(n)) == n
  {
    if n >= 10 {
      var s := Numeral(n);
      assert s[..|s| - 1] == Numeral(n / 10);
      NumeralRoundTrip(n / 10);
    }
  }

  /** The seconds part of a clock: the numeral, preceded by '0' when below ten. */
  function SecondsField(sec: nat): string {
    (if sec < 10 then "0" else "") + Numeral(sec)
  }

  lemma SecondsFieldShape(sec: nat)
    ensures AllDigits(SecondsField(sec))
    ensures SecondsField(sec)[0] == '0' <==> sec < 10
    ensures NumeralValue(SecondsField(sec)) == sec
    ensures sec < 60 ==> |SecondsField(sec)| == 2
  {
    var f := SecondsField(sec);
    if sec < 10 {
      assert f == ['0', DigitChar(sec)];
      assert f[..1] == ['0'];
      assert f[..1][..0] == [];
      assert NumeralValue(f[..1]) == 0;
    } else {
      assert f == Numeral(sec);
      NumeralRoundTrip(sec);
      if sec < 100 {
        assert |Numeral(sec / 10)| == 1;
      }
    }
  }

  /** `m:ss` for a whole number of seconds t. */
  function Clock(t: nat): string {
    Numeral(t / 60) + ":" + SecondsField(t % 60)
  }

  /** The label for a playhead and a duration, both in whole seconds; an unknown duration shows as 0:00. */
  function FormatTimeLabel(current: nat, duration: Option<nat>): string {
    Clock(current) + " / " + Clock(duration.GetOr(0))
  }

  /** The first position of c in s. */
  function IndexOf(s: string, c: char): (r: Option<nat>)
    ensures r.Some? ==> r.value < |s| && s[r.value] == c && c !in s[..r.value]
    ensures r.None? ==> c !in s
  {
    if s == [] then None
    else if s[0] == c then Some(0)
    else match IndexOf(s[1..], c)
      case None => None
      case Some(k) =>
        assert s[..k + 1] == [s[0]] + s[1..][..k];
        Some(k + 1)
  }

  lemma {:induction false} IndexOfFirst(a: string, c: char, b: string)
    requires c !in a
    ensures IndexOf(a + [c] + b, c) == Some(|a|)
  {
    if a != [] {
      assert (a + [c] + b)[1..] == a[1..] + [c] + b;
      IndexOfFirst(a[1..], c, b);
    }
  }

  /** Reads an `m:ss` clock back into its minutes and seconds. */
  function ParseClock(s: string): Option<(nat, nat)> {
    match IndexOf(s, ':')
    case None => None
    case Some(k) =>
      if AllDigits(s[..k]) && AllDigits(s[k + 1..])
      then Some((NumeralValue(s[..k]), NumeralValue(s[k + 1..])))
      else None
  }

  /** Reads a `m:ss / m:ss` label back into the two clocks. */
  function ParseTimeLabel(s: string): Option<((nat, nat), (nat, nat))> {
    match IndexOf(s, ' ')
    case None => None
    case Some(k) =>
      if k + 3 <= |s| && s[k..k + 3] == " / " then
        match (ParseClock(s[..k]), ParseClock(s[k + 3..]))
        case (Some(cur), Some(dur)) => Some((cur, dur))
        case _ => None
      else None
  }

  lemma ClockShape(t: nat)
    ensures ':' in Clock(t) && ' ' !in Clock(t)
    ensures ParseClock(Clock(t)) == Some((t / 60, t % 60))
  {
    var m := Numeral(t / 60);
    var f := SecondsField(t % 60);
    SecondsFieldShape(t % 60);
    NumeralRoundTrip(t / 60);
    var s := Clock(t);
    assert s == m + [':'] + f;
    assert forall i :: 0 <= i < |m| ==> m[i] != ':';
    IndexOfFirst(m, ':', f);
    assert s[..|m|] == m;
    assert s[|m| + 1..] == f;
    assert s[|m|] == ':';
    assert forall i :: 0 <= i < |s| ==> s[i] != ' ' by {
      forall i | 0 <= i < |s| ensures s[i] != ' ' {
        if i < |m| {
          assert s[i] == m[i];
        } else if i > |m| {
          assert s[i] == f[i - |m| - 1];
        }
      }
    }
  }

  lemma LabelSplit(a: string, b: string)
    requires ' ' !in a && ParseClock(a).Some? && ParseClock(b).Some?
    ensures ParseTimeLabel(a + " / " + b) == Some((ParseClock(a).value, ParseClock(b).value))
  {
    var s := a + " / " + b;
    assert s == a + [' '] + ("/ " + b);
    IndexOfFirst(a, ' ', "/ " + b);
    var k := |a|;
    assert s[..k] == a;
    assert s[k..k + 3] == " / ";
    assert s[k + 3..] == b;
  }

  /** The label reads back as the playhead's minutes and seconds and the duration's, an unknown duration as 0:00. */
  lemma TimeLabelRoundTrip(current: nat, duration: Option<nat>)
    ensures var d := duration.GetOr(0);
      ParseTimeLabel(FormatTimeLabel(current, duration)) == Some(((current / 60, current % 60), (d / 60, d % 60)))
  {
    var d := duration.GetOr(0);
    ClockShape(current);
    ClockShape(d);
    LabelSplit(Clock(current), Clock(d));
  }

  /**
   * For a non-negative playhead t, Math.floor(t / 60) and Math.floor(t % 60)
   * are the minutes and seconds of its whole seconds.
   */
  lemma WholeSecondsSplit(t: real)
    requires t >= 0.0
    ensures t.Floor >= 0
    ensures (t / 60.0).Floor == t.Floor / 60
    ensures (t - 60.0 * (t / 60.0).Floor as real).Floor == t.Floor % 60
  {
  }
}
