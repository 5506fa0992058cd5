/**
 * The `%Y%m%d_%H%M%S` stamp that names backups and deferred tasks, and the
 * fact that makes sorting by name the same as sorting by time: every field
 * has a fixed width, so comparing two stamps as strings compares their
 * fields in order, most significant first.
 */
module Timestamp {
  import opened Text

  /** A reading of the wall clock, as `datetime.now()` gives it. */
  datatype Stamp = Stamp(year: nat, month: nat, day: nat, hour: nat, minute: nat, second: nat)

  /** The ranges `datetime` keeps its fields in. */
  predicate Valid(t: Stamp) {
    1 <= t.year <= 9999 && 1 <= t.month <= 12 && 1 <= t.day <= 31
    && t.hour < 24 && t.minute < 60 && t.second < 60
  }

  /** Chronological order of two clock readings. */
  predicate Before(a: Stamp, b: Stamp) {
    || a.year < b.year
    || (a.year == b.year && a.month < b.month)
    || (a.year == b.year && a.month == b.month && a.day < b.day)
    || (a.year == b.year && a.month == b.month && a.day == b.day && a.hour < b.hour)
    || (a.year == b.year && a.month == b.month && a.day == b.day && a.hour == b.hour && a.minute < b.minute)
    || (a.year == b.year && a.month == b.month && a.day == b.day && a.hour == b.hour && a.minute == b.minute
        && a.second < b.second)
  }

  function Pow10(w: nat): (p: nat)
    ensures p >= 1
  {
    if w == 0 then 1 else 10 * Pow10(w - 1)
  }

  /** The last `w` decimal digits of `n`, zero-filled on the left (`%02d`, `%04d`). */
  function Pad(n: nat, w: nat): (s: string)
    ensures |s| == w
    ensures forall i :: 0 <= i < |s| ==> IsDigit(s[i])
  {
    if w == 0 then "" else Pad(n / 10, w - 1) + [DigitChar(n % 10)]
  }

  /** `strftime("%Y%m%d_%H%M%S")`. */
  function Format(t: Stamp): (s: string)
    ensures |s| == 15 && s[8] == '_'
  {
    Pad(t.year, 4) + (Pad(t.month, 2) + (Pad(t.day, 2) + ("_" + (Pad(t.hour, 2) + (Pad(t.minute, 2) + Pad(t.second, 2))))))
  }

  lemma ConcatEq(a: string, c: string, b: string, d: string)
    requires |a| == |b|
    ensures a + c == b + d <==> a == b && c == d
  {
    if a + c == b + d {
      assert a == (a + c)[..|a|] && b == (b + d)[..|b|];
      assert c == (a + c)[|a|..] && d == (b + d)[|b|..];
    }
  }

  lemma DigitCharOrder(x: nat, y: nat)
    requires x < 10 && y < 10
    ensures LexLess([DigitChar(x)], [DigitChar(y)]) <==> x < y
    ensures [DigitChar(x)] == [DigitChar(y)] <==> x == y
  {
    assert [DigitChar(x)][1..] == [] && [DigitChar(y)][1..] == [];
    if [DigitChar(x)] == [DigitChar(y)] {
      assert [DigitChar(x)][0] == [DigitChar(y)][0];
    }
  }

  /** Two numbers below `10^w`, written in `w` digits, compare as strings the
      way they compare as numbers. */
  lemma {:induction false} PadOrder(n: nat, m: nat, w: nat)
    requires n < Pow10(w) && m < Pow10(w)
    ensures Pad(n, w) == Pad(m, w) <==> n == m
    ensures LexLess(Pad(n, w), Pad(m, w)) <==> n < m
  {
    if w == 0 {
      LexIrreflexive("");
    } else {
      PadOrder(n / 10, m / 10, w - 1);
      var dn, dm := [DigitChar(n % 10)], [DigitChar(m % 10)];
      DigitCharOrder(n % 10, m % 10);
      LexConcat(Pad(n / 10, w - 1), dn, Pad(m / 10, w - 1), dm);
      ConcatEq(Pad(n / 10, w - 1), dn, Pad(m / 10, w - 1), dm);
    }
  }

  /** `LexLess` and equality of `a + c` against `b + d`, fields of width |a| == |b|. */
  lemma Field(a: string, c: string, b: string, d: string)
    requires |a| == |b|
    ensures a + c == b + d <==> a == b && c == d
    ensures LexLess(a + c, b + d) <==> LexLess(a, b) || (a == b && LexLess(c, d))
  {
    ConcatEq(a, c, b, d);
    LexConcat(a, c, b, d);
  }

  /** Stamps of valid clock readings sort by name exactly as the readings
      sort by time, and two readings give the same stamp only when equal. */
  lemma FormatOrder(a: Stamp, b: Stamp)
    requires Valid(a) && Valid(b)
    ensures Format(a) == Format(b) <==> a == b
    ensures LexLess(Format(a), Format(b)) <==> Before(a, b)
  {
    assert Pow10(2) == 100 && Pow10(4) == 10000;
    PadOrder(a.year, b.year, 4);
    PadOrder(a.month, b.month, 2);
    PadOrder(a.day, b.day, 2);
    PadOrder(a.hour, b.hour, 2);
    PadOrder(a.minute, b.minute, 2);
    PadOrder(a.second, b.second, 2);
    var sa, sb := Pad(a.second, 2), Pad(b.second, 2);
    var mia, mib := Pad(a.minute, 2) + sa, Pad(b.minute, 2) + sb;
    Field(Pad(a.minute, 2), sa, Pad(b.minute, 2), sb);
    var ha, hb := Pad(a.hour, 2) + mia, Pad(b.hour, 2) + mib;
    Field(Pad(a.hour, 2), mia, Pad(b.hour, 2), mib);
    var ua, ub := "_" + ha, "_" + hb;
    Field("_", ha, "_", hb);
    var da, db := Pad(a.day, 2) + ua, Pad(b.day, 2) + ub;
    Field(Pad(a.day, 2), ua, Pad(b.day, 2), ub);
    var moa, mob := Pad(a.month, 2) + da, Pad(b.month, 2) + db;
    Field(Pad(a.month, 2), da, Pad(b.month, 2), db);
    Field(Pad(a.year, 4), moa, Pad(b.year, 4), mob);
    LexIrreflexive("_");
  }

  /** A common prefix such as `world_backup_` keeps that order. */
  lemma NamedOrder(prefix: string, a: Stamp, b: Stamp)
    requires Valid(a) && Valid(b)
    ensures prefix + Format(a) == prefix + Format(b) <==> a == b
    ensures LexLess(prefix + Format(a), prefix + Format(b)) <==> Before(a, b)
  {
    FormatOrder(a, b);
    Field(prefix, Format(a), prefix, Format(b));
    LexIrreflexive(prefix);
  }
}
