/** Chapter ordinals: the reader turns the ordinal captured from a heading
    ("十五", "三", "12") into a chapter number. `AsWrittenValue` is the
    conversion as the reader performs it, which adds every numeral below 100
    into one running sum; `NumeralValue` is the corrected conversion, in which
    十, 百, 千 and 万 multiply the digit written before them. */
module ChineseNumerals {
  import opened Common

  /** The numeral table of the reader (it contains 两, which the heading
      patterns do not accept). */
  function Numeral(c: char): (r: Option<nat>)
    ensures r.Some? ==> r.value in {0, 1, 2, 3, 4, 5, 6, 7, 8, 9, 10, 100, 1000, 10000}
  {
    if c == '零' then Some(0)
    else if c == '一' then Some(1)
    else if c == '二' || c == '两' then Some(2)
    else if c == '三' then Some(3)
    else if c == '四' then Some(4)
    else if c == '五' then Some(5)
    else if c == '六' then Some(6)
    else if c == '七' then Some(7)
    else if c == '八' then Some(8)
    else if c == '九' then Some(9)
    else if c == '十' then Some(10)
    else if c == '百' then Some(100)
    else if c == '千' then Some(1000)
    else if c == '万' then Some(10000)
    else None
  }

  /** The numeral character of a digit 0..9. */
  function DigitNumeral(d: nat): (c: char)
    requires d < 10
    ensures Numeral(c) == Some(d)
  {
    "零一二三四五六七八九"[d]
  }

  /** The numeral character of a unit 10, 100, 1000. */
  function UnitNumeral(u: nat): (c: char)
    requires u == 10 || u == 100 || u == 1000
    ensures Numeral(c) == Some(u)
  {
    if u == 10 then '十' else if u == 100 then '百' else '千'
  }

  /** `int(s)` for a string of ASCII digits. */
  function DecimalValue(s: string): (n: nat)
    requires IsDigits(s) || s == []
    decreases |s|
  {
    if s == [] then 0
    else DecimalValue(s[..|s| - 1]) * 10 + (s[|s| - 1] as int - '0' as int)
  }

  /** `int(str(n)) == n`. */
  lemma {:induction false} DecimalOfNatToString(n: nat)
    ensures DecimalValue(NatToString(n)) == n
  {
    var r := NatToString(n);
    if n >= 10 {
      assert r[..|r| - 1] == NatToString(n / 10);
      DecimalOfNatToString(n / 10);
    }
  }

  // ---------------------------------------------------------------------
  // The conversion as the reader performs it

  /** The right-to-left scan: a numeral of 100 or more replaces `section`
      when larger and multiplies it otherwise; every other numeral, 十
      included, is added to `temp`. The scan stops at the first character
      that is not in the table. */
  function AsWrittenScan(s: string, section: int, temp: int): int
    decreases |s|
  {
    if s == [] || Numeral(s[|s| - 1]).None? then section + temp
    else
      var num := Numeral(s[|s| - 1]).value;
      if num >= 100 then
        AsWrittenScan(s[..|s| - 1], if num > section then num else section * num, temp)
      else AsWrittenScan(s[..|s| - 1], section, temp + num)
  }

  function AsWrittenValue(s: string): int {
    if s == [] then 0
    else if IsDigits(s) then DecimalValue(s)
    else var r := AsWrittenScan(s, 0, 0); if r > 0 then r else 1
  }

  /** `_chinese_to_int` as written. */
  method ChineseToIntAsWritten(s: string) returns (n: int)
    ensures n == AsWrittenValue(s)
  {
    if s == [] {
      return 0;
    }
    if IsDigits(s) {
      return DecimalValue(s);
    }
    var section, temp := 0, 0;
    var i := |s|;
    assert s[..i] == s;
    while i > 0
      invariant 0 <= i <= |s|
      invariant AsWrittenScan(s[..i], section, temp) == AsWrittenScan(s, 0, 0)
    {
      var c := s[i - 1];
      assert s[..i][..i - 1] == s[..i - 1];
      var v := Numeral(c);
      if v.None? {
        break;
      }
      var num := v.value;
      if num >= 100 {
        if num > section {
          section := num;
        } else {
          section := section * num;
        }
      } else {
        temp := temp + num;
      }
      i := i - 1;
    }
    var result := section + temp;
    n := if result > 0 then result else 1;
  }

  // ---------------------------------------------------------------------
  // The corrected conversion

  /** The state of the corrected right-to-left scan: the value read so far,
      the multiplier of the next digit to the left, the 万 multiplier in
      force, and whether a unit is still waiting for its digit. */
  datatype ScanState = ScanState(total: nat, unit: nat, section: nat, pending: bool)

  const Start := ScanState(0, 1, 1, false)

  function Step(st: ScanState, v: nat): ScanState {
    if v == 10000 then ScanState(st.total, 10000, 10000, true)
    else if v >= 10 then ScanState(st.total, v * st.section, st.section, true)
    else ScanState(st.total + v * st.unit, st.unit, st.section, false)
  }

  /** Scan `s` from its last character, stopping at the first character that
      is not in the table. */
  function Scan(s: string, st: ScanState): ScanState
    decreases |s|
  {
    if s == [] || Numeral(s[|s| - 1]).None? then st
    else Scan(s[..|s| - 1], Step(st, Numeral(s[|s| - 1]).value))
  }

  /** A unit with no digit before it ("十五", "百") counts once. */
  function Finish(st: ScanState): nat {
    st.total + if st.pending then st.unit else 0
  }

  function NumeralValue(s: string): int {
    if s == [] then 0
    else if IsDigits(s) then DecimalValue(s)
    else var r := Finish(Scan(s, Start)); if r > 0 then r else 1
  }

  /** `_chinese_to_int` with units multiplying the digit before them. */
  method ChineseToInt(s: string) returns (n: int)
    ensures n == NumeralValue(s)
  {
    if s == [] {
      return 0;
    }
    if IsDigits(s) {
      return DecimalValue(s);
    }
    var st := Start;
    var i := |s|;
    assert s[..i] == s;
    while i > 0
      invariant 0 <= i <= |s|
      invariant Scan(s[..i], st) == Scan(s, Start)
    {
      var c := s[i - 1];
      assert s[..i][..i - 1] == s[..i - 1];
      var v := Numeral(c);
      if v.None? {
        break;
      }
      var num := v.value;
      if num == 10000 {
        st := ScanState(st.total, 10000, 10000, true);
      } else if num >= 10 {
        st := ScanState(st.total, num * st.section, st.section, true);
      } else {
        st := ScanState(st.total + num * st.unit, st.unit, st.section, false);
      }
      i := i - 1;
    }
    var result := Finish(st);
    n := if result > 0 then result else 1;
  }

  predicate AllNumerals(s: string) {
    forall i :: 0 <= i < |s| ==> Numeral(s[i]).Some?
  }

  lemma {:induction false} ScanConcat(a: string, b: string, st: ScanState)
    requires AllNumerals(b)
    ensures Scan(a + b, st) == Scan(a, Scan(b, st))
    decreases |b|
  {
    if b == [] {
      assert a + b == a;
    } else {
      var ab := a + b;
      assert ab[|ab| - 1] == b[|b| - 1];
      assert ab[..|ab| - 1] == a + b[..|b| - 1];
      ScanConcat(a, b[..|b| - 1], Step(st, Numeral(b[|b| - 1]).value));
    }
  }

  /** The highest place of a number of two to four digits. */
  function Place(n: nat): (p: nat)
    ensures p == 10 || p == 100 || p == 1000
  {
    if n >= 1000 then 1000 else if n >= 100 then 100 else 10
  }

  /** The standard spelling of `n` (1..9999): digit-unit pairs from the
      highest place, 零 for a skipped place, and a bare 十 for 10..19 when
      it leads. */
  function Spell(n: nat, lead: bool): (s: string)
    requires 0 < n < 10000
    ensures |s| > 0 && AllNumerals(s)
    ensures Numeral(s[0]).Some? && (!lead ==> Numeral(s[0]).value < 10)
    decreases n
  {
    if n < 10 then [DigitNumeral(n)]
    else
      var p := Place(n);
      var q, r := n / p, n % p;
      var head := if p == 10 && q == 1 && lead then [UnitNumeral(10)] else [DigitNumeral(q), UnitNumeral(p)];
      var tail := if r == 0 then [] else if r < p / 10 then ['零'] + Spell(r, false) else Spell(r, false);
      assert AllNumerals(tail);
      head + tail
  }

  /** The standard spelling of `n` written on its own, so it leads. */
  function Chinese(n: nat): string
    requires 0 < n < 10000
  {
    Spell(n, true)
  }

  /** A digit-unit pair read after a tail with no 万 adds digit times unit. */
  lemma PairScan(q: nat, p: nat, t: ScanState)
    requires 0 < q < 10 && (p == 10 || p == 100 || p == 1000) && t.section == 1
    ensures Scan([DigitNumeral(q), UnitNumeral(p)], t) == ScanState(t.total + q * p, p, 1, false)
  {
    var pair := [DigitNumeral(q), UnitNumeral(p)];
    assert pair[..1] == [DigitNumeral(q)] && pair[..1][..0] == [];
    var u := Step(t, p);
    assert u == ScanState(t.total, p, 1, true);
    assert Scan(pair, t) == Scan([DigitNumeral(q)], u);
    assert Scan([DigitNumeral(q)], u) == Scan([], Step(u, q));
  }

  /** The part of a spelling after its leading pair. */
  function Tail(n: nat): (s: string)
    requires 10 <= n < 10000
    ensures AllNumerals(s)
  {
    var p := Place(n);
    var r := n % p;
    if r == 0 then [] else if r < p / 10 then ['零'] + Spell(r, false) else Spell(r, false)
  }

  /** A spelling of two to four digits starting with a digit is its
      leading digit-unit pair followed by its tail. */
  lemma SpellSplit(n: nat)
    requires 10 <= n < 10000
    ensures 0 < n / Place(n) < 10
    ensures Spell(n, false) == [DigitNumeral(n / Place(n)), UnitNumeral(Place(n))] + Tail(n)
  {
  }

  lemma PlaceDivMod(n: nat)
    requires 10 <= n < 10000
    ensures (n / Place(n)) * Place(n) + n % Place(n) == n
  {
    var p := Place(n);
    if p == 10 {
      assert (n / 10) * 10 + n % 10 == n;
    } else if p == 100 {
      assert (n / 100) * 100 + n % 100 == n;
    } else {
      assert (n / 1000) * 1000 + n % 1000 == n;
    }
  }

  /** After the scan of a spelling that starts with a digit, the value read
      is the number, no unit is waiting, and no 万 is in force. */
  lemma {:induction false} SpellScan(n: nat)
    requires 0 < n < 10000
    ensures var st := Scan(Spell(n, false), Start); st.total == n && !st.pending && st.section == 1
    decreases n
  {
    if n < 10 {
      assert Spell(n, false)[..0] == [];
    } else {
      var p := Place(n);
      var q := n / p;
      var pair, tail := [DigitNumeral(q), UnitNumeral(p)], Tail(n);
      SpellSplit(n);
      TailScan(n);
      var t := Scan(tail, Start);
      assert Scan(pair + tail, Start) == Scan(pair, t) by {
        ScanConcat(pair, tail, Start);
      }
      PairScan(q, p, t);
      PlaceDivMod(n);
    }
  }

  lemma {:induction false} TailScan(n: nat)
    requires 10 <= n < 10000
    ensures var t := Scan(Tail(n), Start); t.total == n % Place(n) && !t.pending && t.section == 1
    decreases n, 0
  {
    var p := Place(n);
    var r := n % p;
    if r != 0 {
      SpellScan(r);
      if r < p / 10 {
        ZeroScan(r);
      }
    }
  }

  /** A 零 before a spelling reads as nothing. */
  lemma ZeroScan(r: nat)
    requires 0 < r < 10000
    requires var u := Scan(Spell(r, false), Start); u.total == r && !u.pending && u.section == 1
    ensures var t := Scan(['零'] + Spell(r, false), Start); t.total == r && !t.pending && t.section == 1
  {
    ScanConcat(['零'], Spell(r, false), Start);
    var u := Scan(Spell(r, false), Start);
    assert ['零'][..0] == [];
    assert Scan(['零'], u) == Scan([], Step(u, 0));
  }

  /** The corrected conversion reads every standard spelling of 1..9999 back
      as its number. */
  lemma NumeralValueOfChinese(n: nat)
    requires 0 < n < 10000
    ensures NumeralValue(Chinese(n)) == n
  {
    var s := Chinese(n);
    assert !IsDigits(s) by {
      assert Numeral(s[0]).Some?;
    }
    if 10 <= n < 20 {
      var tail := if n == 10 then [] else Spell(n - 10, false);
      assert s == ['十'] + tail;
      ScanConcat(['十'], tail, Start);
      if n > 10 {
        SpellScan(n - 10);
      }
    } else {
      assert s == Spell(n, false);
      SpellScan(n);
    }
  }

  /** `int(s)` for digit strings, in both conversions. */
  lemma DigitsRoundTrip(n: nat)
    ensures AsWrittenValue(NatToString(n)) == n
    ensures NumeralValue(NatToString(n)) == n
  {
    DecimalOfNatToString(n);
  }

  /** Every non-empty input that is not all digits converts to at least 1. */
  lemma AtLeastOne(s: string)
    requires s != [] && !IsDigits(s)
    ensures AsWrittenValue(s) >= 1 && NumeralValue(s) >= 1
  {
  }

  /** The as-written sum reads 一..十九 correctly. */
  lemma {:induction false} AsWrittenBelowTwenty(n: nat)
    requires 0 < n < 20
    ensures AsWrittenValue(Chinese(n)) == n
  {
    var s := Chinese(n);
    assert Numeral(s[0]).Some?;
    if n < 10 {
      assert s == [DigitNumeral(n)];
      assert s[..0] == [];
    } else if n == 10 {
      assert s == ['十'];
      assert s[..0] == [];
    } else {
      var d := DigitNumeral(n - 10);
      assert Spell(n - 10, false) == [d];
      assert s == ['十', d];
      assert s[..1] == ['十'] && s[..1][..0] == [];
      assert AsWrittenScan(s, 0, 0) == AsWrittenScan(['十'], 0, n - 10);
      assert AsWrittenScan(['十'], 0, n - 10) == AsWrittenScan([], 0, n);
    }
  }

  lemma SpellTwenty()
    ensures Chinese(20) == "二十"
  {
    assert Place(20) == 10 && 20 / 10 == 2 && 20 % 10 == 0;
  }

  lemma AsWrittenTwentyValue()
    ensures AsWrittenValue("二十") == 12
  {
    var s := "二十";
    assert !IsDigits(s) by { assert !IsDigit(s[0]); }
    assert s[..1] == "二" && s[..1][..0] == [];
    assert Numeral(s[1]) == Some(10) && Numeral(s[0]) == Some(2);
    assert AsWrittenScan(s, 0, 0) == AsWrittenScan("二", 0, 10) == AsWrittenScan("", 0, 12);
  }

  /** ... and reads 二十 as 12: every numeral below 100, 十 included, is
      added instead of multiplied. */
  lemma AsWrittenTwenty()
    ensures Chinese(20) == "二十"
    ensures AsWrittenValue("二十") == 12
    ensures NumeralValue("二十") == 20
  {
    SpellTwenty();
    AsWrittenTwentyValue();
    NumeralValueOfChinese(20);
  }
}
