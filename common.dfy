/** Option values and the handful of Python string operations the pipeline
    relies on (`strip`, `in`, `join`, `rfind`, `find`, `replace`, `lower`,
    slicing and integer formatting), stated over `seq<char>`. */
module Common {

  datatype Option<T> = None | Some(value: T) {
    function GetOr(default: T): T {
      match this
      case Some(v) => v
      case None => default
    }
  }

  /** Python's `x or default` on an optional string: `None` and `""` are
      both falsy. */
  function OrElse(s: Option<string>, default: string): (r: string)
    ensures r == default || (s.Some? && r == s.value && r != "")
    ensures s.Some? && s.value != "" ==> r == s.value
  {
    if s.Some? && s.value != "" then s.value else default
  }

  /** Python's `f"{x}"` on an optional string: `None` prints as "None". */
  function Show(s: Option<string>): string {
    match s
    case Some(v) => v
    case None => "None"
  }

  // ---------------------------------------------------------------------
  // Character classes

  /** The characters for which Python's `str.isspace()` holds (which is also
      what `\s` matches in a `str` pattern). */
  predicate IsSpace(c: char) {
    c == ' ' || ('\t' <= c <= '\r') || ('\U{1C}' <= c <= '\U{1F}') ||
    c == '\U{85}' || c == '\U{A0}' || c == '\U{1680}' ||
    ('\U{2000}' <= c <= '\U{200A}') || c == '\U{2028}' || c == '\U{2029}' ||
    c == '\U{202F}' || c == '\U{205F}' || c == '\U{3000}'
  }

  predicate IsDigit(c: char) {
    '0' <= c <= '9'
  }

  predicate IsAsciiLetter(c: char) {
    ('a' <= c <= 'z') || ('A' <= c <= 'Z')
  }

  /** `str.isalnum()`, restricted to ASCII letters and digits and the CJK
      unified ideographs. */
  predicate IsAlnum(c: char) {
    IsDigit(c) || IsAsciiLetter(c) || IsCjk(c)
  }

  /** The range U+4E00..U+9FFF the tokenizer treats as Chinese. */
  predicate IsCjk(c: char) {
    '\U{4E00}' <= c <= '\U{9FFF}'
  }

  /** `str.lower()` on one character, for ASCII letters. */
  function Lower(c: char): (r: char)
    ensures !('A' <= c <= 'Z') ==> r == c
    ensures 'A' <= c <= 'Z' ==> 'a' <= r <= 'z'
  {
    if 'A' <= c <= 'Z' then (c as int + 32) as char else c
  }

  function LowerString(s: string): (r: string)
    ensures |r| == |s|
    ensures forall i :: 0 <= i < |s| ==> r[i] == Lower(s[i])
  {
    if s == [] then [] else [Lower(s[0])] + LowerString(s[1..])
  }

  /** `str.isdigit()` for ASCII digits: non-empty and all digits. */
  predicate IsDigits(s: string) {
    |s| > 0 && forall i :: 0 <= i < |s| ==> IsDigit(s[i])
  }

  // ---------------------------------------------------------------------
  // Whitespace stripping

  function TrimStart(s: string): (r: string)
    ensures |r| <= |s|
    ensures r == [] || !IsSpace(r[0])
    ensures forall i :: 0 <= i < |s| - |r| ==> IsSpace(s[i])
  {
    if |s| > 0 && IsSpace(s[0]) then TrimStart(s[1..]) else s
  }

  function TrimEnd(s: string): (r: string)
    ensures |r| <= |s|
    ensures r == [] || !IsSpace(r[|r| - 1])
    ensures forall i :: |r| <= i < |s| ==> IsSpace(s[i])
  {
    if |s| > 0 && IsSpace(s[|s| - 1]) then TrimEnd(s[..|s| - 1]) else s
  }

  /** What `TrimStart` leaves is a suffix of its input. */
  lemma {:induction false} TrimStartSuffix(s: string)
    ensures TrimStart(s) == s[|s| - |TrimStart(s)|..]
  {
    if |s| > 0 && IsSpace(s[0]) {
      TrimStartSuffix(s[1..]);
      assert s[1..][|s| - 1 - |TrimStart(s[1..])|..] == s[|s| - |TrimStart(s)|..];
    }
  }

  /** What `TrimEnd` leaves is a prefix of its input. */
  lemma {:induction false} TrimEndPrefix(s: string)
    ensures TrimEnd(s) == s[..|TrimEnd(s)|]
  {
    if |s| > 0 && IsSpace(s[|s| - 1]) {
      TrimEndPrefix(s[..|s| - 1]);
      assert s[..|s| - 1][..|TrimEnd(s[..|s| - 1])|] == s[..|TrimEnd(s)|];
    }
  }

  /** Python's `str.strip()`. */
  function Strip(s: string): string {
    TrimEnd(TrimStart(s))
  }

  predicate AllSpace(s: string) {
    forall i :: 0 <= i < |s| ==> IsSpace(s[i])
  }

  /** Where `s.strip()` starts inside `s`. */
  function StripStart(s: string): nat {
    |s| - |TrimStart(s)|
  }

  /** `s.strip()` is a contiguous piece of `s` with no whitespace at either
      end, and it is empty exactly when `s` is all whitespace. */
  lemma StripFacts(s: string)
    ensures StripStart(s) + |Strip(s)| <= |s|
    ensures Strip(s) == s[StripStart(s)..StripStart(s) + |Strip(s)|]
    ensures Strip(s) == [] <==> AllSpace(s)
    ensures Strip(s) != [] ==> !IsSpace(Strip(s)[0]) && !IsSpace(Strip(s)[|Strip(s)| - 1])
  {
    var t := TrimStart(s);
    var k := |s| - |t|;
    TrimStartSuffix(s);
    TrimEndPrefix(t);
    assert Strip(s) == s[k..k + |Strip(s)|];
  }

  // ---------------------------------------------------------------------
  // Searching

  /** Python's `needle in hay` for strings. */
  predicate Contains(hay: string, needle: string)
    decreases |hay|
  {
    needle <= hay || (|hay| > 0 && Contains(hay[1..], needle))
  }

  predicate OccursAt(s: string, pat: string, i: int) {
    0 <= i <= |s| - |pat| && s[i..i + |pat|] == pat
  }

  /** `Contains` means the needle occurs at some index. */
  lemma {:induction false} ContainsIff(hay: string, needle: string)
    ensures Contains(hay, needle) <==> exists i :: OccursAt(hay, needle, i)
    decreases |hay|
  {
    if needle <= hay {
      assert OccursAt(hay, needle, 0);
    } else if |hay| > 0 {
      ContainsIff(hay[1..], needle);
      if exists i :: OccursAt(hay, needle, i) {
        var i :| OccursAt(hay, needle, i);
        assert i != 0;
        OccursShiftDown(hay, needle, i);
      }
      if Contains(hay[1..], needle) {
        var i :| OccursAt(hay[1..], needle, i);
        OccursShiftUp(hay, needle, i);
      }
    }
  }

  lemma OccursShiftDown(hay: string, needle: string, i: int)
    requires OccursAt(hay, needle, i) && i >= 1
    ensures OccursAt(hay[1..], needle, i - 1)
  {
    assert hay[1..][i - 1..i - 1 + |needle|] == hay[i..i + |needle|];
  }

  lemma OccursShiftUp(hay: string, needle: string, i: int)
    requires |hay| > 0 && OccursAt(hay[1..], needle, i)
    ensures OccursAt(hay, needle, i + 1)
  {
    assert hay[i + 1..i + 1 + |needle|] == hay[1..][i..i + |needle|];
  }

  lemma ContainsAt(hay: string, needle: string, i: int)
    requires OccursAt(hay, needle, i)
    ensures Contains(hay, needle)
  {
    ContainsIff(hay, needle);
  }

  /** A needle found in a piece of a string is found in the string. */
  lemma ContainsInPiece(hay: string, lo: int, hi: int, needle: string)
    requires 0 <= lo <= hi <= |hay| && Contains(hay[lo..hi], needle)
    ensures Contains(hay, needle)
  {
    ContainsIff(hay[lo..hi], needle);
    var i :| OccursAt(hay[lo..hi], needle, i);
    var piece := hay[lo..hi];
    forall k | 0 <= k < |needle| ensures hay[lo + i..lo + i + |needle|][k] == needle[k] {
      assert piece[i..i + |needle|][k] == piece[i + k] == hay[lo + i + k];
    }
    ContainsAt(hay, needle, lo + i);
  }

  /** Containment is transitive. */
  lemma ContainsTrans(a: string, b: string, c: string)
    requires Contains(a, b) && Contains(b, c)
    ensures Contains(a, c)
  {
    ContainsIff(a, b);
    ContainsIff(b, c);
    var i :| OccursAt(a, b, i);
    var j :| OccursAt(b, c, j);
    forall k | 0 <= k < |c| ensures a[i + j..i + j + |c|][k] == c[k] {
      assert b[j..j + |c|][k] == b[j + k];
      assert a[i..i + |b|][j + k] == a[i + j + k];
    }
    assert a[i + j..i + j + |c|] == c;
    ContainsAt(a, c, i + j);
  }

  /** The last occurrence of `pat` starting at or below `i`, or -1. */
  function LastOccurrenceFrom(s: string, pat: string, i: int): (r: int)
    ensures r == -1 || 0 <= r <= i
    ensures r >= 0 ==> OccursAt(s, pat, r)
    ensures forall j :: r < j <= i ==> !OccursAt(s, pat, j)
    decreases i + 1
  {
    if i < 0 then -1
    else if OccursAt(s, pat, i) then i
    else LastOccurrenceFrom(s, pat, i - 1)
  }

  /** Python's `s.rfind(pat)`: the largest index where `pat` starts, or -1. */
  function RFind(s: string, pat: string): (r: int)
    ensures r == -1 || 0 <= r <= |s| - |pat|
    ensures r >= 0 ==> OccursAt(s, pat, r)
    ensures forall j :: r < j <= |s| - |pat| ==> !OccursAt(s, pat, j)
  {
    LastOccurrenceFrom(s, pat, |s| - |pat|)
  }

  /** `rfind` finds an occurrence at `i` or a later one. */
  lemma RFindAtLeast(s: string, pat: string, i: int)
    requires OccursAt(s, pat, i)
    ensures RFind(s, pat) >= i
  {
  }

  /** Python's `s.find(c)` for a single character. */
  function FindChar(s: string, c: char): (r: int)
    ensures -1 <= r < |s|
    ensures r >= 0 ==> s[r] == c && forall j :: 0 <= j < r ==> s[j] != c
    ensures r == -1 ==> forall j :: 0 <= j < |s| ==> s[j] != c
  {
    if s == [] then -1
    else if s[0] == c then 0
    else var k := FindChar(s[1..], c); if k == -1 then -1 else k + 1
  }

  /** Python's `s.rfind(c)` for a single character. */
  function RFindChar(s: string, c: char): (r: int)
    ensures -1 <= r < |s|
    ensures r >= 0 ==> s[r] == c && forall j :: r < j < |s| ==> s[j] != c
    ensures r == -1 ==> forall j :: 0 <= j < |s| ==> s[j] != c
  {
    if s == [] then -1
    else if s[|s| - 1] == c then |s| - 1
    else RFindChar(s[..|s| - 1], c)
  }

  /** Python's `s.replace(pat, "")`: leftmost, non-overlapping removal. */
  function RemoveAll(s: string, pat: string): (r: string)
    ensures |r| <= |s|
    decreases |s|
  {
    if pat == [] then s
    else if |s| == 0 then []
    else if pat <= s then RemoveAll(s[|pat|..], pat)
    else [s[0]] + RemoveAll(s[1..], pat)
  }

  lemma RemoveAllAbsent(s: string, pat: string)
    requires !Contains(s, pat)
    ensures RemoveAll(s, pat) == s
  {
  }

  // ---------------------------------------------------------------------
  // Joining and slicing

  /** Python's `sep.join(parts)`. */
  function Join(sep: string, parts: seq<string>): (r: string)
    ensures parts == [] ==> r == ""
    ensures |parts| == 1 ==> r == parts[0]
  {
    if |parts| == 0 then ""
    else if |parts| == 1 then parts[0]
    else parts[0] + sep + Join(sep, parts[1..])
  }

  /** The concatenation of the pieces, in order. */
  function Flatten<T>(xs: seq<seq<T>>): seq<T> {
    if xs == [] then [] else xs[0] + Flatten(xs[1..])
  }

  /** The first element of a non-empty piece is in the concatenation. */
  lemma {:induction false} FlattenHas<T>(xs: seq<seq<T>>, k: nat)
    requires k < |xs| && xs[k] != []
    ensures xs[k][0] in Flatten(xs)
  {
    if k > 0 {
      FlattenHas(xs[1..], k - 1);
      assert xs[1..][k - 1] == xs[k];
      assert Flatten(xs) == xs[0] + Flatten(xs[1..]);
    }
  }

  /** A part of a join occurs in the joined string. */
  lemma {:induction false} JoinContains(sep: string, parts: seq<string>, k: nat)
    requires k < |parts|
    ensures Contains(Join(sep, parts), parts[k])
    decreases |parts|
  {
    var r := Join(sep, parts);
    if |parts| == 1 {
      assert OccursAt(r, parts[k], 0);
      ContainsAt(r, parts[k], 0);
    } else if k == 0 {
      assert r[0..|parts[0]|] == parts[0];
      assert OccursAt(r, parts[0], 0);
      ContainsAt(r, parts[0], 0);
    } else {
      JoinContains(sep, parts[1..], k - 1);
      var lo := |parts[0] + sep|;
      assert r == parts[0] + sep + Join(sep, parts[1..]);
      assert r[lo..|r|] == Join(sep, parts[1..]);
      assert parts[1..][k - 1] == parts[k];
      ContainsInPiece(r, lo, |r|, parts[k]);
    }
  }

  /** Where Python puts a slice bound `i` in a sequence of length `n`. */
  function SliceIndex(i: int, n: nat): (r: nat)
    ensures r <= n
    ensures 0 <= i <= n ==> r == i
  {
    if i < 0 then (if i + n < 0 then 0 else i + n) else if i > n then n else i
  }

  /** Python's `s[a:b]` for any integers `a` and `b`. */
  function Slice<T>(s: seq<T>, a: int, b: int): (r: seq<T>)
    ensures 0 <= a <= b <= |s| ==> r == s[a..b]
  {
    var lo, hi := SliceIndex(a, |s|), SliceIndex(b, |s|);
    if lo < hi then s[lo..hi] else []
  }

  /** Python's `s.split(c)` for a single separator character. */
  function SplitOn(s: string, c: char): (r: seq<string>)
    ensures |r| >= 1
    decreases |s|
  {
    var i := FindChar(s, c);
    if i < 0 then [s] else [s[..i]] + SplitOn(s[i + 1..], c)
  }

  /** `c` does not occur in `p`. */
  predicate Free(p: string, c: char) {
    forall j :: 0 <= j < |p| ==> p[j] != c
  }

  /** Piece `k` does not contain the separator. */
  lemma {:induction false} SplitOnPiece(s: string, c: char, k: nat)
    requires k < |SplitOn(s, c)|
    ensures Free(SplitOn(s, c)[k], c)
    decreases |s|
  {
    var i := FindChar(s, c);
    if i >= 0 {
      SplitOnStep(s, c);
      if k == 0 {
        var h := s[..i];
        assert Free(h, c) by {
          forall j | 0 <= j < |h| ensures h[j] != c {
            assert h[j] == s[j];
          }
        }
        assert SplitOn(s, c)[0] == h;
      } else {
        var rest := SplitOn(s[i + 1..], c);
        SplitOnPiece(s[i + 1..], c, k - 1);
        assert SplitOn(s, c)[k] == rest[k - 1];
      }
    } else {
      assert SplitOn(s, c) == [s];
    }
  }

  /** No piece contains the separator. */
  lemma SplitOnPieces(s: string, c: char)
    ensures forall k, j :: 0 <= k < |SplitOn(s, c)| && 0 <= j < |SplitOn(s, c)[k]| ==> SplitOn(s, c)[k][j] != c
  {
    forall k | 0 <= k < |SplitOn(s, c)| ensures Free(SplitOn(s, c)[k], c) {
      SplitOnPiece(s, c, k);
    }
  }

  lemma JoinCons(sep: string, x: string, rest: seq<string>)
    requires |rest| >= 1
    ensures Join(sep, [x] + rest) == x + sep + Join(sep, rest)
  {
    assert ([x] + rest)[1..] == rest;
  }

  lemma Around<T>(s: seq<T>, i: nat)
    requires i < |s|
    ensures s == s[..i] + [s[i]] + s[i + 1..]
  {
    assert s[..i] + s[i..] == s;
    assert s[i..] == [s[i]] + s[i + 1..];
  }

  /** The head of the pieces is the text before the first separator. */
  lemma SplitOnStep(s: string, c: char)
    requires FindChar(s, c) >= 0
    ensures var i := FindChar(s, c);
      SplitOn(s, c) == [s[..i]] + SplitOn(s[i + 1..], c) && s == s[..i] + [c] + s[i + 1..]
  {
    Around(s, FindChar(s, c));
  }

  /** Joining the pieces with the separator gives the string back. */
  lemma {:induction false} SplitOnJoin(s: string, c: char)
    ensures Join([c], SplitOn(s, c)) == s
    decreases |s|
  {
    var i := FindChar(s, c);
    if i >= 0 {
      var tail := s[i + 1..];
      SplitOnStep(s, c);
      SplitOnJoin(tail, c);
      JoinCons([c], s[..i], SplitOn(tail, c));
    }
  }

  /** Python's `s[:k]` for any integer `k` (a negative `k` counts from the end). */
  function TakePy<T>(s: seq<T>, k: int): (r: seq<T>)
    ensures k >= 0 ==> |r| == if k < |s| then k else |s|
    ensures r <= s
    ensures forall x :: x in r ==> x in s
  {
    if k >= 0 then (if k < |s| then s[..k] else s)
    else if |s| + k > 0 then s[..|s| + k] else []
  }

  /** Python's `s[-n:]` for a positive constant `n`. */
  function LastN<T>(s: seq<T>, n: nat): (r: seq<T>)
    requires n > 0
    ensures |r| == if n < |s| then n else |s|
    ensures r == s[|s| - |r|..]
  {
    if n < |s| then s[|s| - n..] else s
  }

  // ---------------------------------------------------------------------
  // Integer formatting

  function DigitChar(d: nat): (c: char)
    requires d < 10
    ensures IsDigit(c)
  {
    ('0' as int + d) as char
  }

  /** Python's `str(n)` for a natural number. */
  function NatToString(n: nat): (r: string)
    ensures IsDigits(r)
    ensures |r| == 1 <==> n < 10
  {
    if n < 10 then [DigitChar(n)] else NatToString(n / 10) + [DigitChar(n % 10)]
  }

  lemma {:induction false} NatToStringInjective(a: nat, b: nat)
    requires NatToString(a) == NatToString(b)
    ensures a == b
  {
    if a >= 10 && b >= 10 {
      var ra, rb := NatToString(a), NatToString(b);
      assert ra[|ra| - 1] == DigitChar(a % 10) && rb[|rb| - 1] == DigitChar(b % 10);
      assert ra[..|ra| - 1] == NatToString(a / 10);
      assert rb[..|rb| - 1] == NatToString(b / 10);
      NatToStringInjective(a / 10, b / 10);
    }
  }

  /** Python's `str(i)` for any integer. */
  function IntToString(i: int): (r: string)
    ensures |r| > 0
    ensures i >= 0 ==> r == NatToString(i)
    ensures i < 0 ==> r[0] == '-' && r[1..] == NatToString(-i)
  {
    if i < 0 then "-" + NatToString(-i) else NatToString(i)
  }
}
