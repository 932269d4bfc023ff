/** The three chapter-heading patterns of the reader, matched by hand.

    Pattern 1: 第 ws* ORD+ ws* 章 ' '   or   "chapter" ws+ digit+
    Pattern 2: 第 ws* ORD+ ws* ' ' 回 ' ' or   "episode" ws+ digit+
    Pattern 3: 卷 ws* ORD+ ws*             or   "book" ws+ digit+

    where ORD is one of 零一二三四五六七八九十百千万 or an ASCII digit, ws is a
    whitespace character, and the English words match without regard to
    case. The whitespace, ordinal and digit classes are disjoint from each
    other and from the literal characters around them, so each greedy run
    is the only run that can lead to a match: a pattern matches at a
    position exactly when the maximal runs line up, and the capture is the
    maximal ordinal (or digit) run. In pattern 2 the maximal whitespace run
    after the ordinal has to end with the space before 回. The third English
    alternative of pattern 1 ("CHAPTER") can only match where "chapter"
    already matches when case is ignored, so it adds nothing. */
module ChapterPatterns {
  import opened Common

  predicate IsOrdinal(c: char) {
    c == '零' || c == '一' || c == '二' || c == '三' || c == '四' || c == '五' || c == '六' ||
    c == '七' || c == '八' || c == '九' || c == '十' || c == '百' || c == '千' || c == '万' ||
    IsDigit(c)
  }

  /** The length of the longest run of characters satisfying `p` at `i`. */
  function Run(s: string, i: nat, p: char -> bool): (n: nat)
    requires i <= |s|
    ensures i + n <= |s|
    ensures forall j :: i <= j < i + n ==> p(s[j])
    ensures i + n == |s| || !p(s[i + n])
    decreases |s| - i
  {
    if i < |s| && p(s[i]) then 1 + Run(s, i + 1, p) else 0
  }

  /** `kw` (lower case) occurs at `i` when case is ignored. */
  predicate KeywordAt(s: string, i: nat, kw: string) {
    i + |kw| <= |s| && LowerString(s[i..i + |kw|]) == kw
  }

  datatype Pattern = ChapterPattern | EpisodePattern | VolumePattern

  /** A match: where it starts and ends, and its non-empty capture. */
  datatype Hit = Hit(start: nat, end: nat, group: string)

  /** `第 ws* ORD+ ws*` (or `卷 ...`) at `i`: the end of the trailing
      whitespace run, the capture, and the length of the trailing run. */
  function OrdinalHead(s: string, i: nat): (r: (nat, string, nat))
    requires i < |s|
    ensures i + 1 <= r.0 <= |s| && |r.1| <= r.0 - i - 1 && r.2 <= r.0 - i - 1 - |r.1|
  {
    var a := i + 1 + Run(s, i + 1, IsSpace);
    var g := Run(s, a, IsOrdinal);
    var w := Run(s, a + g, IsSpace);
    (a + g + w, s[a..a + g], w)
  }

  /** `kw ws+ digit+` at `i`. */
  function EnglishAt(s: string, i: nat, kw: string): (r: Option<Hit>)
    requires i < |s|
    ensures r.Some? ==> r.value.start == i && i < r.value.end <= |s| && r.value.group != []
  {
    if KeywordAt(s, i, kw) then
      var w := Run(s, i + |kw|, IsSpace);
      var d := Run(s, i + |kw| + w, IsDigit);
      if w > 0 && d > 0 then Some(Hit(i, i + |kw| + w + d, s[i + |kw| + w..i + |kw| + w + d]))
      else None
    else None
  }

  /** `pattern.match(s, i)`: the match of the pattern that starts at `i`. */
  function MatchAt(p: Pattern, s: string, i: nat): (r: Option<Hit>)
    requires i < |s|
    ensures r.Some? ==> r.value.start == i && i < r.value.end <= |s| && r.value.group != []
  {
    match p
    case ChapterPattern =>
      if s[i] == '第' then
        var (b, g, _) := OrdinalHead(s, i);
        if g != [] && b + 1 < |s| && s[b] == '章' && s[b + 1] == ' ' then Some(Hit(i, b + 2, g)) else None
      else EnglishAt(s, i, "chapter")
    case EpisodePattern =>
      if s[i] == '第' then
        var (b, g, w) := OrdinalHead(s, i);
        if g != [] && w > 0 && s[b - 1] == ' ' && b + 1 < |s| && s[b] == '回' && s[b + 1] == ' '
        then Some(Hit(i, b + 2, g)) else None
      else EnglishAt(s, i, "episode")
    case VolumePattern =>
      if s[i] == '卷' then
        var (b, g, _) := OrdinalHead(s, i);
        if g != [] then Some(Hit(i, b, g)) else None
      else EnglishAt(s, i, "book")
  }

  /** `pattern.finditer(s)` from position `i`: scan forward, and after a match
      carry on where it ended. */
  function FindAll(p: Pattern, s: string, i: nat): (r: seq<Hit>)
    requires i <= |s|
    ensures forall k :: 0 <= k < |r| ==> i <= r[k].start < r[k].end <= |s| && r[k].group != []
    ensures forall k :: 0 <= k < |r| - 1 ==> r[k].end <= r[k + 1].start
    decreases |s| - i
  {
    if i == |s| then []
    else match MatchAt(p, s, i)
      case Some(h) => [h] + FindAll(p, s, h.end)
      case None => FindAll(p, s, i + 1)
  }

  /** Every match the reader collects, pattern by pattern, each in text order. */
  function AllHits(s: string): (r: seq<Hit>)
    ensures forall k :: 0 <= k < |r| ==> r[k].start < r[k].end <= |s| && r[k].group != []
  {
    FindAll(ChapterPattern, s, 0) + FindAll(EpisodePattern, s, 0) + FindAll(VolumePattern, s, 0)
  }

  /** The characters a match can be made of. */
  predicate MatchChar(c: char) {
    IsSpace(c) || IsOrdinal(c) || IsAsciiLetter(c) || c == '第' || c == '章' || c == '回' || c == '卷'
  }

  lemma HeadChars(s: string, i: nat)
    requires i < |s| && (s[i] == '第' || s[i] == '卷')
    ensures forall j :: i <= j < OrdinalHead(s, i).0 ==> MatchChar(s[j])
  {
    var a := i + 1 + Run(s, i + 1, IsSpace);
    var g := Run(s, a, IsOrdinal);
    var b := a + g + Run(s, a + g, IsSpace);
    assert OrdinalHead(s, i).0 == b;
    forall j | i <= j < b ensures MatchChar(s[j]) {
      if j == i {
      } else if j < a {
        assert IsSpace(s[j]);
      } else if j < a + g {
        assert IsOrdinal(s[j]);
      } else {
        assert IsSpace(s[j]);
      }
    }
  }

  lemma EnglishChars(s: string, i: nat, kw: string)
    requires i < |s| && EnglishAt(s, i, kw).Some?
    requires forall k :: 0 <= k < |kw| ==> 'a' <= kw[k] <= 'z'
    ensures forall j :: i <= j < EnglishAt(s, i, kw).value.end ==> MatchChar(s[j])
  {
    var w := Run(s, i + |kw|, IsSpace);
    var d := Run(s, i + |kw| + w, IsDigit);
    forall j | i <= j < i + |kw| + w + d ensures MatchChar(s[j]) {
      if j < i + |kw| {
        assert LowerString(s[i..i + |kw|])[j - i] == Lower(s[j]);
        assert IsAsciiLetter(s[j]);
      } else if j < i + |kw| + w {
        assert IsSpace(s[j]);
      } else {
        assert IsDigit(s[j]);
      }
    }
  }

  /** A keyword match starts with the keyword's first letter. */
  lemma KeywordHead(s: string, i: nat, kw: string)
    requires i < |s| && kw != []
    ensures KeywordAt(s, i, kw) ==> Lower(s[i]) == kw[0]
  {
    if KeywordAt(s, i, kw) {
      assert LowerString(s[i..i + |kw|])[0] == Lower(s[i]);
    }
  }

  /** An English alternative never matches at 第 or 卷. */
  lemma NoEnglishAtOrdinal(s: string, i: nat, kw: string)
    requires i < |s| && (s[i] == '第' || s[i] == '卷')
    requires kw != [] && 'a' <= kw[0] <= 'z'
    ensures EnglishAt(s, i, kw).None?
  {
    KeywordHead(s, i, kw);
  }

  /** Where a match at 第 or 卷 ends: at the end of the ordinal head, or
      two characters later behind 章 or 回 and a space. */
  lemma OrdinalEnd(p: Pattern, s: string, i: nat)
    requires i < |s| && MatchAt(p, s, i).Some? && (s[i] == '第' || s[i] == '卷')
    ensures var e, b := MatchAt(p, s, i).value.end, OrdinalHead(s, i).0;
      e == b || (e == b + 2 && b + 1 < |s| && (s[b] == '章' || s[b] == '回') && s[b + 1] == ' ')
  {
    NoEnglishAtOrdinal(s, i, Keyword(p));
  }

  lemma OrdinalMatchChars(p: Pattern, s: string, i: nat)
    requires i < |s| && MatchAt(p, s, i).Some? && (s[i] == '第' || s[i] == '卷')
    ensures forall j :: i <= j < MatchAt(p, s, i).value.end ==> MatchChar(s[j])
  {
    var b, e := OrdinalHead(s, i).0, MatchAt(p, s, i).value.end;
    HeadChars(s, i);
    OrdinalEnd(p, s, i);
    forall j | b <= j < e ensures MatchChar(s[j]) {
      assert s[j] == '章' || s[j] == '回' || s[j] == ' ';
    }
  }

  function Keyword(p: Pattern): (kw: string)
    ensures forall k :: 0 <= k < |kw| ==> 'a' <= kw[k] <= 'z'
  {
    match p
    case ChapterPattern => "chapter"
    case EpisodePattern => "episode"
    case VolumePattern => "book"
  }

  /** Every character of a match is a heading character. */
  lemma MatchChars(p: Pattern, s: string, i: nat)
    requires i < |s| && MatchAt(p, s, i).Some?
    ensures forall j :: i <= j < MatchAt(p, s, i).value.end ==> MatchChar(s[j])
  {
    if s[i] == '第' || s[i] == '卷' {
      OrdinalMatchChars(p, s, i);
    } else {
      assert MatchAt(p, s, i) == EnglishAt(s, i, Keyword(p));
      EnglishChars(s, i, Keyword(p));
    }
  }

  /** Matched text never contains a colon, so the reader's search for a
      title of the form ": title\n" inside the matched text never succeeds
      and the chapter title is always the stripped matched text. */
  lemma NoColonInMatch(p: Pattern, s: string, i: nat)
    requires i < |s|
    requires MatchAt(p, s, i).Some?
    ensures var h := MatchAt(p, s, i).value; forall j :: h.start <= j < h.end ==> s[j] != ':'
  {
    var h := MatchAt(p, s, i).value;
    MatchChars(p, s, i);
    forall j | h.start <= j < h.end ensures s[j] != ':' {
      ColonIsNoMatchChar(s[j]);
    }
  }

  lemma ColonIsNoMatchChar(c: char)
    requires MatchChar(c)
    ensures c != ':'
  {
  }

  /** The text of `h` holds no colon. */
  predicate ColonFree(s: string, h: Hit) {
    h.end <= |s| && forall j :: h.start <= j < h.end ==> s[j] != ':'
  }

  /** One step of the scan. */
  lemma FindAllStep(p: Pattern, s: string, i: nat)
    requires i < |s|
    ensures MatchAt(p, s, i).Some? ==>
      FindAll(p, s, i) == [MatchAt(p, s, i).value] + FindAll(p, s, MatchAt(p, s, i).value.end)
    ensures MatchAt(p, s, i).None? ==> FindAll(p, s, i) == FindAll(p, s, i + 1)
  {
  }

  /** Match `k` of the scan from `i` holds no colon. */
  lemma {:induction false} NoColonInFindAllAt(p: Pattern, s: string, i: nat, k: nat)
    requires i <= |s| && k < |FindAll(p, s, i)|
    ensures ColonFree(s, FindAll(p, s, i)[k])
    decreases |s| - i, 1
  {
    FindAllStep(p, s, i);
    if MatchAt(p, s, i).Some? {
      NoColonAfterMatch(p, s, i, k);
    } else {
      NoColonInFindAllAt(p, s, i + 1, k);
    }
  }

  /** The same when the scan matches at `i`. */
  lemma {:induction false} NoColonAfterMatch(p: Pattern, s: string, i: nat, k: nat)
    requires i < |s| && MatchAt(p, s, i).Some? && k < |FindAll(p, s, i)|
    ensures ColonFree(s, FindAll(p, s, i)[k])
    decreases |s| - i, 0
  {
    FindAllStep(p, s, i);
    var h := MatchAt(p, s, i).value;
    if k == 0 {
      NoColonInMatch(p, s, i);
    } else {
      NoColonInFindAllAt(p, s, h.end, k - 1);
    }
  }

  lemma NoColonInFindAll(p: Pattern, s: string, i: nat)
    requires i <= |s|
    ensures forall k, j :: 0 <= k < |FindAll(p, s, i)| && FindAll(p, s, i)[k].start <= j < FindAll(p, s, i)[k].end ==> s[j] != ':'
  {
    forall k | 0 <= k < |FindAll(p, s, i)| ensures ColonFree(s, FindAll(p, s, i)[k]) {
      NoColonInFindAllAt(p, s, i, k);
    }
  }

  /** No collected match contains a colon. */
  lemma NoColonInHits(s: string)
    ensures forall k, j :: 0 <= k < |AllHits(s)| && AllHits(s)[k].start <= j < AllHits(s)[k].end ==> s[j] != ':'
  {
    NoColonInFindAll(ChapterPattern, s, 0);
    NoColonInFindAll(EpisodePattern, s, 0);
    NoColonInFindAll(VolumePattern, s, 0);
  }

  /** The ordinal head of "第一" followed by a character that is neither
      whitespace nor an ordinal. */
  lemma SingleOrdinalHead(s: string)
    requires |s| >= 3 && s[0] == '第' && s[1] == '一' && !IsSpace(s[2]) && !IsOrdinal(s[2])
    ensures OrdinalHead(s, 0) == (2, "一", 0)
  {
    assert !IsSpace(s[1]) && IsOrdinal(s[1]);
    assert Run(s, 1, IsSpace) == 0;
    assert Run(s, 2, IsOrdinal) == 0;
    assert Run(s, 1, IsOrdinal) == 1;
    assert Run(s, 2, IsSpace) == 0;
    assert s[1..2] == "一";
  }

  /** "第一章：" is no heading for pattern 1: 章 must be followed by a space. */
  lemma FullWidthColonIsNoHeading()
    ensures MatchAt(ChapterPattern, "第一章：开始", 0).None?
    ensures MatchAt(ChapterPattern, "第一章 开始", 0) == Some(Hit(0, 4, "一"))
  {
    SingleOrdinalHead("第一章：开始");
    SingleOrdinalHead("第一章 开始");
  }
}
