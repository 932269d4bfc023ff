/** The deterministic part of the script generator: one scene per timeline
    event, taken from a parsed model response with defaults, or built from
    the event alone with a keyword guess at the time of day. */
module Script {
  import opened Common
  import opened Models

  /** One parsed scene object; `None` stands for a missing key. */
  datatype SceneData = SceneData(
    id: Option<string>,
    chapter: Option<int>,
    location: Option<string>,
    time: Option<string>,
    description: Option<string>,
    actions: Option<seq<string>>,
    dialogues: Option<seq<Dialogue>>,
    characterIds: Option<seq<string>>)

  // ---------------------------------------------------------------------
  // Time of day

  /** The time categories in the order they are tried, each with its
      keywords in the order they are tried. */
  const TimeKeywords: seq<(string, seq<string>)> := [
    ("夜", ["夜", "夜晚", "晚上", "深夜", "傍晚", "黄昏", "雨夜"]),
    ("日", ["日", "白天", "早晨", "早上", "中午", "下午", "清晨"]),
    ("晨", ["晨", "黎明", "破晓", "晨曦"])
  ]

  /** The text searched for keywords: a missing description prints as
      "None". */
  function TimeText(e: TimelineEvent): string {
    e.summary + " " + Show(e.description)
  }

  /** The first keyword of `keywords` contained in `text`. */
  predicate AnyIn(text: string, keywords: seq<string>) {
    exists k :: 0 <= k < |keywords| && Contains(text, keywords[k])
  }

  /** The category of the first group with a keyword in the text, in order;
      "日" when none matches. */
  function Classify(text: string, groups: seq<(string, seq<string>)>): string {
    if groups == [] then "日"
    else if AnyIn(text, groups[0].1) then groups[0].0
    else Classify(text, groups[1..])
  }

  /** `_determine_time_fallback`. */
  function TimeFallback(e: TimelineEvent): string {
    Classify(TimeText(e), TimeKeywords)
  }

  /** Night wins over day and day over dawn: the answer is "夜" exactly
      when a night keyword occurs, "日" when a day keyword occurs and no
      night keyword, "晨" when only a dawn keyword occurs, and "日" when
      none does. */
  lemma TimeFallbackPriority(e: TimelineEvent)
    ensures var t := TimeText(e);
      (TimeFallback(e) == "夜" <==> AnyIn(t, TimeKeywords[0].1)) &&
      (TimeFallback(e) == "晨" <==> !AnyIn(t, TimeKeywords[0].1) && !AnyIn(t, TimeKeywords[1].1) && AnyIn(t, TimeKeywords[2].1)) &&
      (TimeFallback(e) == "日" <==> !AnyIn(t, TimeKeywords[0].1) && (AnyIn(t, TimeKeywords[1].1) || !AnyIn(t, TimeKeywords[2].1)))
  {
    var t, g := TimeText(e), TimeKeywords;
    assert g[1..][0] == g[1] && g[1..][1..][0] == g[2] && g[1..][1..][1..] == [];
    assert Classify(t, g[1..][1..]) == if AnyIn(t, g[2].1) then "晨" else "日";
    assert Classify(t, g[1..]) == if AnyIn(t, g[1].1) then "日" else Classify(t, g[1..][1..]);
    assert Classify(t, g) == if AnyIn(t, g[0].1) then "夜" else Classify(t, g[1..]);
    assert "夜"[0] != "日"[0] && "夜"[0] != "晨"[0] && "日"[0] != "晨"[0];
  }

  /** `_determine_time_fallback` as its nested loops with early return. */
  method DetermineTimeFallback(e: TimelineEvent) returns (r: string)
    ensures r == TimeFallback(e)
  {
    var text := e.summary + " " + (if e.description.Some? then e.description.value else "None");
    var g := 0;
    while g < |TimeKeywords|
      invariant 0 <= g <= |TimeKeywords|
      invariant Classify(text, TimeKeywords) == Classify(text, TimeKeywords[g..])
    {
      var keywords := TimeKeywords[g].1;
      var k := 0;
      while k < |keywords|
        invariant 0 <= k <= |keywords|
        invariant forall j :: 0 <= j < k ==> !Contains(text, keywords[j])
      {
        if Contains(text, keywords[k]) {
          assert TimeKeywords[g..][0] == TimeKeywords[g];
          return TimeKeywords[g].0;
        }
        k := k + 1;
      }
      assert TimeKeywords[g..][1..] == TimeKeywords[g + 1..];
      g := g + 1;
    }
    r := "日";
  }

  /** No keyword has a character of the printed "None" description, so a
      missing description never changes the guess made from the summary,
      although the searched text contains "None". */
  lemma MissingDescriptionHarmless(e: TimelineEvent)
    requires e.description.None?
    ensures TimeFallback(e) == Classify(e.summary, TimeKeywords)
  {
    var t := TimeText(e);
    assert t == e.summary + " None";
    forall g, k | 0 <= g < |TimeKeywords| && 0 <= k < |TimeKeywords[g].1|
      ensures Contains(t, TimeKeywords[g].1[k]) <==> Contains(e.summary, TimeKeywords[g].1[k])
    {
      var kw := TimeKeywords[g].1[k];
      assert kw != [] && IsCjk(kw[|kw| - 1]);
      SuffixWithoutCjk(e.summary, " None", kw);
    }
    ClassifyAgrees(t, e.summary, TimeKeywords);
  }

  /** Two texts containing the same keywords are classified alike. */
  lemma {:induction false} ClassifyAgrees(t1: string, t2: string, groups: seq<(string, seq<string>)>)
    requires forall g, k :: 0 <= g < |groups| && 0 <= k < |groups[g].1| ==>
      (Contains(t1, groups[g].1[k]) <==> Contains(t2, groups[g].1[k]))
    ensures Classify(t1, groups) == Classify(t2, groups)
  {
    if groups != [] {
      assert AnyIn(t1, groups[0].1) <==> AnyIn(t2, groups[0].1) by {
        if AnyIn(t1, groups[0].1) {
          var k :| 0 <= k < |groups[0].1| && Contains(t1, groups[0].1[k]);
          assert Contains(t2, groups[0].1[k]);
        }
        if AnyIn(t2, groups[0].1) {
          var k :| 0 <= k < |groups[0].1| && Contains(t2, groups[0].1[k]);
          assert Contains(t1, groups[0].1[k]);
        }
      }
      forall g, k | 0 <= g < |groups[1..]| && 0 <= k < |groups[1..][g].1|
        ensures Contains(t1, groups[1..][g].1[k]) <==> Contains(t2, groups[1..][g].1[k])
      {
        assert groups[1..][g] == groups[g + 1];
      }
      ClassifyAgrees(t1, t2, groups[1..]);
    }
  }

  /** A needle ending in a CJK character occurs in `a + b` only within `a`
      when `b` has no CJK character. */
  lemma SuffixWithoutCjk(a: string, b: string, needle: string)
    requires needle != [] && IsCjk(needle[|needle| - 1])
    requires forall i :: 0 <= i < |b| ==> !IsCjk(b[i])
    ensures Contains(a + b, needle) <==> Contains(a, needle)
  {
    var s := a + b;
    ContainsIff(s, needle);
    ContainsIff(a, needle);
    if Contains(s, needle) {
      var i :| OccursAt(s, needle, i);
      var last := i + |needle| - 1;
      assert s[last] == needle[|needle| - 1];
      assert forall j :: |a| <= j < |s| ==> s[j] == b[j - |a|];
      assert last < |a|;
      assert a[i..i + |needle|] == s[i..i + |needle|];
      assert OccursAt(a, needle, i);
    }
    if Contains(a, needle) {
      var i :| OccursAt(a, needle, i);
      assert s[i..i + |needle|] == a[i..i + |needle|];
      assert OccursAt(s, needle, i);
    }
  }

  // ---------------------------------------------------------------------
  // Scenes

  /** `_create_fallback_scene`. */
  function FallbackScene(e: TimelineEvent): ScriptScene {
    ScriptScene("scene_" + e.id, e.chapter, OrElse(e.location, "未知地点"), TimeFallback(e),
                OrElse(e.description, e.summary), [], e.characterIds, [e.summary])
  }

  /** `_create_scene_from_event` once the response is parsed: `None` stands
      for a response that did not parse or has no "scene" key. */
  function SceneFromEvent(e: TimelineEvent, parsed: Option<SceneData>): ScriptScene {
    match parsed
    case None => FallbackScene(e)
    case Some(d) =>
      ScriptScene(d.id.GetOr("scene_" + e.id), d.chapter.GetOr(e.chapter), d.location.GetOr(OrElse(e.location, "未知地点")),
                  d.time.GetOr("日"), d.description.GetOr(e.summary), d.dialogues.GetOr([]),
                  d.characterIds.GetOr(e.characterIds), d.actions.GetOr([]))
  }

  /** The fallback scene carries the event's id, chapter, characters and
      summary as its only action, and has no dialogue; its location is the
      event's unless that is missing or empty ("未知地点" then), and so is its
      description (the summary then). A parsed scene takes every field the
      reply gives, and for a missing one the event's id, chapter, location
      (or "未知地点"), summary as description and characters, the time "日"
      rather than the keyword guess, and no actions or dialogue. */
  lemma SceneFacts(e: TimelineEvent, parsed: Option<SceneData>)
    ensures var s := SceneFromEvent(e, parsed);
      (parsed.None? ==>
        s.id == "scene_" + e.id && s.chapter == e.chapter && s.actions == [e.summary] && s.dialogues == [] &&
        s.time == TimeFallback(e) && s.characterIds == e.characterIds &&
        (e.location.Some? && e.location.value != "" ==> s.location == e.location.value) &&
        (e.location.None? || e.location.value == "" ==> s.location == "未知地点") &&
        (e.description.Some? && e.description.value != "" ==> s.description == e.description.value) &&
        (e.description.None? || e.description.value == "" ==> s.description == e.summary)) &&
      (parsed.Some? ==>
        var d := parsed.value;
        s.id == (if d.id.Some? then d.id.value else "scene_" + e.id) &&
        s.chapter == (if d.chapter.Some? then d.chapter.value else e.chapter) &&
        (d.location.Some? ==> s.location == d.location.value) &&
        (d.location.None? && e.location.Some? && e.location.value != "" ==> s.location == e.location.value) &&
        (d.location.None? && (e.location.None? || e.location.value == "") ==> s.location == "未知地点") &&
        s.time == (if d.time.Some? then d.time.value else "日") &&
        s.description == (if d.description.Some? then d.description.value else e.summary) &&
        s.actions == (if d.actions.Some? then d.actions.value else []) &&
        s.dialogues == (if d.dialogues.Some? then d.dialogues.value else []) &&
        s.characterIds == (if d.characterIds.Some? then d.characterIds.value else e.characterIds))
  {
  }

  /** `generate`: one scene per event, in event order; `replies[i]` is the
      parsed response for event `i`. */
  method Generate(events: seq<TimelineEvent>, replies: seq<Option<SceneData>>) returns (scenes: seq<ScriptScene>)
    requires |replies| == |events|
    ensures |scenes| == |events|
    ensures forall i :: 0 <= i < |events| ==> scenes[i] == SceneFromEvent(events[i], replies[i])
  {
    scenes := [];
    var i := 0;
    while i < |events|
      invariant 0 <= i <= |events|
      invariant |scenes| == i
      invariant forall j :: 0 <= j < i ==> scenes[j] == SceneFromEvent(events[j], replies[j])
    {
      var scene := CreateSceneFromEvent(events[i], replies[i]);
      scenes := scenes + [scene];
      i := i + 1;
    }
  }

  /** `_create_scene_from_event`. */
  method CreateSceneFromEvent(e: TimelineEvent, parsed: Option<SceneData>) returns (scene: ScriptScene)
    ensures scene == SceneFromEvent(e, parsed)
  {
    if parsed.None? {
      var time := DetermineTimeFallback(e);
      return ScriptScene("scene_" + e.id, e.chapter, OrElse(e.location, "未知地点"), time,
                         OrElse(e.description, e.summary), [], e.characterIds, [e.summary]);
    }
    var d := parsed.value;
    scene := ScriptScene(d.id.GetOr("scene_" + e.id), d.chapter.GetOr(e.chapter), d.location.GetOr(OrElse(e.location, "未知地点")),
                         d.time.GetOr("日"), d.description.GetOr(e.summary), d.dialogues.GetOr([]),
                         d.characterIds.GetOr(e.characterIds), d.actions.GetOr([]));
  }
}
