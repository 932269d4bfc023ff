/** The deterministic part of the storyboard generator: shots built from a
    parsed model response with defaults for missing fields, and the
    fallback shots built from the scene alone. */
module Storyboard {
  import opened Common
  import opened Models

  /** One parsed shot object; `None` stands for a missing key. */
  datatype ShotData = ShotData(
    id: Option<string>,
    sceneId: Option<string>,
    shotNumber: Option<int>,
    shotType: Option<string>,
    description: Option<string>,
    cameraDirection: Option<string>,
    durationSeconds: Option<real>,
    audioDirection: Option<string>,
    charactersInShot: Option<seq<string>>)

  /** `f"{scene.id}_shot_{n}"`. */
  function ShotId(sceneId: string, n: int): string {
    sceneId + "_shot_" + IntToString(n)
  }

  // ---------------------------------------------------------------------
  // Fallback shots

  /** The establishing shot: a still wide shot of the location. */
  function EstablishingShot(scene: ScriptScene): StoryboardShot {
    StoryboardShot(ShotId(scene.id, 1), scene.id, 1, "全景", scene.location + " 的全景，" + scene.time,
                   Some("固定镜头"), Some(3.0), Some("环境音"), [])
  }

  /** The speaker of a dialogue line, "unknown" when it has none. */
  function Speaker(d: Dialogue): string {
    if "character_id" in d then d["character_id"] else "unknown"
  }

  /** The close shot of a dialogue line, numbered `n`. */
  function DialogueShot(scene: ScriptScene, n: int, d: Dialogue): StoryboardShot {
    var speaker := Speaker(d);
    var line := if "line" in d then d["line"] else "";
    StoryboardShot(ShotId(scene.id, n), scene.id, n, "近景", speaker + " 说：" + line,
                   Some("轻微推进"), Some(2.5), Some(speaker + " 对白"), [speaker])
  }

  /** The medium action shot of a scene without dialogue, numbered 2. */
  function ActionShot(scene: ScriptScene): StoryboardShot {
    StoryboardShot(ShotId(scene.id, 2), scene.id, 2, "中景", scene.description,
                   Some("跟随移动"), Some(3.0), Some("动作音效"), [])
  }

  /** `_create_fallback_shots`. */
  function FallbackShots(scene: ScriptScene): seq<StoryboardShot> {
    [EstablishingShot(scene)] +
    if scene.dialogues != [] then
      seq(|scene.dialogues|, i requires 0 <= i < |scene.dialogues| => DialogueShot(scene, i + 2, scene.dialogues[i]))
    else [ActionShot(scene)]
  }

  /** The fallback opens with a still wide shot, then one close shot per
      dialogue line in order (speaker "unknown" when missing), or one medium
      shot when there is no dialogue; shots are numbered from 1 by position,
      each id ends in its number and every shot belongs to the scene. */
  lemma FallbackFacts(scene: ScriptScene)
    ensures var shots := FallbackShots(scene);
      |shots| == 1 + (if |scene.dialogues| > 1 then |scene.dialogues| else 1) &&
      shots[0].shotType == "全景" && shots[0].cameraDirection == Some("固定镜头") &&
      (forall k :: 0 <= k < |shots| ==>
        shots[k].shotNumber == k + 1 && shots[k].id == ShotId(scene.id, k + 1) && shots[k].sceneId == scene.id) &&
      (forall i :: 0 <= i < |scene.dialogues| ==>
        shots[i + 1].shotType == "近景" && shots[i + 1].charactersInShot == [Speaker(scene.dialogues[i])]) &&
      (scene.dialogues == [] ==> shots[1].shotType == "中景" && shots[1].description == scene.description)
  {
  }

  /** Without a speaker the line is attributed to "unknown". */
  lemma SilentSpeakerUnknown(scene: ScriptScene, i: int)
    requires 0 <= i < |scene.dialogues| && "character_id" !in scene.dialogues[i]
    ensures FallbackShots(scene)[i + 1].charactersInShot == ["unknown"]
    ensures FallbackShots(scene)[i + 1].audioDirection == Some("unknown 对白")
  {
    assert "unknown" + " 对白" == "unknown 对白";
  }

  // ---------------------------------------------------------------------
  // Parsed shots

  /** A parsed shot, `count` shots already built: missing fields default
      to the next number, the scene, a medium shot, the scene's description
      and three seconds. */
  function ShotFromData(scene: ScriptScene, d: ShotData, count: int): StoryboardShot {
    var number := d.shotNumber.GetOr(count + 1);
    StoryboardShot(
      d.id.GetOr(ShotId(scene.id, number)),
      d.sceneId.GetOr(scene.id),
      number,
      d.shotType.GetOr("中景"),
      d.description.GetOr(scene.description),
      d.cameraDirection,
      Some(d.durationSeconds.GetOr(3.0)),
      d.audioDirection,
      d.charactersInShot.GetOr([]))
  }

  /** The shots of a parsed shot list, in order. */
  function ParsedShots(scene: ScriptScene, data: seq<ShotData>): (r: seq<StoryboardShot>)
    ensures |r| == |data|
  {
    seq(|data|, k requires 0 <= k < |data| => ShotFromData(scene, data[k], k))
  }

  /** `generate` once the response is parsed: `None` stands for a response
      that did not parse or has no "shots" key. */
  function Generated(scene: ScriptScene, parsed: Option<seq<ShotData>>): seq<StoryboardShot> {
    if parsed.None? || parsed.value == [] then FallbackShots(scene) else ParsedShots(scene, parsed.value)
  }

  /** `generate` never returns an empty list: without parsed shots it is the
      fallback, otherwise one shot per parsed entry, a missing number being
      the shot's position plus one and a missing type a medium shot. */
  lemma GeneratedFacts(scene: ScriptScene, parsed: Option<seq<ShotData>>)
    ensures var shots := Generated(scene, parsed);
      |shots| >= 1 &&
      (parsed.None? || parsed.value == [] ==> shots == FallbackShots(scene)) &&
      (parsed.Some? && parsed.value != [] ==>
        |shots| == |parsed.value| &&
        forall k :: 0 <= k < |shots| ==>
          shots[k].shotNumber == parsed.value[k].shotNumber.GetOr(k + 1) &&
          shots[k].sceneId == parsed.value[k].sceneId.GetOr(scene.id) &&
          shots[k].shotType == parsed.value[k].shotType.GetOr("中景") &&
          shots[k].durationSeconds == Some(parsed.value[k].durationSeconds.GetOr(3.0)) &&
          (parsed.value[k].id.None? ==> shots[k].id == ShotId(scene.id, shots[k].shotNumber)))
  {
    FallbackFacts(scene);
  }

  /** `_create_fallback_shots`, appending shot by shot. */
  method CreateFallbackShots(scene: ScriptScene) returns (shots: seq<StoryboardShot>)
    ensures shots == FallbackShots(scene)
  {
    shots := [];
    var establishing := StoryboardShot(ShotId(scene.id, 1), scene.id, 1, "全景", scene.location + " 的全景，" + scene.time,
                                       Some("固定镜头"), Some(3.0), Some("环境音"), []);
    shots := shots + [establishing];
    if scene.dialogues != [] {
      var i := 0;
      while i < |scene.dialogues|
        invariant 0 <= i <= |scene.dialogues|
        invariant |shots| == i + 1
        invariant shots == [EstablishingShot(scene)] +
          seq(i, j requires 0 <= j < i => DialogueShot(scene, j + 2, scene.dialogues[j]))
      {
        var dialogue := scene.dialogues[i];
        var charId := if "character_id" in dialogue then dialogue["character_id"] else "unknown";
        var line := if "line" in dialogue then dialogue["line"] else "";
        var n := |shots| + 1;
        var dialogueShot := StoryboardShot(ShotId(scene.id, n), scene.id, n, "近景", charId + " 说：" + line,
                                           Some("轻微推进"), Some(2.5), Some(charId + " 对白"), [charId]);
        shots := shots + [dialogueShot];
        i := i + 1;
      }
    } else {
      var n := |shots| + 1;
      var actionShot := StoryboardShot(ShotId(scene.id, n), scene.id, n, "中景", scene.description,
                                        Some("跟随移动"), Some(3.0), Some("动作音效"), []);
      shots := shots + [actionShot];
    }
  }

  /** `generate`, with the parsed response in place of the model call. */
  method Generate(scene: ScriptScene, parsed: Option<seq<ShotData>>) returns (shots: seq<StoryboardShot>)
    ensures shots == Generated(scene, parsed)
  {
    if parsed.None? {
      shots := CreateFallbackShots(scene);
      return;
    }
    var shotsData := parsed.value;
    shots := [];
    var k := 0;
    while k < |shotsData|
      invariant 0 <= k <= |shotsData|
      invariant shots == ParsedShots(scene, shotsData[..k])
    {
      var shotData := shotsData[k];
      var number := if shotData.shotNumber.Some? then shotData.shotNumber.value else |shots| + 1;
      var shot := StoryboardShot(
        if shotData.id.Some? then shotData.id.value else ShotId(scene.id, number),
        if shotData.sceneId.Some? then shotData.sceneId.value else scene.id,
        number,
        if shotData.shotType.Some? then shotData.shotType.value else "中景",
        if shotData.description.Some? then shotData.description.value else scene.description,
        shotData.cameraDirection,
        Some(if shotData.durationSeconds.Some? then shotData.durationSeconds.value else 3.0),
        shotData.audioDirection,
        if shotData.charactersInShot.Some? then shotData.charactersInShot.value else []);
      assert shot == ShotFromData(scene, shotsData[..k + 1][k], k);
      shots := shots + [shot];
      k := k + 1;
    }
    assert shotsData[..k] == shotsData;
    if shots == [] {
      shots := CreateFallbackShots(scene);
    }
  }
}
