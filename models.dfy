/** The plain records the pipeline produces: characters, timeline events,
    script scenes and storyboard shots. */
module Models {
  import opened Common

  datatype Character = Character(
    id: string,
    name: string,
    description: string,
    traits: seq<string>,
    goals: seq<string>,
    background: Option<string>,
    appearance: Option<string>)

  datatype TimelineEvent = TimelineEvent(
    id: string,
    chapter: int,
    summary: string,
    description: Option<string>,
    characterIds: seq<string>,
    location: Option<string>,
    timestamp: Option<string>)

  /** A dialogue line is a small dictionary with the keys "character_id"
      and "line". */
  type Dialogue = map<string, string>

  datatype ScriptScene = ScriptScene(
    id: string,
    chapter: int,
    location: string,
    time: string,
    description: string,
    dialogues: seq<Dialogue>,
    characterIds: seq<string>,
    actions: seq<string>)

  datatype StoryboardShot = StoryboardShot(
    id: string,
    sceneId: string,
    shotNumber: int,
    shotType: string,
    description: string,
    cameraDirection: Option<string>,
    durationSeconds: Option<real>,
    audioDirection: Option<string>,
    charactersInShot: seq<string>)
}
