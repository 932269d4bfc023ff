/** The deterministic parts of the extractor: the retry policy of the
    chat client over an abstract sequence of attempt outcomes, the
    messages each attempt sends, the fallbacks of the response parser and
    the defaulting of extracted characters. */
module Extractor {
  import opened Common
  import opened Models

  // ---------------------------------------------------------------------
  // Retry policy

  /** What one attempt of the remote call does. */
  datatype Outcome =
    | Success(content: string)
    | HttpStatus(code: int)   // the service answered with an error status
    | ConnectionFailure
    | OtherFailure
    | MissingPackage          // the client library cannot be imported

  /** The exception `chat` ends with. */
  datatype Raised =
    | StatusError(code: int)
    | ConnectionError
    | OtherError
    | ImportError
    | RetryLoopExit           // the loop ran no attempt at all

  datatype ChatResult = Returned(content: string) | Failed(error: Raised)

  /** Rate limiting, server errors, connection errors and any other error
      are retried while attempts remain. */
  predicate Retryable(o: Outcome) {
    (o.HttpStatus? && (o.code == 429 || 500 <= o.code < 600)) || o.ConnectionFailure? || o.OtherFailure?
  }

  /** A status outside 400..599 matches none of the status branches: the
      loop simply goes on to the next attempt. */
  predicate FallsThrough(o: Outcome) {
    o.HttpStatus? && !(400 <= o.code < 600)
  }

  /** Attempt `attempt` (counting from 0) ends the loop. */
  predicate Stops(maxRetries: int, o: Outcome, attempt: int) {
    !FallsThrough(o) && (!Retryable(o) || attempt >= maxRetries)
  }

  /** The exception an outcome raises. */
  function ErrorOf(o: Outcome): Raised {
    match o
    case Success(_) => OtherError
    case HttpStatus(code) => StatusError(code)
    case ConnectionFailure => ConnectionError
    case OtherFailure => OtherError
    case MissingPackage => ImportError
  }

  /** The first attempt from `k` on that ends the loop, or `maxRetries + 1`
      when none of the remaining ones does. */
  function StopFrom(maxRetries: int, outcomes: nat -> Outcome, k: nat): (r: nat)
    requires k <= maxRetries + 1
    ensures k <= r <= maxRetries + 1
    ensures r <= maxRetries ==> Stops(maxRetries, outcomes(r), r)
    ensures forall j :: k <= j < r ==> !Stops(maxRetries, outcomes(j), j)
    decreases maxRetries + 1 - k
  {
    if k == maxRetries + 1 then k
    else if Stops(maxRetries, outcomes(k), k) then k
    else StopFrom(maxRetries, outcomes, k + 1)
  }

  /** The number of attempts `chat` makes. */
  function Calls(maxRetries: int, outcomes: nat -> Outcome): nat {
    if maxRetries < 0 then 0
    else var s := StopFrom(maxRetries, outcomes, 0); if s <= maxRetries then s + 1 else maxRetries + 1
  }

  /** What `chat` returns or raises: the content of a success, the error of
      the attempt that stopped, or, when every attempt fell through, the
      error of the last one. */
  function ChatOutcome(maxRetries: int, outcomes: nat -> Outcome): ChatResult {
    if maxRetries < 0 then Failed(RetryLoopExit)
    else
      var o := outcomes(Calls(maxRetries, outcomes) - 1);
      if o.Success? then Returned(o.content) else Failed(ErrorOf(o))
  }

  /** At most `max_retries + 1` attempts, at least one when that is
      positive; every attempt but the last was retried or fell through, and
      the last one decides the answer. */
  lemma ChatBounds(maxRetries: int, outcomes: nat -> Outcome)
    ensures var n := Calls(maxRetries, outcomes);
      (maxRetries < 0 ==> n == 0 && ChatOutcome(maxRetries, outcomes) == Failed(RetryLoopExit)) &&
      (maxRetries >= 0 ==> 1 <= n <= maxRetries + 1) &&
      (forall j :: 0 <= j < n - 1 ==> Retryable(outcomes(j)) || FallsThrough(outcomes(j))) &&
      (ChatOutcome(maxRetries, outcomes).Returned? ==> outcomes(n - 1) == Success(ChatOutcome(maxRetries, outcomes).content))
  {
    if maxRetries >= 0 {
      var s := StopFrom(maxRetries, outcomes, 0);
      forall j | 0 <= j < Calls(maxRetries, outcomes) - 1
        ensures Retryable(outcomes(j)) || FallsThrough(outcomes(j))
      {
        assert !Stops(maxRetries, outcomes(j), j);
      }
    }
  }

  /** The attempt where the loop stops is the first one that stops it. */
  lemma StopAtFirst(maxRetries: int, outcomes: nat -> Outcome, k: nat)
    requires k <= maxRetries + 1
    requires forall j :: 0 <= j < k ==> !Stops(maxRetries, outcomes(j), j)
    requires k <= maxRetries ==> Stops(maxRetries, outcomes(k), k)
    ensures StopFrom(maxRetries, outcomes, 0) == k
  {
  }

  /** A client error other than 429 is raised at once, without a retry. */
  lemma ClientErrorNotRetried(maxRetries: int, outcomes: nat -> Outcome, k: nat)
    requires 0 <= k <= maxRetries
    requires forall j :: 0 <= j < k ==> Retryable(outcomes(j))
    requires outcomes(k).HttpStatus? && 400 <= outcomes(k).code < 500 && outcomes(k).code != 429
    ensures Calls(maxRetries, outcomes) == k + 1
    ensures ChatOutcome(maxRetries, outcomes) == Failed(StatusError(outcomes(k).code))
  {
    assert Stops(maxRetries, outcomes(k), k);
    StopAtFirst(maxRetries, outcomes, k);
  }

  /** A retryable failure on every attempt uses all attempts and raises
      that failure; a retryable failure followed by a success returns the
      success. */
  lemma RetriesExhausted(maxRetries: int, outcomes: nat -> Outcome)
    requires maxRetries >= 0
    requires forall j :: 0 <= j <= maxRetries ==> Retryable(outcomes(j))
    ensures Calls(maxRetries, outcomes) == maxRetries + 1
    ensures ChatOutcome(maxRetries, outcomes) == Failed(ErrorOf(outcomes(maxRetries)))
  {
    StopAtFirst(maxRetries, outcomes, maxRetries);
  }

  lemma RetryThenSuccess(maxRetries: int, outcomes: nat -> Outcome, k: nat)
    requires 0 <= k <= maxRetries
    requires forall j :: 0 <= j < k ==> Retryable(outcomes(j))
    requires outcomes(k).Success?
    ensures Calls(maxRetries, outcomes) == k + 1
    ensures ChatOutcome(maxRetries, outcomes) == Returned(outcomes(k).content)
  {
    assert Stops(maxRetries, outcomes(k), k);
    StopAtFirst(maxRetries, outcomes, k);
  }

  /** A status outside 400..599 on the last attempt is not raised by its
      own handler, yet the loop ends by raising it. */
  lemma FallThroughRaisedAtEnd(maxRetries: int, outcomes: nat -> Outcome)
    requires maxRetries >= 0
    requires forall j :: 0 <= j <= maxRetries ==> FallsThrough(outcomes(j))
    ensures Calls(maxRetries, outcomes) == maxRetries + 1
    ensures ChatOutcome(maxRetries, outcomes) == Failed(StatusError(outcomes(maxRetries).code))
  {
    StopAtFirst(maxRetries, outcomes, maxRetries + 1);
  }

  // ---------------------------------------------------------------------
  // Messages sent

  /** A chat message: a small dictionary with the keys "role" and
      "content". */
  type Message = map<string, string>

  const JsonSystemMessage: Message :=
    map["role" := "system", "content" := "You must respond with valid JSON only. No other text, no markdown code blocks."]

  predicate IsSystem(m: Message) {
    "role" in m && m["role"] == "system"
  }

  /** The messages JSON mode sends: a system message asking for JSON comes
      first unless the conversation already opens with one. */
  function Prepared(messages: seq<Message>, jsonMode: bool): seq<Message> {
    if jsonMode && messages != [] && !IsSystem(messages[0]) then [JsonSystemMessage] + messages else messages
  }

  /** What the loop actually sends on attempt `attempt`: the request is
      built from `messages` before the system message is put in front of
      it, so the first attempt goes out without it and only retries carry
      it. */
  function SentAsWritten(messages: seq<Message>, jsonMode: bool, attempt: nat): seq<Message> {
    if attempt == 0 then messages else Prepared(messages, jsonMode)
  }

  /** One user message in JSON mode: the first attempt sends no system
      message and so differs from the prepared conversation, while the
      second sends the prepared conversation. */
  lemma FirstAttemptWithoutSystemMessage()
    ensures var m := [map["role" := "user", "content" := "text"]];
      SentAsWritten(m, true, 0) == m && !IsSystem(SentAsWritten(m, true, 0)[0]) &&
      IsSystem(SentAsWritten(m, true, 1)[0]) &&
      SentAsWritten(m, true, 0) != Prepared(m, true) &&
      SentAsWritten(m, true, 1) == Prepared(m, true)
  {
    var m := [map["role" := "user", "content" := "text"]];
    assert m[0]["role"] == "user";
    assert "user"[0] != "system"[0];
    assert !IsSystem(m[0]);
    assert |SentAsWritten(m, true, 1)| == 2;
  }

  /** In JSON mode the prepared conversation opens with a system message
      whenever it is not empty, still holds the caller's messages in order
      after it, and preparing twice adds nothing. */
  lemma PreparedFacts(messages: seq<Message>, jsonMode: bool)
    ensures var p := Prepared(messages, jsonMode);
      (jsonMode && messages != [] ==> IsSystem(p[0])) &&
      (p == messages || p == [JsonSystemMessage] + messages) &&
      Prepared(p, jsonMode) == p &&
      (!jsonMode ==> p == messages)
  {
    assert "role" in JsonSystemMessage && JsonSystemMessage["role"] == "system";
  }

  /** `chat` over the outcomes of its attempts; `sent` is the conversation
      each attempt sends, one per attempt. */
  method Chat(maxRetries: int, outcomes: nat -> Outcome, messages: seq<Message>, jsonMode: bool)
    returns (result: ChatResult, sent: seq<seq<Message>>)
    ensures result == ChatOutcome(maxRetries, outcomes)
    ensures |sent| == Calls(maxRetries, outcomes)
    ensures forall k :: 0 <= k < |sent| ==> sent[k] == Prepared(messages, jsonMode)
  {
    var lastException: Option<Raised> := None;
    sent := [];
    var attempt := 0;
    while attempt < maxRetries + 1
      invariant 0 <= attempt <= maxRetries + 1 || (maxRetries < 0 && attempt == 0)
      invariant |sent| == attempt
      invariant forall k :: 0 <= k < |sent| ==> sent[k] == Prepared(messages, jsonMode)
      invariant attempt == 0 ==> lastException.None?
      invariant attempt > 0 ==> lastException == Some(ErrorOf(outcomes(attempt - 1)))
      invariant maxRetries >= 0 ==> StopFrom(maxRetries, outcomes, 0) == StopFrom(maxRetries, outcomes, attempt)
      decreases maxRetries + 1 - attempt
    {
      var request := if jsonMode && messages != [] && !IsSystem(messages[0]) then [JsonSystemMessage] + messages else messages;
      sent := sent + [request];
      var outcome := outcomes(attempt);
      match outcome {
        case Success(content) =>
          return Returned(content), sent;
        case MissingPackage =>
          return Failed(ImportError), sent;
        case HttpStatus(code) =>
          lastException := Some(StatusError(code));
          if code == 429 || 500 <= code < 600 {
            if attempt >= maxRetries {
              return Failed(StatusError(code)), sent;
            }
          } else if 400 <= code < 500 {
            return Failed(StatusError(code)), sent;
          }
        case ConnectionFailure =>
          lastException := Some(ConnectionError);
          if attempt >= maxRetries {
            return Failed(ConnectionError), sent;
          }
        case OtherFailure =>
          lastException := Some(OtherError);
          if attempt >= maxRetries {
            return Failed(OtherError), sent;
          }
      }
      attempt := attempt + 1;
    }
    if lastException.Some? {
      return Failed(lastException.value), sent;
    }
    result := Failed(RetryLoopExit);
  }

  // ---------------------------------------------------------------------
  // Parsing the response

  /** The text from the first '{' through the last '}', when a '{' occurs
      and the last '}' comes after it. */
  function BraceSlice(response: string): (r: Option<string>)
    ensures r.Some? ==> |r.value| >= 2 && r.value[0] == '{' && r.value[|r.value| - 1] == '}'
  {
    var start := FindChar(response, '{');
    var end := RFindChar(response, '}') + 1;
    if start != -1 && end > start then Some(response[start..end]) else None
  }

  /** The slice exists exactly when some '{' comes before some '}'. */
  lemma BraceSliceIff(response: string)
    ensures BraceSlice(response).Some? <==>
      exists i, j :: 0 <= i < j < |response| && response[i] == '{' && response[j] == '}'
  {
    var start := FindChar(response, '{');
    var last := RFindChar(response, '}');
    if exists i, j :: 0 <= i < j < |response| && response[i] == '{' && response[j] == '}' {
      var i, j :| 0 <= i < j < |response| && response[i] == '{' && response[j] == '}';
      assert 0 <= start <= i;
      assert j <= last;
      assert BraceSlice(response).Some?;
    }
    if BraceSlice(response).Some? {
      assert response[start] == '{' && response[last] == '}' && start < last;
    }
  }

  /** The slice is then the widest such span: it is the piece of the
      response from the first '{' on, and no '}' follows it. */
  lemma BraceSliceWidest(response: string)
    requires BraceSlice(response).Some?
    ensures var v := BraceSlice(response).value;
      var a := FindChar(response, '{');
      0 <= a && a + |v| <= |response| && response[a..a + |v|] == v &&
      (forall i :: 0 <= i < a ==> response[i] != '{') &&
      (forall j :: a + |v| <= j < |response| ==> response[j] != '}')
  {
    var start := FindChar(response, '{');
    var last := RFindChar(response, '}');
    var v := BraceSlice(response).value;
    assert v == response[start..last + 1];
    assert start + |v| == last + 1;
  }

  /** `_parse_json_response`: the stripped response, then the body of a
      fenced JSON block, then the brace slice, each handed to the JSON
      reader `loads`; `fenced` stands for the fenced-block search. The
      first of them that parses gives the result. */
  function ParseResponse<D>(loads: string -> Option<D>, fenced: string -> Option<string>, response: string): (r: Option<D>)
    ensures r.Some? ==>
      r == loads(Strip(response)) ||
      (fenced(response).Some? && r == loads(fenced(response).value)) ||
      (BraceSlice(response).Some? && r == loads(BraceSlice(response).value))
    ensures r.None? <==>
      loads(Strip(response)).None? &&
      (fenced(response).None? || loads(fenced(response).value).None?) &&
      (BraceSlice(response).None? || loads(BraceSlice(response).value).None?)
    ensures loads(Strip(response)).Some? ==> r == loads(Strip(response))
    ensures loads(Strip(response)).None? && fenced(response).Some? && loads(fenced(response).value).Some? ==>
      r == loads(fenced(response).value)
    ensures loads(Strip(response)).None? && (fenced(response).None? || loads(fenced(response).value).None?) ==>
      r == if BraceSlice(response).Some? then loads(BraceSlice(response).value) else None
  {
    var direct := loads(Strip(response));
    if direct.Some? then direct
    else
      var block := fenced(response);
      var fromBlock := if block.Some? then loads(block.value) else None;
      if fromBlock.Some? then fromBlock
      else
        var slice := BraceSlice(response);
        if slice.Some? then loads(slice.value) else None
  }

  // ---------------------------------------------------------------------
  // Extracted characters

  /** One parsed character object; `None` stands for a missing key. */
  datatype CharData = CharData(
    id: Option<string>,
    name: Option<string>,
    description: Option<string>,
    traits: Option<seq<string>>,
    goals: Option<seq<string>>,
    background: Option<string>,
    appearance: Option<string>)

  /** A character with defaults for the missing keys; a missing id is made
      from the name, or from "unknown" when the name is missing too. */
  function CharacterOf(d: CharData): Character {
    Character(d.id.GetOr("char_" + d.name.GetOr("unknown")), d.name.GetOr(""), d.description.GetOr(""),
              d.traits.GetOr([]), d.goals.GetOr([]), d.background, d.appearance)
  }

  /** The defaults of a character without keys, and ids built from the name
      only when the id is missing. */
  lemma CharacterDefaults(d: CharData)
    ensures var c := CharacterOf(d);
      (d.id.None? && d.name.None? ==> c.id == "char_unknown" && c.name == "") &&
      (d.id.None? && d.name.Some? ==> c.id == "char_" + d.name.value && c.name == d.name.value) &&
      (d.id.Some? ==> c.id == d.id.value) &&
      (d.traits.None? ==> c.traits == []) && (d.goals.None? ==> c.goals == []) &&
      c.background == d.background && c.appearance == d.appearance
  {
    assert "char_" + "unknown" == "char_unknown";
  }

  /** `extract`, once the response is parsed: `None` stands for a response
      that did not parse or has no "characters" key; one character per
      parsed entry, in order. */
  method Extract(parsed: Option<seq<CharData>>) returns (characters: seq<Character>)
    ensures parsed.None? ==> characters == []
    ensures parsed.Some? ==>
      |characters| == |parsed.value| &&
      forall k :: 0 <= k < |characters| ==> characters[k] == CharacterOf(parsed.value[k])
  {
    characters := [];
    if parsed.None? {
      return;
    }
    var data := parsed.value;
    var k := 0;
    while k < |data|
      invariant 0 <= k <= |data|
      invariant |characters| == k
      invariant forall j :: 0 <= j < k ==> characters[j] == CharacterOf(data[j])
    {
      var d := data[k];
      var character := Character(
        if d.id.Some? then d.id.value else "char_" + (if d.name.Some? then d.name.value else "unknown"),
        if d.name.Some? then d.name.value else "",
        if d.description.Some? then d.description.value else "",
        if d.traits.Some? then d.traits.value else [],
        if d.goals.Some? then d.goals.value else [],
        d.background,
        d.appearance);
      characters := characters + [character];
      k := k + 1;
    }
  }
}
