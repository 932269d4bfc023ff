/** The vector memory bank: the character memory store together with a
    global context of locations, relationships and plot points, and the
    prompt built from both for the extractor. */
module VectorBank {
  import opened Common
  import opened OrderedMaps
  import opened Tfidf
  import opened MemoryStore
  import Memory

  /** `list.append` guarded by `not in`: the entry is added once. */
  function AddOnce(xs: seq<string>, x: string): seq<string> {
    if x in xs then xs else xs + [x]
  }

  /** Adding an entry keeps the old ones in their order, holds the new one,
      keeps a repetition-free list free of repetitions, and adding it again
      changes nothing. */
  lemma AddOnceFacts(xs: seq<string>, x: string)
    ensures xs <= AddOnce(xs, x)
    ensures forall y :: y in AddOnce(xs, x) <==> y in xs || y == x
    ensures Distinct(xs) ==> Distinct(AddOnce(xs, x))
    ensures AddOnce(AddOnce(xs, x), x) == AddOnce(xs, x)
  {
  }

  /** Every line indented by two spaces. */
  function Indented(xs: seq<string>): (r: seq<string>)
    ensures |r| == |xs| && forall i :: 0 <= i < |xs| ==> r[i] == "  " + xs[i]
  {
    seq(|xs|, i requires 0 <= i < |xs| => "  " + xs[i])
  }

  /** The names of the stored memories listed under `ids`, in order. */
  function NamesOf(mems: ODict<VectorizedMemory>, ids: seq<string>): (r: seq<string>)
    ensures forall n :: n in r <==> exists id :: id in ids && id in mems.items && mems.items[id].characterName == n
  {
    if ids == [] then []
    else
      var rest := NamesOf(mems, ids[1..]);
      assert forall id :: id in ids <==> id == ids[0] || id in ids[1..];
      (if ids[0] in mems.items then [mems.items[ids[0]].characterName] else []) + rest
  }

  /** The names found walking every character's list, in key order. */
  function ListedNames(mems: ODict<VectorizedMemory>, byChar: ODict<seq<string>>, keys: seq<string>): seq<string>
    requires forall k :: k in keys ==> k in byChar.items
  {
    if keys == [] then [] else NamesOf(mems, byChar.items[keys[0]]) + ListedNames(mems, byChar, keys[1..])
  }

  /** `_get_all_characters_summary`: the set of names becomes a list
      without repetitions (the order of a Python set is not modelled), of
      which at most ten are shown. */
  function AllCharactersSummary(mems: ODict<VectorizedMemory>, byChar: ODict<seq<string>>): string
    requires Valid(byChar)
  {
    var names := Memory.Dedup(ListedNames(mems, byChar, byChar.keys));
    if names == [] then "" else Join("\n", ["【已识别人物】"] + Indented(TakePy(names, 10)))
  }

  /** A name appears in the listing exactly when a listed memory carries it. */
  lemma {:induction false} ListedNamesMembers(mems: ODict<VectorizedMemory>, byChar: ODict<seq<string>>, keys: seq<string>, n: string)
    requires forall k :: k in keys ==> k in byChar.items
    ensures n in ListedNames(mems, byChar, keys) <==>
      exists k, id :: k in keys && id in byChar.items[k] && id in mems.items && mems.items[id].characterName == n
  {
    if keys != [] {
      ListedNamesMembers(mems, byChar, keys[1..], n);
      assert forall k :: k in keys <==> k == keys[0] || k in keys[1..];
    }
  }

  /** A non-empty summary is the header line followed by one line of two
      spaces and a name for each of the first ten names (all of them when
      there are at most ten), and it contains each line it lists. */
  lemma AllCharactersLines(mems: ODict<VectorizedMemory>, byChar: ODict<seq<string>>)
    requires Valid(byChar)
    ensures var names := Memory.Dedup(ListedNames(mems, byChar, byChar.keys));
      var s := AllCharactersSummary(mems, byChar);
      var shown := if |names| < 10 then |names| else 10;
      names != [] ==>
        s == Join("\n", ["【已识别人物】"] + seq(shown, i requires 0 <= i < shown => "  " + names[i])) &&
        "【已识别人物】" <= s &&
        (forall i :: 0 <= i < shown ==> Contains(s, "  " + names[i])) &&
        (|names| <= 10 ==> forall n :: n in names ==> Contains(s, n))
  {
    var names := Memory.Dedup(ListedNames(mems, byChar, byChar.keys));
    var s := AllCharactersSummary(mems, byChar);
    var shown := if |names| < 10 then |names| else 10;
    if names != [] {
      var lines := seq(shown, i requires 0 <= i < shown => "  " + names[i]);
      var parts := ["【已识别人物】"] + lines;
      assert Indented(TakePy(names, 10)) == lines;
      assert s == Join("\n", parts);
      JoinHead("\n", parts);
      forall i | 0 <= i < shown ensures Contains(s, "  " + names[i]) {
        assert parts[i + 1] == "  " + names[i];
        JoinHasPart("\n", parts, "  " + names[i]);
      }
      if |names| <= 10 {
        forall n | n in names ensures Contains(s, n) {
          var i :| 0 <= i < |names| && names[i] == n;
          assert parts[i + 1] == "  " + n;
          JoinHasPart("\n", parts, "  " + n);
          LineHas(n);
          ContainsTrans(s, "  " + n, n);
        }
      }
    }
  }

  /** The summary is empty exactly when no listed memory is stored; the
      names it draws from are those of the stored memories, none twice; a
      non-empty summary is the header and the first ten of them, one per
      indented line, and names every one of them when there are at most ten. */
  lemma AllCharactersFacts(mems: ODict<VectorizedMemory>, byChar: ODict<seq<string>>)
    requires Valid(byChar)
    ensures var names := Memory.Dedup(ListedNames(mems, byChar, byChar.keys));
      var s := AllCharactersSummary(mems, byChar);
      var shown := if |names| < 10 then |names| else 10;
      Distinct(names) &&
      (s == "" <==> names == []) &&
      (forall n :: n in names <==> exists k, id :: k in byChar.keys && id in byChar.items[k] && id in mems.items && mems.items[id].characterName == n) &&
      (names != [] ==>
        s == Join("\n", ["【已识别人物】"] + seq(shown, i requires 0 <= i < shown => "  " + names[i])) &&
        (|names| <= 10 ==> forall n :: n in names ==> Contains(s, n)))
  {
    AllCharactersLines(mems, byChar);
    var names := Memory.Dedup(ListedNames(mems, byChar, byChar.keys));
    forall n ensures n in names <==> exists k, id :: k in byChar.keys && id in byChar.items[k] && id in mems.items && mems.items[id].characterName == n {
      ListedNamesMembers(mems, byChar, byChar.keys, n);
    }
    if names != [] {
      var parts := ["【已识别人物】"] + Indented(TakePy(names, 10));
      assert |TakePy(names, 10)| >= 1;
      JoinCons("\n", parts[0], parts[1..]);
      assert parts == [parts[0]] + parts[1..];
    }
  }

  /** The relationship and plot-point lines of `to_context_prompt`: the last
      five relationships and the last three plot points under their headers,
      each only when there is something to list. */
  function ContextTail(gc: Memory.GlobalContext): seq<string>
    requires "relationships" in gc && "plot_points" in gc
  {
    (if gc["relationships"] != [] then ["\n【人物关系】"] + Indented(LastN(gc["relationships"], 5)) else []) +
    (if gc["plot_points"] != [] then ["\n【最近剧情】"] + Indented(LastN(gc["plot_points"], 3)) else [])
  }

  /** `to_context_prompt` once its character part `head` is known. */
  function BankPrompt(head: seq<string>, gc: Memory.GlobalContext): string
    requires "relationships" in gc && "plot_points" in gc
  {
    Join("\n", head + ContextTail(gc))
  }

  /** A part of a join is contained in it. */
  lemma JoinHasPart(sep: string, parts: seq<string>, p: string)
    requires p in parts
    ensures Contains(Join(sep, parts), p)
  {
    var k :| 0 <= k < |parts| && parts[k] == p;
    JoinContains(sep, parts, k);
  }

  lemma IndentedHas(xs: seq<string>, x: string)
    requires x in xs
    ensures "  " + x in Indented(xs)
  {
    var i :| 0 <= i < |xs| && xs[i] == x;
    assert Indented(xs)[i] == "  " + x;
  }

  lemma LineHas(x: string)
    ensures Contains("  " + x, x)
  {
    assert ("  " + x)[2..2 + |x|] == x;
    ContainsAt("  " + x, x, 2);
  }

  /** The prompt holds every one of the last five relationships and the
      last three plot points, and every line of its character part. */
  lemma BankPromptMentions(head: seq<string>, gc: Memory.GlobalContext, x: string)
    requires "relationships" in gc && "plot_points" in gc
    requires x in head || x in LastN(gc["relationships"], 5) || x in LastN(gc["plot_points"], 3)
    ensures Contains(BankPrompt(head, gc), x)
  {
    var parts := head + ContextTail(gc);
    if x in head {
      JoinHasPart("\n", parts, x);
    } else {
      if x in LastN(gc["relationships"], 5) {
        IndentedHas(LastN(gc["relationships"], 5), x);
      } else {
        IndentedHas(LastN(gc["plot_points"], 3), x);
      }
      assert "  " + x in ContextTail(gc);
      JoinHasPart("\n", parts, "  " + x);
      LineHas(x);
      ContainsTrans(Join("\n", parts), "  " + x, x);
    }
  }

  /** The prompt is empty when there is no character part, no relationship
      and no plot point; a summary of no characters still counts as a part,
      so with relationships the prompt then opens with an empty line. */
  lemma BankPromptEmpty(head: seq<string>, gc: Memory.GlobalContext)
    requires "relationships" in gc && "plot_points" in gc
    ensures head == [] && gc["relationships"] == [] && gc["plot_points"] == [] ==> BankPrompt(head, gc) == ""
    ensures head == [""] && gc["relationships"] != [] ==> "\n\n" <= BankPrompt(head, gc)
  {
    if head == [""] && gc["relationships"] != [] {
      var parts := head + ContextTail(gc);
      assert parts == [""] + parts[1..];
      JoinCons("\n", "", parts[1..]);
      assert parts[1] == "\n【人物关系】";
      JoinHead("\n", parts[1..]);
    }
  }

  /** A join opens with its first part. */
  lemma JoinHead(sep: string, parts: seq<string>)
    requires |parts| >= 1
    ensures parts[0] <= Join(sep, parts)
  {
    if |parts| > 1 {
      JoinCons(sep, parts[0], parts[1..]);
      assert parts == [parts[0]] + parts[1..];
    }
  }

  /** `build_context` on the state after the refit it triggers. */
  function ContextFor(ln: real -> real, sqrt: real -> real, mems: ODict<VectorizedMemory>, byChar: ODict<seq<string>>,
                      idf: map<string, real>, text: string, maxCharacters: int): string
    requires Valid(mems) && LnPositive(ln)
  {
    var ids := CharacterRanking(ln, sqrt, mems, idf, text, maxCharacters);
    if ids == [] then "" else SummaryForContext(mems, byChar, ids)
  }

  /** The context is empty exactly when no character ranks, and otherwise
      names every ranked character that has memories. */
  lemma ContextForFacts(ln: real -> real, sqrt: real -> real, mems: ODict<VectorizedMemory>, byChar: ODict<seq<string>>,
                        idf: map<string, real>, text: string, maxCharacters: int, k: nat)
    requires Valid(mems) && LnPositive(ln)
    ensures var ids := CharacterRanking(ln, sqrt, mems, idf, text, maxCharacters);
      (ContextFor(ln, sqrt, mems, byChar, idf, text, maxCharacters) == "" <==> ids == []) &&
      (k < |ids| && CharacterMemories(mems, byChar, ids[k], 5) != [] ==>
        Contains(ContextFor(ln, sqrt, mems, byChar, idf, text, maxCharacters), CharacterMemories(mems, byChar, ids[k], 5)[0].characterName))
  {
    var ids := CharacterRanking(ln, sqrt, mems, idf, text, maxCharacters);
    SummaryEmptyIff(mems, byChar, ids);
    if k < |ids| && CharacterMemories(mems, byChar, ids[k], 5) != [] {
      SummaryNames(mems, byChar, ids, k);
    }
  }

  class VectorMemoryBank {
    var vectorStore: CharacterMemoryStore
    var globalContext: Memory.GlobalContext
    var characterIdsByName: map<string, string>

    ghost predicate Valid()
      reads this, vectorStore
    {
      vectorStore.Valid() &&
      "locations" in globalContext && "relationships" in globalContext && "plot_points" in globalContext
    }

    constructor ()
      ensures Valid() && fresh(vectorStore) && fresh(vectorStore.vectorizer)
      ensures vectorStore.memories == Empty() && vectorStore.vectorsByCharacter == Empty()
      ensures vectorStore.documentTexts == [] && !vectorStore.needsRefit
      ensures globalContext == Memory.InitialContext() && characterIdsByName == map[]
    {
      vectorStore := new CharacterMemoryStore();
      globalContext := Memory.InitialContext();
      characterIdsByName := map[];
    }

    /** `add_character`: the name maps to the id (a later character of the
      same name takes it over) and the fragments go to the store. */
    method AddCharacter(cid: string, name: string, traits: seq<string>, goals: seq<string>,
                        descriptions: seq<string>, appearances: seq<string>, metadata: Option<map<string, string>>)
      requires Valid()
      modifies this, vectorStore
      ensures Valid() && vectorStore == old(vectorStore) && vectorStore.vectorizer == old(vectorStore.vectorizer)
      ensures characterIdsByName == old(characterIdsByName)[name := cid] && globalContext == old(globalContext)
      ensures var frags := Fragments(cid, name, traits, goals, descriptions, appearances);
        vectorStore.memories == StoredFragments(old(vectorStore.memories), cid, name, frags, metadata.GetOr(map[])) &&
        vectorStore.vectorsByCharacter == ListedFragments(old(vectorStore.vectorsByCharacter), cid, frags) &&
        vectorStore.documentTexts == old(vectorStore.documentTexts) + Texts(frags) &&
        vectorStore.needsRefit
    {
      characterIdsByName := characterIdsByName[name := cid];
      vectorStore.AddCharacterMemories(cid, name, traits, goals, descriptions, appearances, metadata);
    }

    /** `retrieve_relevant_characters`. */
    method RetrieveRelevantCharacters(ln: real -> real, sqrt: real -> real, text: string, topK: int) returns (r: seq<string>)
      requires Valid() && LnPositive(ln)
      modifies vectorStore`memories, vectorStore`needsRefit, vectorStore.vectorizer
      ensures Valid() && vectorStore.FittedFrom(ln)
      ensures r == CharacterRanking(ln, sqrt, vectorStore.memories, vectorStore.vectorizer.idf, text, topK)
    {
      r := vectorStore.SearchCharactersInText(ln, sqrt, text, topK);
    }

    /** `build_context`. */
    method BuildContext(ln: real -> real, sqrt: real -> real, text: string, maxCharacters: int) returns (r: string)
      requires Valid() && LnPositive(ln)
      modifies vectorStore`memories, vectorStore`needsRefit, vectorStore.vectorizer
      ensures Valid() && vectorStore.FittedFrom(ln)
      ensures r == ContextFor(ln, sqrt, vectorStore.memories, vectorStore.vectorsByCharacter, vectorStore.vectorizer.idf, text, maxCharacters)
    {
      var relevant := RetrieveRelevantCharacters(ln, sqrt, text, maxCharacters);
      if relevant == [] {
        return "";
      }
      r := vectorStore.GetSummaryForContext(relevant);
    }

    /** `add_relationship`. */
    method AddRelationship(relationship: string)
      requires Valid()
      modifies `globalContext
      ensures Valid()
      ensures globalContext == old(globalContext)["relationships" := AddOnce(old(globalContext)["relationships"], relationship)]
    {
      if relationship !in globalContext["relationships"] {
        globalContext := globalContext["relationships" := globalContext["relationships"] + [relationship]];
      }
    }

    /** `add_location`. */
    method AddLocation(location: string)
      requires Valid()
      modifies `globalContext
      ensures Valid()
      ensures globalContext == old(globalContext)["locations" := AddOnce(old(globalContext)["locations"], location)]
    {
      if location !in globalContext["locations"] {
        globalContext := globalContext["locations" := globalContext["locations"] + [location]];
      }
    }

    /** `add_plot_point`: plot points are kept with repetitions. */
    method AddPlotPoint(plotPoint: string)
      requires Valid()
      modifies `globalContext
      ensures Valid()
      ensures globalContext == old(globalContext)["plot_points" := old(globalContext)["plot_points"] + [plotPoint]]
    {
      globalContext := globalContext["plot_points" := globalContext["plot_points"] + [plotPoint]];
    }

    /** `_get_all_characters_summary`. */
    function AllCharacters(): string
      requires Valid()
      reads this, vectorStore
    {
      AllCharactersSummary(vectorStore.memories, vectorStore.vectorsByCharacter)
    }

    /** `to_context_prompt`: with a non-empty current text the retrieved
      context (only when it is not empty), otherwise the summary of all
      characters (even an empty one); then the recent relationships and plot
      points. */
    method ToContextPrompt(ln: real -> real, sqrt: real -> real, currentText: Option<string>) returns (r: string)
      requires Valid() && LnPositive(ln)
      modifies vectorStore`memories, vectorStore`needsRefit, vectorStore.vectorizer
      ensures Valid()
      ensures currentText.Some? && currentText.value != "" ==>
        vectorStore.FittedFrom(ln) &&
        var c := ContextFor(ln, sqrt, vectorStore.memories, vectorStore.vectorsByCharacter, vectorStore.vectorizer.idf, currentText.value, 5);
        r == BankPrompt(if c != "" then [c] else [], globalContext)
      ensures !(currentText.Some? && currentText.value != "") ==>
        unchanged(vectorStore) && unchanged(vectorStore.vectorizer) &&
        r == BankPrompt([AllCharacters()], globalContext)
    {
      var parts := CharacterPart(ln, sqrt, currentText);
      r := WithRecent(parts, globalContext);
    }

    /** The character part of `to_context_prompt`. */
    method CharacterPart(ln: real -> real, sqrt: real -> real, currentText: Option<string>) returns (parts: seq<string>)
      requires Valid() && LnPositive(ln)
      modifies vectorStore`memories, vectorStore`needsRefit, vectorStore.vectorizer
      ensures Valid() && globalContext == old(globalContext)
      ensures currentText.Some? && currentText.value != "" ==>
        vectorStore.FittedFrom(ln) &&
        var c := ContextFor(ln, sqrt, vectorStore.memories, vectorStore.vectorsByCharacter, vectorStore.vectorizer.idf, currentText.value, 5);
        parts == if c != "" then [c] else []
      ensures !(currentText.Some? && currentText.value != "") ==>
        unchanged(vectorStore) && unchanged(vectorStore.vectorizer) && parts == [AllCharacters()]
    {
      parts := [];
      if currentText.Some? && currentText.value != "" {
        var charContext := BuildContext(ln, sqrt, currentText.value, 5);
        if charContext != "" {
          parts := parts + [charContext];
        }
      } else {
        parts := parts + [AllCharacters()];
      }
    }

    /** The rest of `to_context_prompt`: the recent relationships and plot
      points after the character part, all joined by newlines. */
    static method WithRecent(head: seq<string>, globalContext: Memory.GlobalContext) returns (r: string)
      requires "relationships" in globalContext && "plot_points" in globalContext
      ensures r == BankPrompt(head, globalContext)
    {
      var parts := head;
      var relationships := globalContext["relationships"];
      if relationships != [] {
        var lines := Section("\n【人物关系】", LastN(relationships, 5));
        parts := parts + lines;
      }
      ghost var withRelationships := parts;
      var plotPoints := globalContext["plot_points"];
      if plotPoints != [] {
        var lines := Section("\n【最近剧情】", LastN(plotPoints, 3));
        parts := parts + lines;
      }
      assert parts == head + ContextTail(globalContext);
      r := if parts != [] then Join("\n", parts) else "";
    }

    /** A header followed by the indented entries. */
    static method Section(header: string, recent: seq<string>) returns (lines: seq<string>)
      ensures lines == [header] + Indented(recent)
    {
      lines := [header];
      var i := 0;
      while i < |recent|
        invariant 0 <= i <= |recent|
        invariant lines == [header] + Indented(recent[..i])
      {
        lines := lines + ["  " + recent[i]];
        i := i + 1;
      }
      assert recent[..|recent|] == recent;
    }
  }
}
