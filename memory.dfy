/** Cross-chapter character memory: one record per character that later
    chapters merge into, the bank that holds those records by id, the
    digest handed to the language model, and the checkpoint document. */
module Memory {
  import opened Common
  import opened OrderedMaps
  import opened Models

  datatype CharacterMemory = CharacterMemory(
    characterId: string,
    name: string,
    descriptions: seq<string>,
    traits: seq<string>,
    goals: seq<string>,
    backgroundFragments: seq<string>,
    appearanceFragments: seq<string>,
    firstAppearanceChapter: int,
    lastAppearanceChapter: int,
    mentionCount: int)

  /** `acc` with every value of `incoming` that is not yet in the growing
      list appended, in incoming order. */
  function AppendUnique(acc: seq<string>, incoming: seq<string>): seq<string>
    decreases |incoming|
  {
    if incoming == [] then acc
    else AppendUnique(if incoming[0] in acc then acc else acc + [incoming[0]], incoming[1..])
  }

  /** The values of `incoming` that are not in `acc`, each at its first
      occurrence, in incoming order. */
  function NewInOrder(acc: seq<string>, incoming: seq<string>): (r: seq<string>)
    ensures forall x :: x in r <==> x in incoming && x !in acc
    decreases |incoming|
  {
    if incoming == [] then []
    else
      var p, x := incoming[..|incoming| - 1], incoming[|incoming| - 1];
      assert forall y :: y in incoming <==> y in p || y == x;
      NewInOrder(acc, p) + (if x in acc || x in p then [] else [x])
  }

  lemma {:induction false} AppendUniqueSnoc(acc: seq<string>, p: seq<string>, x: string)
    ensures AppendUnique(acc, p + [x]) == AppendUnique(AppendUnique(acc, p), [x])
    decreases |p|
  {
    if p == [] {
      assert p + [x] == [x];
    } else {
      assert (p + [x])[0] == p[0] && (p + [x])[1..] == p[1..] + [x];
      AppendUniqueSnoc(if p[0] in acc then acc else acc + [p[0]], p[1..], x);
    }
  }

  /** What the merge appends to a list is exactly the new values of the
      incoming list, in incoming order. */
  lemma {:induction false} AppendUniqueInOrder(acc: seq<string>, incoming: seq<string>)
    ensures AppendUnique(acc, incoming) == acc + NewInOrder(acc, incoming)
    decreases |incoming|
  {
    if incoming == [] {
      assert acc + [] == acc;
    } else {
      var p, x := incoming[..|incoming| - 1], incoming[|incoming| - 1];
      assert incoming == p + [x];
      AppendUniqueSnoc(acc, p, x);
      AppendUniqueInOrder(acc, p);
      var q := acc + NewInOrder(acc, p);
      assert x in q <==> x in acc || x in p;
      assert [x][1..] == [];
      assert AppendUnique(q, [x]) == if x in q then q else q + [x];
    }
  }

  /** The receiver's list is kept whole as a prefix (duplicates included);
      the result holds exactly the values of both lists, and what is
      appended is new to `acc`, holds no value twice, and is the new values
      of `incoming` in incoming order. */
  lemma {:induction false} AppendUniqueFacts(acc: seq<string>, incoming: seq<string>)
    ensures var r := AppendUnique(acc, incoming);
      |acc| <= |r| <= |acc| + |incoming| && r[..|acc|] == acc &&
      (forall x :: x in r <==> x in acc || x in incoming) &&
      (forall k :: |acc| <= k < |r| ==> r[k] !in acc) &&
      Distinct(r[|acc|..]) &&
      r[|acc|..] == NewInOrder(acc, incoming)
  {
    AppendUniqueShape(acc, incoming);
    AppendUniqueInOrder(acc, incoming);
  }

  lemma {:induction false} AppendUniqueShape(acc: seq<string>, incoming: seq<string>)
    ensures var r := AppendUnique(acc, incoming);
      |acc| <= |r| <= |acc| + |incoming| && r[..|acc|] == acc &&
      (forall x :: x in r <==> x in acc || x in incoming) &&
      (forall k :: |acc| <= k < |r| ==> r[k] !in acc) &&
      Distinct(r[|acc|..])
    decreases |incoming|
  {
    if incoming != [] {
      var x := incoming[0];
      var acc' := if x in acc then acc else acc + [x];
      AppendUniqueShape(acc', incoming[1..]);
      var r := AppendUnique(acc, incoming);
      assert r == AppendUnique(acc', incoming[1..]);
      assert r[..|acc|] == r[..|acc'|][..|acc|];
      assert forall y :: y in incoming <==> y == x || y in incoming[1..];
      if x !in acc {
        forall k | |acc| <= k < |r| ensures r[k] !in acc {
          if k > |acc| {
            assert r[k] !in acc';
          } else {
            assert r[k] == acc'[|acc|] == x;
          }
        }
        var tail := r[|acc'|..];
        assert r[|acc|..] == [x] + tail;
        assert x !in tail by {
          forall k | 0 <= k < |tail| ensures tail[k] != x {
            assert tail[k] == r[|acc'| + k];
            assert x in acc';
          }
        }
        DistinctCons(x, tail);
      }
    }
  }

  /** No value of `incoming` already in `acc` changes anything. */
  lemma {:induction false} AppendUniqueKnown(acc: seq<string>, incoming: seq<string>)
    requires forall x :: x in incoming ==> x in acc
    ensures AppendUnique(acc, incoming) == acc
    decreases |incoming|
  {
    if incoming != [] {
      assert incoming[0] in acc;
      AppendUniqueKnown(acc, incoming[1..]);
    }
  }

  /** The merged record `merge` promises: identity from the receiver, the
      earliest first and the latest last appearance, the summed mention
      count, deduplicated appends for descriptions, traits and goals, and
      plain concatenation for the fragments. */
  function Merged(self: CharacterMemory, other: CharacterMemory): CharacterMemory {
    CharacterMemory(
      self.characterId, self.name,
      AppendUnique(self.descriptions, other.descriptions),
      AppendUnique(self.traits, other.traits),
      AppendUnique(self.goals, other.goals),
      self.backgroundFragments + other.backgroundFragments,
      self.appearanceFragments + other.appearanceFragments,
      if self.firstAppearanceChapter <= other.firstAppearanceChapter then self.firstAppearanceChapter else other.firstAppearanceChapter,
      if self.lastAppearanceChapter >= other.lastAppearanceChapter then self.lastAppearanceChapter else other.lastAppearanceChapter,
      self.mentionCount + other.mentionCount)
  }

  /** The copy-then-append loop for one list. */
  method AppendNew(base: seq<string>, incoming: seq<string>) returns (r: seq<string>)
    ensures r == AppendUnique(base, incoming)
  {
    r := base;
    var i := 0;
    assert incoming[0..] == incoming;
    while i < |incoming|
      invariant 0 <= i <= |incoming|
      invariant AppendUnique(r, incoming[i..]) == AppendUnique(base, incoming)
    {
      assert incoming[i..][1..] == incoming[i + 1..];
      if incoming[i] !in r {
        r := r + [incoming[i]];
      }
      i := i + 1;
    }
  }

  /** `CharacterMemory.merge`: the receiver is left as it is (records are
      values) and the merged record is returned. */
  method Merge(self: CharacterMemory, other: CharacterMemory) returns (merged: CharacterMemory)
    ensures merged.characterId == self.characterId && merged.name == self.name
    ensures merged.firstAppearanceChapter <= self.firstAppearanceChapter && merged.firstAppearanceChapter <= other.firstAppearanceChapter
    ensures merged.firstAppearanceChapter == self.firstAppearanceChapter || merged.firstAppearanceChapter == other.firstAppearanceChapter
    ensures merged.lastAppearanceChapter >= self.lastAppearanceChapter && merged.lastAppearanceChapter >= other.lastAppearanceChapter
    ensures merged.lastAppearanceChapter == self.lastAppearanceChapter || merged.lastAppearanceChapter == other.lastAppearanceChapter
    ensures merged.mentionCount == self.mentionCount + other.mentionCount
    ensures merged == Merged(self, other)
  {
    var first := if self.firstAppearanceChapter < other.firstAppearanceChapter then self.firstAppearanceChapter else other.firstAppearanceChapter;
    var last := if self.lastAppearanceChapter > other.lastAppearanceChapter then self.lastAppearanceChapter else other.lastAppearanceChapter;
    var descriptions := AppendNew(self.descriptions, other.descriptions);
    var traits := AppendNew(self.traits, other.traits);
    var goals := AppendNew(self.goals, other.goals);
    merged := CharacterMemory(self.characterId, self.name, descriptions, traits, goals,
      self.backgroundFragments + other.backgroundFragments,
      self.appearanceFragments + other.appearanceFragments,
      first, last, self.mentionCount + other.mentionCount);
  }

  /** Merging a record into itself adds no list values: only the fragment
      lists are doubled and the mention count is doubled. */
  lemma MergeSelf(m: CharacterMemory)
    ensures var r := Merged(m, m);
      r.descriptions == m.descriptions && r.traits == m.traits && r.goals == m.goals &&
      r.backgroundFragments == m.backgroundFragments + m.backgroundFragments &&
      r.firstAppearanceChapter == m.firstAppearanceChapter && r.lastAppearanceChapter == m.lastAppearanceChapter &&
      r.mentionCount == 2 * m.mentionCount
  {
    AppendUniqueKnown(m.descriptions, m.descriptions);
    AppendUniqueKnown(m.traits, m.traits);
    AppendUniqueKnown(m.goals, m.goals);
  }

  /** The distinct values of `s` (last occurrences), standing for
      `list(set(s))`, whose order Python leaves open. */
  function Dedup(s: seq<string>): (r: seq<string>)
    ensures forall x :: x in r <==> x in s
    ensures Distinct(r)
    ensures |r| <= |s|
    decreases |s|
  {
    if s == [] then []
    else
      var rest := Dedup(s[1..]);
      if s[0] in rest then rest
      else
        DistinctCons(s[0], rest);
        [s[0]] + rest
  }

  /** `to_character`. */
  function ToCharacter(m: CharacterMemory): Character {
    Character(
      m.characterId, m.name,
      if m.descriptions != [] then Join("; ", m.descriptions) else "",
      Dedup(m.traits), Dedup(m.goals),
      if m.backgroundFragments != [] then Some(Join("; ", m.backgroundFragments)) else None,
      if m.appearanceFragments != [] then Some(Join("; ", m.appearanceFragments)) else None)
  }

  /** The character keeps the memory's id and name, every description,
      exactly the memory's traits and goals (each once), and has a
      background or appearance exactly when there are fragments of it. */
  lemma ToCharacterFacts(m: CharacterMemory)
    ensures var c := ToCharacter(m);
      c.id == m.characterId && c.name == m.name &&
      (forall k :: 0 <= k < |m.descriptions| ==> Contains(c.description, m.descriptions[k])) &&
      (forall x :: x in c.traits <==> x in m.traits) && Distinct(c.traits) &&
      (forall x :: x in c.goals <==> x in m.goals) && Distinct(c.goals) &&
      (c.background.Some? <==> m.backgroundFragments != []) &&
      (c.appearance.Some? <==> m.appearanceFragments != [])
  {
    forall k | 0 <= k < |m.descriptions| ensures Contains(ToCharacter(m).description, m.descriptions[k]) {
      JoinContains("; ", m.descriptions, k);
    }
  }

  // ---------------------------------------------------------------------
  // Digest

  /** The global context: "locations", "relationships" and "plot_points"
      lists, or whatever a checkpoint brought. */
  type GlobalContext = map<string, seq<string>>

  function InitialContext(): GlobalContext {
    map["locations" := [], "relationships" := [], "plot_points" := []]
  }

  /** `global_context.get(key)` is truthy. */
  predicate HasEntries(gc: GlobalContext, key: string) {
    key in gc && gc[key] != []
  }

  /** The summary lines of one character. */
  function MemoryLines(m: CharacterMemory): seq<string> {
    ["- " + m.name + ": " + (if m.traits != [] then Join(", ", TakePy(m.traits, 3)) else "未知特质")] +
    (if m.goals != [] then ["  目标：" + Join(", ", TakePy(m.goals, 2))] else [])
  }

  /** The summary lines of the characters under `keys`, in key order. */
  function CharacterLines(d: ODict<CharacterMemory>, keys: seq<string>): seq<string>
    requires forall k :: k in keys ==> k in d.items
  {
    if keys == [] then [] else MemoryLines(d.items[keys[0]]) + CharacterLines(d, keys[1..])
  }

  function Bullets(xs: seq<string>): (r: seq<string>)
    ensures |r| == |xs|
  {
    seq(|xs|, i requires 0 <= i < |xs| => "- " + xs[i])
  }

  /** The parts of `get_summary`: the characters, the first ten
      relationships and the last five plot points, each under its header
      and only when there is something to list. */
  function SummaryParts(d: ODict<CharacterMemory>, gc: GlobalContext): seq<string>
    requires forall k :: k in d.keys ==> k in d.items
  {
    (if d.keys != [] then ["【已识别人物】"] + CharacterLines(d, d.keys) else []) +
    (if HasEntries(gc, "relationships") then ["\n【已识别关系】"] + Bullets(TakePy(gc["relationships"], 10)) else []) +
    (if HasEntries(gc, "plot_points") then ["\n【剧情要点】"] + Bullets(LastN(gc["plot_points"], 5)) else [])
  }

  function Summary(d: ODict<CharacterMemory>, gc: GlobalContext): string
    requires forall k :: k in d.keys ==> k in d.items
  {
    Join("\n", SummaryParts(d, gc))
  }

  const PromptHead := "以下是之前章节已提取的信息，请在处理新内容时参考：\n\n"
  const PromptTail := "\n\n注意：如果发现新内容更新了某个人物的信息，请在返回的 JSON 中包含更新后的完整信息。\n"

  /** `to_context_prompt`. */
  function ContextPrompt(d: ODict<CharacterMemory>, gc: GlobalContext): string
    requires forall k :: k in d.keys ==> k in d.items
  {
    var s := Summary(d, gc);
    if Strip(s) == [] then "" else PromptHead + s + PromptTail
  }

  /** A join begins with its first part. */
  lemma JoinStarts(sep: string, parts: seq<string>)
    requires parts != []
    ensures parts[0] <= Join(sep, parts)
  {
  }

  /** The prompt is empty exactly when there is nothing to tell: no
      character, no relationship and no plot point. */
  lemma ContextPromptEmptyIff(d: ODict<CharacterMemory>, gc: GlobalContext)
    requires forall k :: k in d.keys ==> k in d.items
    ensures ContextPrompt(d, gc) == "" <==>
      d.keys == [] && !HasEntries(gc, "relationships") && !HasEntries(gc, "plot_points")
  {
    var parts := SummaryParts(d, gc);
    var s := Summary(d, gc);
    if parts != [] {
      JoinStarts("\n", parts);
      var h := parts[0];
      assert h == "【已识别人物】" || h == "\n【已识别关系】" || h == "\n【剧情要点】";
      assert s[..|h|] == h;
      assert s[0] == '【' || s[1] == '【';
      StripFacts(s);
      assert Strip(s) != [];
    }
  }

  /** Every character's lines hold its name. */
  lemma {:induction false} NameInLines(d: ODict<CharacterMemory>, keys: seq<string>, k: nat)
    requires forall x :: x in keys ==> x in d.items
    requires k < |keys|
    ensures exists j :: 0 <= j < |CharacterLines(d, keys)| && Contains(CharacterLines(d, keys)[j], d.items[keys[k]].name)
    decreases |keys|
  {
    var lines := CharacterLines(d, keys);
    var m := d.items[keys[0]];
    var own := MemoryLines(m);
    assert lines == own + CharacterLines(d, keys[1..]);
    if k == 0 {
      var line := own[0];
      assert line[2..2 + |m.name|] == m.name;
      assert OccursAt(line, m.name, 2);
      ContainsAt(line, m.name, 2);
      assert lines[0] == line;
    } else {
      NameInLines(d, keys[1..], k - 1);
      var rest := CharacterLines(d, keys[1..]);
      var j :| 0 <= j < |rest| && Contains(rest[j], d.items[keys[1..][k - 1]].name);
      assert lines[|own| + j] == rest[j];
    }
  }

  /** The prompt names every remembered character. */
  lemma NamesInPrompt(d: ODict<CharacterMemory>, gc: GlobalContext, id: string)
    requires forall k :: k in d.keys ==> k in d.items
    requires id in d.keys
    ensures Contains(ContextPrompt(d, gc), d.items[id].name)
  {
    var name := d.items[id].name;
    var parts := SummaryParts(d, gc);
    var s := Summary(d, gc);
    var k :| 0 <= k < |d.keys| && d.keys[k] == id;
    NameInLines(d, d.keys, k);
    var lines := CharacterLines(d, d.keys);
    var j :| 0 <= j < |lines| && Contains(lines[j], name);
    assert parts[1 + j] == lines[j];
    JoinContains("\n", parts, 1 + j);
    ContainsTrans(s, lines[j], name);
    ContextPromptEmptyIff(d, gc);
    var p := ContextPrompt(d, gc);
    assert p == PromptHead + s + PromptTail;
    assert p[|PromptHead|..|PromptHead| + |s|] == s;
    ContainsInPiece(p, |PromptHead|, |PromptHead| + |s|, name);
  }

  // ---------------------------------------------------------------------
  // Checkpoint document

  /** One saved memory; a field the document lacks is None. */
  datatype MemDoc = MemDoc(
    characterId: Option<string>,
    name: Option<string>,
    descriptions: Option<seq<string>>,
    traits: Option<seq<string>>,
    goals: Option<seq<string>>,
    backgroundFragments: Option<seq<string>>,
    appearanceFragments: Option<seq<string>>,
    firstAppearanceChapter: Option<int>,
    lastAppearanceChapter: Option<int>,
    mentionCount: Option<int>)

  datatype BankDoc = BankDoc(characters: Option<ODict<MemDoc>>, globalContext: Option<GlobalContext>)

  function DocOf(m: CharacterMemory): MemDoc {
    MemDoc(Some(m.characterId), Some(m.name), Some(m.descriptions), Some(m.traits), Some(m.goals),
      Some(m.backgroundFragments), Some(m.appearanceFragments),
      Some(m.firstAppearanceChapter), Some(m.lastAppearanceChapter), Some(m.mentionCount))
  }

  /** The document `save` writes: every memory with all ten fields, and the
      global context. */
  function SaveDoc(d: ODict<CharacterMemory>, gc: GlobalContext): BankDoc {
    BankDoc(Some(ODict(d.keys, map k | k in d.items :: DocOf(d.items[k]))), Some(gc))
  }

  /** The memory `load` builds from a document entry that has an id and a
      name: missing lists become empty, missing counters 0. */
  function MemOf(md: MemDoc): CharacterMemory
    requires md.characterId.Some? && md.name.Some?
  {
    CharacterMemory(md.characterId.value, md.name.value,
      md.descriptions.GetOr([]), md.traits.GetOr([]), md.goals.GetOr([]),
      md.backgroundFragments.GetOr([]), md.appearanceFragments.GetOr([]),
      md.firstAppearanceChapter.GetOr(0), md.lastAppearanceChapter.GetOr(0), md.mentionCount.GetOr(0))
  }

  /** The entry loop of `load` from key `i` on: each entry overwrites its
      id; an entry without id or name stops the load with a KeyError, the
      entries before it already stored. */
  function LoadEntries(d: ODict<CharacterMemory>, docs: ODict<MemDoc>, i: nat): (r: (ODict<CharacterMemory>, bool))
    requires Valid(d) && i <= |docs.keys|
    requires forall k :: k in docs.keys ==> k in docs.items
    ensures Valid(r.0)
    decreases |docs.keys| - i
  {
    if i == |docs.keys| then (d, true)
    else
      var md := docs.items[docs.keys[i]];
      if md.characterId.None? || md.name.None? then (d, false)
      else LoadEntries(Put(d, docs.keys[i], MemOf(md)), docs, i + 1)
  }

  ghost predicate WellFormedDoc(doc: Option<BankDoc>) {
    doc.Some? && doc.value.characters.Some? ==> Valid(doc.value.characters.value)
  }

  /** `load`: no document (missing file) changes nothing; otherwise the
      entries are loaded and, when all of them load, the global context is
      replaced by the document's (empty when it has none). */
  function LoadDoc(d: ODict<CharacterMemory>, gc: GlobalContext, doc: Option<BankDoc>): (r: (ODict<CharacterMemory>, GlobalContext, bool))
    requires Valid(d) && WellFormedDoc(doc)
    ensures Valid(r.0)
  {
    if doc.None? then (d, gc, true)
    else
      var (d', ok) := if doc.value.characters.Some? then LoadEntries(d, doc.value.characters.value, 0) else (d, true);
      if ok then (d', doc.value.globalContext.GetOr(map[]), true) else (d', gc, false)
  }

  /** `k` is one of the keys from position `i` on. */
  predicate Later(keys: seq<string>, i: int, k: string) {
    exists j :: 0 <= j < |keys| && i <= j && keys[j] == k
  }

  /** Loading entries from `i` on touches only the ids still to come. */
  lemma {:induction false} LoadEntriesFrame(d: ODict<CharacterMemory>, docs: ODict<MemDoc>, i: nat)
    requires Valid(d) && Valid(docs) && i <= |docs.keys|
    ensures forall k :: k in d.items && !Later(docs.keys, i, k) ==>
      k in LoadEntries(d, docs, i).0.items && LoadEntries(d, docs, i).0.items[k] == d.items[k]
    ensures forall k :: k in LoadEntries(d, docs, i).0.items ==> k in d.items || Later(docs.keys, i, k)
    decreases |docs.keys| - i
  {
    if i < |docs.keys| {
      var md := docs.items[docs.keys[i]];
      if md.characterId.Some? && md.name.Some? {
        LoadEntriesFrame(Put(d, docs.keys[i], MemOf(md)), docs, i + 1);
        forall k | !Later(docs.keys, i, k) ensures !Later(docs.keys, i + 1, k) && k != docs.keys[i] {
        }
      }
    }
  }

  /** A load that completes has stored every entry from `i` on under its
      key, and every one of them had an id and a name. */
  lemma {:induction false} LoadEntriesStored(d: ODict<CharacterMemory>, docs: ODict<MemDoc>, i: nat, j: nat)
    requires Valid(d) && Valid(docs) && i <= j < |docs.keys|
    requires LoadEntries(d, docs, i).1
    ensures docs.items[docs.keys[j]].characterId.Some? && docs.items[docs.keys[j]].name.Some?
    ensures docs.keys[j] in LoadEntries(d, docs, i).0.items
    ensures LoadEntries(d, docs, i).0.items[docs.keys[j]] == MemOf(docs.items[docs.keys[j]])
    decreases |docs.keys| - i
  {
    var md := docs.items[docs.keys[i]];
    var d1 := Put(d, docs.keys[i], MemOf(md));
    if j > i {
      LoadEntriesStored(d1, docs, i + 1, j);
    } else {
      LoadEntriesFrame(d1, docs, i + 1);
      assert !Later(docs.keys, i + 1, docs.keys[i]);
    }
  }

  /** A load that stops has met an entry without id or name. */
  lemma {:induction false} LoadEntriesFails(d: ODict<CharacterMemory>, docs: ODict<MemDoc>, i: nat)
    requires Valid(d) && Valid(docs) && i <= |docs.keys|
    requires !LoadEntries(d, docs, i).1
    ensures exists j :: i <= j < |docs.keys| && (docs.items[docs.keys[j]].characterId.None? || docs.items[docs.keys[j]].name.None?)
    decreases |docs.keys| - i
  {
    var md := docs.items[docs.keys[i]];
    if md.characterId.Some? && md.name.Some? {
      LoadEntriesFails(Put(d, docs.keys[i], MemOf(md)), docs, i + 1);
    }
  }

  /** `load` without a document changes nothing. With one, a load that
      completes takes the document's global context (empty when it has
      none), a load that stops keeps the old one and has met an entry
      without id or name, and a memory whose id the document does not list
      is kept either way. */
  lemma LoadDocFacts(d: ODict<CharacterMemory>, gc: GlobalContext, doc: Option<BankDoc>)
    requires Valid(d) && WellFormedDoc(doc)
    ensures doc.None? ==> LoadDoc(d, gc, doc) == (d, gc, true)
    ensures var r := LoadDoc(d, gc, doc);
      doc.Some? ==>
        (r.2 ==> r.1 == doc.value.globalContext.GetOr(map[])) &&
        (!r.2 ==>
          r.1 == gc && doc.value.characters.Some? &&
          exists j :: 0 <= j < |doc.value.characters.value.keys| &&
            var md := doc.value.characters.value.items[doc.value.characters.value.keys[j]];
            md.characterId.None? || md.name.None?) &&
        (forall k :: k in d.items && (doc.value.characters.None? || k !in doc.value.characters.value.keys) ==>
          k in r.0.items && r.0.items[k] == d.items[k])
  {
    if doc.Some? && doc.value.characters.Some? {
      var docs := doc.value.characters.value;
      LoadEntriesFrame(d, docs, 0);
      if !LoadEntries(d, docs, 0).1 {
        LoadEntriesFails(d, docs, 0);
      }
    }
  }

  /** The entries `save` writes. */
  function SavedEntries(d: ODict<CharacterMemory>): (r: ODict<MemDoc>)
    requires Valid(d)
    ensures Valid(r)
  {
    ODict(d.keys, map k | k in d.items :: DocOf(d.items[k]))
  }

  lemma {:induction false} LoadSavedEntries(p: ODict<CharacterMemory>, d: ODict<CharacterMemory>, i: nat)
    requires Valid(d) && Valid(p) && i <= |d.keys|
    requires p.keys == d.keys[..i]
    requires forall k :: k in p.items ==> k in d.items && p.items[k] == d.items[k]
    ensures LoadEntries(p, SavedEntries(d), i) == (d, true)
    decreases |d.keys| - i
  {
    if i == |d.keys| {
      assert p.keys == d.keys;
      assert p.items == d.items;
    } else {
      var key := d.keys[i];
      assert key !in p.keys;
      assert MemOf(SavedEntries(d).items[key]) == d.items[key];
      assert d.keys[..i + 1] == d.keys[..i] + [key];
      LoadSavedEntries(Put(p, key, d.items[key]), d, i + 1);
    }
  }

  /** Checkpoint round trip: loading the saved document into an empty bank
      gives back every memory, in order, and the global context. */
  lemma SaveLoadRoundTrip(d: ODict<CharacterMemory>, gc: GlobalContext, gc0: GlobalContext)
    requires Valid(d)
    ensures WellFormedDoc(Some(SaveDoc(d, gc)))
    ensures LoadDoc(Empty(), gc0, Some(SaveDoc(d, gc))) == (d, gc, true)
  {
    assert SaveDoc(d, gc).characters.value == SavedEntries(d);
    LoadSavedEntries(Empty(), d, 0);
  }

  // ---------------------------------------------------------------------
  // The bank

  /** `add_character_memory` on the dictionary: an unseen id is stored as
      given (last in order), a seen id is replaced in place by the merge. */
  function AddMemory(d: ODict<CharacterMemory>, m: CharacterMemory): (r: ODict<CharacterMemory>)
    requires Valid(d)
    ensures Valid(r)
  {
    Put(d, m.characterId, if m.characterId in d.items then Merged(d.items[m.characterId], m) else m)
  }

  /** Only the memory's own id changes, and it then holds either the memory
      itself (unseen id) or the merge into what was there. */
  lemma AddMemoryEffect(d: ODict<CharacterMemory>, m: CharacterMemory)
    requires Valid(d)
    ensures var r := AddMemory(d, m);
      m.characterId in r.items &&
      (m.characterId !in d.items ==> r.items[m.characterId] == m && r.keys == d.keys + [m.characterId]) &&
      (m.characterId in d.items ==> r.items[m.characterId] == Merged(d.items[m.characterId], m) && r.keys == d.keys) &&
      (forall k :: k != m.characterId ==> (k in r.items <==> k in d.items)) &&
      (forall k :: k != m.characterId && k in d.items ==> r.items[k] == d.items[k])
  {
  }

  class MemoryBank {
    var characterMemories: ODict<CharacterMemory>
    var globalContext: GlobalContext

    ghost predicate Valid()
      reads this
    {
      OrderedMaps.Valid(characterMemories)
    }

    constructor ()
      ensures Valid()
      ensures characterMemories == Empty() && globalContext == InitialContext()
    {
      characterMemories := Empty();
      globalContext := InitialContext();
    }

    method AddCharacterMemory(memory: CharacterMemory)
      requires Valid()
      modifies `characterMemories
      ensures Valid()
      ensures characterMemories == AddMemory(old(characterMemories), memory)
    {
      if memory.characterId in characterMemories.items {
        var existing := characterMemories.items[memory.characterId];
        var merged := Merge(existing, memory);
        characterMemories := Put(characterMemories, memory.characterId, merged);
      } else {
        characterMemories := Put(characterMemories, memory.characterId, memory);
      }
    }

    function GetCharacterMemory(id: string): (r: Option<CharacterMemory>)
      reads this
      ensures r.Some? <==> id in characterMemories.items
      ensures r.Some? ==> r.value == characterMemories.items[id]
    {
      Get(characterMemories, id)
    }

    /** `get_all_characters`: one character per memory, in insertion order. */
    function GetAllCharacters(): (r: seq<Character>)
      requires Valid()
      reads this
      ensures |r| == |characterMemories.keys|
      ensures forall i :: 0 <= i < |r| ==> r[i] == ToCharacter(characterMemories.items[characterMemories.keys[i]])
    {
      var ms := Values(characterMemories);
      seq(|ms|, i requires 0 <= i < |ms| => ToCharacter(ms[i]))
    }

    function GetSummary(): string
      requires Valid()
      reads this
    {
      Summary(characterMemories, globalContext)
    }

    function ToContextPrompt(): string
      requires Valid()
      reads this
    {
      ContextPrompt(characterMemories, globalContext)
    }

    /** `save`, without the file: the document written. */
    function Save(): BankDoc
      reads this
    {
      SaveDoc(characterMemories, globalContext)
    }

    /** `load`, with the parsed file as `doc` (None for a missing file);
      `ok` is false when an entry's id or name is missing. */
    method Load(doc: Option<BankDoc>) returns (ok: bool)
      requires Valid() && WellFormedDoc(doc)
      modifies `characterMemories, `globalContext
      ensures Valid()
      ensures (characterMemories, globalContext, ok) == LoadDoc(old(characterMemories), old(globalContext), doc)
    {
      ok := true;
      if doc.None? {
        return;
      }
      if doc.value.characters.Some? {
        var docs := doc.value.characters.value;
        ghost var d0 := characterMemories;
        var i := 0;
        while i < |docs.keys|
          invariant 0 <= i <= |docs.keys|
          invariant Valid() && globalContext == old(globalContext)
          invariant LoadEntries(characterMemories, docs, i) == LoadEntries(d0, docs, 0)
        {
          var md := docs.items[docs.keys[i]];
          if md.characterId.None? || md.name.None? {
            assert LoadEntries(characterMemories, docs, i) == (characterMemories, false);
            return false;
          }
          characterMemories := Put(characterMemories, docs.keys[i], MemOf(md));
          i := i + 1;
        }
      }
      globalContext := doc.value.globalContext.GetOr(map[]);
    }
  }
}
