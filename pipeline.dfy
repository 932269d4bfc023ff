/** The chunking pipeline: a reader, a memory bank and the list of chunk
    indices already handed to the extractor. */
module Pipeline {
  import opened Common
  import opened OrderedMaps
  import opened Reader
  import opened Memory

  /** The pipeline's reader always keeps 500 characters of overlap. */
  const PipelineOverlap := 500

  /** `chunks[i]` with Python's indexing: a negative index counts from the
      end, anything else out of range is an IndexError (None). */
  function PyIndex<T>(s: seq<T>, i: int): (r: Option<T>)
    ensures r.Some? <==> -|s| <= i < |s|
    ensures 0 <= i < |s| ==> r == Some(s[i])
    ensures -|s| <= i < 0 ==> r == Some(s[|s| + i])
  {
    if 0 <= i < |s| then Some(s[i])
    else if -|s| <= i < 0 then Some(s[|s| + i])
    else None
  }

  /** The text handed to the model: the memory prompt and a blank line when
      there is one, then the context window. */
  function FullContext(prompt: string, window: string): string {
    (if prompt != "" then prompt + "\n\n" else "") + window
  }

  /** `get_chunk_with_context` on values. */
  function ChunkWithContext(chunks: seq<TextChunk>, i: int, prompt: string): Option<(TextChunk, string)> {
    match PyIndex(chunks, i)
    case None => None
    case Some(c) => Some((c, FullContext(prompt, ContextWindow(chunks, i, 1))))
  }

  /** Whatever the prompt or the window contains, the full context contains. */
  lemma FullContextContains(prompt: string, window: string, t: string)
    requires Contains(prompt, t) || Contains(window, t)
    ensures Contains(FullContext(prompt, window), t)
  {
    var head := if prompt != "" then prompt + "\n\n" else "";
    var full := FullContext(prompt, window);
    assert full == head + window;
    if Contains(window, t) {
      assert full[|head|..|head| + |window|] == window;
      ContainsInPiece(full, |head|, |head| + |window|, t);
    } else {
      assert prompt != "" by {
        ContainsIff(prompt, t);
      }
      assert full[..|prompt|] == prompt;
      ContainsInPiece(full, 0, |prompt|, t);
    }
  }

  /** For every existing chunk the context holds its own text and the text
      of the chunk before it, and the memory prompt holds every remembered
      character's name. */
  lemma ChunkWithContextHolds(chunks: seq<TextChunk>, i: int, d: ODict<CharacterMemory>, gc: GlobalContext)
    requires 0 <= i < |chunks|
    requires forall k :: k in d.keys ==> k in d.items
    ensures var r := ChunkWithContext(chunks, i, ContextPrompt(d, gc));
      r.Some? && r.value.0 == chunks[i] &&
      Contains(r.value.1, chunks[i].content) &&
      (i >= 1 ==> Contains(r.value.1, chunks[i - 1].content)) &&
      (forall id :: id in d.keys ==> Contains(r.value.1, d.items[id].name))
  {
    var prompt := ContextPrompt(d, gc);
    var w := ContextWindow(chunks, i, 1);
    ContextWindowHolds(chunks, i, 1);
    FullContextContains(prompt, w, chunks[i].content);
    if i >= 1 {
      FullContextContains(prompt, w, chunks[i - 1].content);
    }
    forall id | id in d.keys ensures Contains(FullContext(prompt, w), d.items[id].name) {
      NamesInPrompt(d, gc, id);
      FullContextContains(prompt, w, d.items[id].name);
    }
  }

  /** A chunk that is not there (an index past either end) gives no
      context at all; a negative index that exists gets only the memory
      prompt, as the window loop runs over an empty range. */
  lemma NegativeIndexWindow(chunks: seq<TextChunk>, i: int, prompt: string)
    requires -|chunks| <= i < 0
    ensures ChunkWithContext(chunks, i, prompt) == Some((chunks[|chunks| + i], FullContext(prompt, "")))
  {
    assert Contents(chunks, 0, i + 1) == [];
  }

  class ChunkingPipeline {
    var reader: NovelReader
    var memoryBank: MemoryBank
    var processedChunks: seq<int>

    ghost predicate Valid()
      reads this, memoryBank
    {
      memoryBank.Valid()
    }

    constructor (maxChunkSize: int)
      ensures Valid() && fresh(reader) && fresh(memoryBank)
      ensures reader.maxChunkSize == maxChunkSize && reader.overlapSize == PipelineOverlap && reader.chunks == []
      ensures memoryBank.characterMemories == Empty() && memoryBank.globalContext == InitialContext()
      ensures processedChunks == []
    {
      reader := new NovelReader(maxChunkSize, PipelineOverlap);
      memoryBank := new MemoryBank();
      processedChunks := [];
    }

    /** `load_novel`, with the file's text given: the reader's split. */
    method LoadNovel(text: string) returns (r: seq<TextChunk>)
      requires reader.maxChunkSize >= 1 || KeptBoundaries(text) != [] || text == []
      modifies reader`chunks
      ensures r == ChapterSplit(text, reader.maxChunkSize, reader.overlapSize) && reader.chunks == r
    {
      r := reader.SplitByChapters(text);
    }

    /** `get_chunk_with_context`: None stands for the IndexError. */
    method GetChunkWithContext(chunkIndex: int) returns (r: Option<(TextChunk, string)>)
      requires Valid()
      ensures r == ChunkWithContext(reader.chunks, chunkIndex, ContextPrompt(memoryBank.characterMemories, memoryBank.globalContext))
    {
      var chunk := PyIndex(reader.chunks, chunkIndex);
      if chunk.None? {
        return None;
      }
      var context := reader.GetContextWindow(chunkIndex, 1);
      var memoryContext := memoryBank.ToContextPrompt();
      var fullContext := "";
      if memoryContext != "" {
        fullContext := fullContext + memoryContext + "\n\n";
        assert fullContext == memoryContext + "\n\n";
      }
      fullContext := fullContext + context;
      assert fullContext == FullContext(memoryContext, context);
      r := Some((chunk.value, fullContext));
    }

    method MarkProcessed(chunkIndex: int)
      modifies `processedChunks
      ensures processedChunks == old(processedChunks) + [chunkIndex]
    {
      processedChunks := processedChunks + [chunkIndex];
    }

    /** `save_checkpoint`, without the file: the bank's document. */
    function SaveCheckpoint(): BankDoc
      reads this, memoryBank
    {
      memoryBank.Save()
    }

    /** `load_checkpoint`, with the parsed file as `doc`. */
    method LoadCheckpoint(doc: Option<BankDoc>) returns (ok: bool)
      requires Valid() && WellFormedDoc(doc)
      modifies memoryBank`characterMemories, memoryBank`globalContext
      ensures Valid()
      ensures (memoryBank.characterMemories, memoryBank.globalContext, ok) ==
        LoadDoc(old(memoryBank.characterMemories), old(memoryBank.globalContext), doc)
    {
      ok := memoryBank.Load(doc);
    }
  }
}
