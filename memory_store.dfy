/** The character memory store of the vector store: every trait, goal,
    description and appearance of a character is a fragment with its own
    TF-IDF vector, refitted lazily when fragments were added, searched by
    cosine similarity and condensed into a digest. */
module MemoryStore {
  import opened Common
  import opened OrderedMaps
  import opened StableSort
  import opened Tfidf

  datatype VectorizedMemory = VectorizedMemory(
    memoryId: string,
    characterId: string,
    characterName: string,
    content: string,
    vector: SparseVec,
    metadata: map<string, string>)

  /** `math.log` is positive above 1; the ranking divides by it. */
  ghost predicate LnPositive(ln: real -> real) {
    forall x :: x > 1.0 ==> ln(x) > 0.0
  }

  // ---------------------------------------------------------------------
  // Adding fragments

  /** `vectors_by_character[k].append(x)` on a `defaultdict(list)`. */
  function Append(d: ODict<seq<string>>, k: string, x: string): (r: ODict<seq<string>>)
    requires Valid(d)
    ensures Valid(r)
  {
    Put(d, k, (if k in d.items then d.items[k] else []) + [x])
  }

  /** `get(k, [])`. */
  function ListOf(d: ODict<seq<string>>, k: string): seq<string> {
    if k in d.items then d.items[k] else []
  }

  /** `(f"{cid}{tag}{i}", f"{name}{head}{x}")` for every `x` of `xs`. */
  function Labelled(idPrefix: string, contentPrefix: string, xs: seq<string>): (r: seq<(string, string)>)
    ensures |r| == |xs|
    ensures forall i :: 0 <= i < |xs| ==> r[i] == (idPrefix + NatToString(i), contentPrefix + xs[i])
  {
    seq(|xs|, i requires 0 <= i < |xs| => (idPrefix + NatToString(i), contentPrefix + xs[i]))
  }

  /** The fragments `add_character_memories` creates, in order. */
  function Fragments(cid: string, name: string, traits: seq<string>, goals: seq<string>,
                     descriptions: seq<string>, appearances: seq<string>): seq<(string, string)>
  {
    Labelled(cid + "_trait_", name + "的特质：", traits) +
    Labelled(cid + "_goal_", name + "的目标：", goals) +
    Labelled(cid + "_desc_", name + "的描述：", descriptions) +
    Labelled(cid + "_app_", name + "的外貌：", appearances)
  }

  /** The memory of one fragment, its vector still empty. */
  function FragmentMemory(cid: string, name: string, frag: (string, string), metadata: map<string, string>): VectorizedMemory {
    VectorizedMemory(frag.0, cid, name, frag.1, Empty(), metadata)
  }

  /** The fragments' memories stored one by one, as `add_memory` does:
      a repeated id is overwritten. */
  function StoredFragments(mems: ODict<VectorizedMemory>, cid: string, name: string,
                           frags: seq<(string, string)>, metadata: map<string, string>): (r: ODict<VectorizedMemory>)
    requires Valid(mems)
    ensures Valid(r)
  {
    if frags == [] then mems
    else
      var f := frags[|frags| - 1];
      Put(StoredFragments(mems, cid, name, frags[..|frags| - 1], metadata), f.0, FragmentMemory(cid, name, f, metadata))
  }

  /** The character lists after the fragments: all their ids appended to
      the character's list, also ids it already holds; the other lists
      untouched. */
  function ListedFragments(byChar: ODict<seq<string>>, cid: string, frags: seq<(string, string)>): (r: ODict<seq<string>>)
    requires Valid(byChar)
    ensures Valid(r)
  {
    if frags == [] then byChar else Put(byChar, cid, ListOf(byChar, cid) + Ids(frags))
  }

  function Ids(frags: seq<(string, string)>): (r: seq<string>)
    ensures |r| == |frags| && forall i :: 0 <= i < |frags| ==> r[i] == frags[i].0
  {
    seq(|frags|, i requires 0 <= i < |frags| => frags[i].0)
  }

  /** The fragments' contents, which join the corpus. */
  function Texts(frags: seq<(string, string)>): (r: seq<string>)
    ensures |r| == |frags| && forall i :: 0 <= i < |frags| ==> r[i] == frags[i].1
  {
    seq(|frags|, i requires 0 <= i < |frags| => frags[i].1)
  }

  /** Storing one fragment more. */
  lemma StoredStep(mems: ODict<VectorizedMemory>, cid: string, name: string,
                   frags: seq<(string, string)>, f: (string, string), metadata: map<string, string>)
    requires Valid(mems)
    ensures StoredFragments(mems, cid, name, frags + [f], metadata) ==
      Put(StoredFragments(mems, cid, name, frags, metadata), f.0, FragmentMemory(cid, name, f, metadata))
  {
    assert (frags + [f])[..|frags|] == frags;
  }

  lemma TextsStep(frags: seq<(string, string)>, f: (string, string))
    ensures Texts(frags + [f]) == Texts(frags) + [f.1]
  {
  }

  /** Appending one id after the fragments' ids is listing one fragment more. */
  lemma ListedStep(byChar: ODict<seq<string>>, cid: string, frags: seq<(string, string)>, f: (string, string))
    requires Valid(byChar)
    ensures ListedFragments(byChar, cid, frags + [f]) == Append(ListedFragments(byChar, cid, frags), cid, f.0)
  {
    assert Ids(frags + [f]) == Ids(frags) + [f.0];
    var l := ListOf(byChar, cid);
    if frags != [] {
      var inner := Put(byChar, cid, l + Ids(frags));
      assert inner.items[cid := l + Ids(frags) + [f.0]] == byChar.items[cid := l + Ids(frags) + [f.0]];
      assert ListOf(inner, cid) == l + Ids(frags);
      var outer := Put(byChar, cid, l + Ids(frags + [f]));
      assert ListedFragments(byChar, cid, frags + [f]) == outer;
      assert Append(inner, cid, f.0) == Put(inner, cid, l + Ids(frags) + [f.0]);
      assert outer.keys == inner.keys;
      assert l + Ids(frags + [f]) == l + Ids(frags) + [f.0];
    } else {
      assert Ids(frags + [f]) == [f.0];
    }
  }

  /** The id of a fragment not repeated later holds that fragment's memory. */
  lemma {:induction false} AddFragmentsStores(mems: ODict<VectorizedMemory>, cid: string, name: string,
                                              frags: seq<(string, string)>, metadata: map<string, string>, k: int)
    requires Valid(mems)
    requires 0 <= k < |frags| && forall j :: k < j < |frags| ==> frags[j].0 != frags[k].0
    ensures var m := StoredFragments(mems, cid, name, frags, metadata);
      frags[k].0 in m.items && m.items[frags[k].0] == FragmentMemory(cid, name, frags[k], metadata)
  {
    var p := frags[..|frags| - 1];
    if k < |p| {
      assert frags[k] == p[k];
      forall j | k < j < |p| ensures p[j].0 != p[k].0 {
        assert p[j] == frags[j];
      }
      AddFragmentsStores(mems, cid, name, p, metadata, k);
    }
  }

  /** Memories of ids that are not among the fragments' are untouched. */
  lemma {:induction false} AddFragmentsKeeps(mems: ODict<VectorizedMemory>, cid: string, name: string,
                                             frags: seq<(string, string)>, metadata: map<string, string>, id: string)
    requires Valid(mems) && id !in Ids(frags)
    ensures var m := StoredFragments(mems, cid, name, frags, metadata);
      (id in m.items <==> id in mems.items) && (id in mems.items ==> m.items[id] == mems.items[id])
  {
    if frags != [] {
      var p := frags[..|frags| - 1];
      assert Ids(frags) == Ids(p) + [frags[|frags| - 1].0];
      AddFragmentsKeeps(mems, cid, name, p, metadata, id);
    }
  }

  /** The state after the first `i + 1` fragments is the state after the
      first `i` with fragment `i` added. */
  lemma FragmentStep(mems: ODict<VectorizedMemory>, byChar: ODict<seq<string>>, cid: string, name: string,
                     frags: seq<(string, string)>, i: nat, metadata: map<string, string>)
    requires Valid(mems) && Valid(byChar) && i < |frags|
    ensures StoredFragments(mems, cid, name, frags[..i + 1], metadata) ==
      Put(StoredFragments(mems, cid, name, frags[..i], metadata), frags[i].0, FragmentMemory(cid, name, frags[i], metadata))
    ensures ListedFragments(byChar, cid, frags[..i + 1]) == Append(ListedFragments(byChar, cid, frags[..i]), cid, frags[i].0)
    ensures Texts(frags[..i + 1]) == Texts(frags[..i]) + [frags[i].1]
  {
    assert frags[..i + 1] == frags[..i] + [frags[i]];
    StoredStep(mems, cid, name, frags[..i], frags[i], metadata);
    TextsStep(frags[..i], frags[i]);
    ListedStep(byChar, cid, frags[..i], frags[i]);
  }

  // ---------------------------------------------------------------------
  // Refitting

  /** The memories under `keys` given their vectors under `idf`, one
      key after the other. */
  function Revectorize(d: ODict<VectorizedMemory>, idf: map<string, real>, keys: seq<string>): (r: ODict<VectorizedMemory>)
    ensures r.keys == d.keys && r.items.Keys == d.items.Keys
  {
    if keys == [] then d
    else
      var e := Revectorize(d, idf, keys[..|keys| - 1]);
      var k := keys[|keys| - 1];
      if k in e.items then ODict(e.keys, e.items[k := e.items[k].(vector := TfIdf(idf, e.items[k].content))]) else e
  }

  /** Revectorizing one key more. */
  lemma RevectorizeStep(d: ODict<VectorizedMemory>, idf: map<string, real>, keys: seq<string>, i: nat)
    requires i < |keys| && keys[i] in d.items
    ensures var e := Revectorize(d, idf, keys[..i]);
      keys[i] in e.items &&
      Revectorize(d, idf, keys[..i + 1]) == ODict(e.keys, e.items[keys[i] := e.items[keys[i]].(vector := TfIdf(idf, e.items[keys[i]].content))])
  {
    assert keys[..i + 1][..i] == keys[..i];
  }

  /** Every memory with its vector recomputed under `idf`. */
  function Revectorized(d: ODict<VectorizedMemory>, idf: map<string, real>): ODict<VectorizedMemory> {
    Revectorize(d, idf, d.keys)
  }

  /** After the refit every memory carries the vector of its own content,
      and nothing else about it changed. */
  lemma {:induction false} RevectorizeFacts(d: ODict<VectorizedMemory>, idf: map<string, real>, keys: seq<string>, k: string)
    requires Distinct(keys) && k in d.items
    ensures var r := Revectorize(d, idf, keys);
      r.items[k] == if k in keys then d.items[k].(vector := TfIdf(idf, d.items[k].content)) else d.items[k]
  {
    if keys != [] {
      var p := keys[..|keys| - 1];
      assert Distinct(p) by {
        forall i, j | 0 <= i < j < |p| ensures p[i] != p[j] {
          assert p[i] == keys[i] && p[j] == keys[j];
        }
      }
      RevectorizeFacts(d, idf, p, k);
      assert keys == p + [keys[|keys| - 1]];
    }
  }

  lemma RevectorizedFacts(d: ODict<VectorizedMemory>, idf: map<string, real>, k: string)
    requires Valid(d) && k in d.items
    ensures Revectorized(d, idf).keys == d.keys && Revectorized(d, idf).items.Keys == d.items.Keys
    ensures Revectorized(d, idf).items[k] == d.items[k].(vector := TfIdf(idf, d.items[k].content))
  {
    RevectorizeFacts(d, idf, d.keys, k);
  }

  // ---------------------------------------------------------------------
  // Search by query

  function NegScore(p: (VectorizedMemory, real)): real {
    -p.1
  }

  /** The memory passes the character filter (an empty filter passes all). */
  predicate Passes(filter: seq<string>, m: VectorizedMemory) {
    filter == [] || m.characterId in filter
  }

  /** The `scores` loop of `search_by_query` over the keys `keys`. */
  function Candidates(sqrt: real -> real, mems: ODict<VectorizedMemory>, keys: seq<string>, qv: SparseVec, filter: seq<string>): (r: seq<(VectorizedMemory, real)>)
    requires forall k :: k in keys ==> k in mems.items
    ensures |r| <= |keys|
  {
    if keys == [] then []
    else
      var m := mems.items[keys[|keys| - 1]];
      Candidates(sqrt, mems, keys[..|keys| - 1], qv, filter) +
      (if !Passes(filter, m) || m.vector.items == map[] then [] else [(m, Cosine(sqrt, qv, m.vector))])
  }

  /** A scored memory of the store that passes the filter, has a vector,
      and carries its cosine similarity to the query. */
  ghost predicate Scored(sqrt: real -> real, mems: ODict<VectorizedMemory>, qv: SparseVec, filter: seq<string>, p: (VectorizedMemory, real)) {
    (exists k :: k in mems.items && mems.items[k] == p.0) &&
    Passes(filter, p.0) && p.0.vector.items != map[] && p.1 == Cosine(sqrt, qv, p.0.vector)
  }

  lemma {:induction false} CandidatesScored(sqrt: real -> real, mems: ODict<VectorizedMemory>, keys: seq<string>, qv: SparseVec, filter: seq<string>)
    requires forall k :: k in keys ==> k in mems.items
    ensures forall p :: p in Candidates(sqrt, mems, keys, qv, filter) ==> Scored(sqrt, mems, qv, filter, p)
  {
    if keys != [] {
      CandidatesScored(sqrt, mems, keys[..|keys| - 1], qv, filter);
    }
  }

  /** The keys whose memory passes the filter and has a vector, in store
      order. */
  function EligibleKeys(mems: ODict<VectorizedMemory>, keys: seq<string>, filter: seq<string>): (r: seq<string>)
    requires forall k :: k in keys ==> k in mems.items
    ensures forall k :: k in r <==> k in keys && Passes(filter, mems.items[k]) && mems.items[k].vector.items != map[]
  {
    if keys == [] then []
    else
      var p, k := keys[..|keys| - 1], keys[|keys| - 1];
      assert forall x :: x in keys <==> x in p || x == k;
      EligibleKeys(mems, p, filter) + (if Passes(filter, mems.items[k]) && mems.items[k].vector.items != map[] then [k] else [])
  }

  /** No key is eligible twice when the store lists each key once. */
  lemma {:induction false} EligibleKeysDistinct(mems: ODict<VectorizedMemory>, keys: seq<string>, filter: seq<string>)
    requires forall k :: k in keys ==> k in mems.items
    requires Distinct(keys)
    ensures Distinct(EligibleKeys(mems, keys, filter))
  {
    if keys != [] {
      var p, k := keys[..|keys| - 1], keys[|keys| - 1];
      assert Distinct(p) by {
        forall i, j | 0 <= i < j < |p| ensures p[i] != p[j] {
          assert p[i] == keys[i] && p[j] == keys[j];
        }
      }
      EligibleKeysDistinct(mems, p, filter);
      var e := EligibleKeys(mems, p, filter);
      assert k !in p by {
        forall i | 0 <= i < |p| ensures p[i] != k {
          assert p[i] == keys[i] && k == keys[|keys| - 1];
        }
      }
      var r := EligibleKeys(mems, keys, filter);
      forall i, j | 0 <= i < j < |r| ensures r[i] != r[j] {
        if j < |e| {
          assert r[i] == e[i] && r[j] == e[j];
        } else {
          assert r[i] == e[i] && r[j] == k;
        }
      }
    }
  }

  /** The scores list holds, in store order, one entry for every memory that
      passes the filter and has a vector: the memory with its cosine
      similarity to the query. */
  lemma {:induction false} CandidatesComplete(sqrt: real -> real, mems: ODict<VectorizedMemory>, keys: seq<string>, qv: SparseVec, filter: seq<string>)
    requires forall k :: k in keys ==> k in mems.items
    ensures var c, e := Candidates(sqrt, mems, keys, qv, filter), EligibleKeys(mems, keys, filter);
      |c| == |e| &&
      forall i :: 0 <= i < |c| ==> c[i] == (mems.items[e[i]], Cosine(sqrt, qv, mems.items[e[i]].vector))
  {
    if keys != [] {
      CandidatesComplete(sqrt, mems, keys[..|keys| - 1], qv, filter);
    }
  }

  /** A prefix of the stable sort by ascending key: at most `k` elements of
      `s` (all of them when `k` is at least their number), ordered by key, no
      element left out with a smaller key than one taken, and for each key
      the elements taken are the earliest in `s` with that key. */
  lemma TopK<T>(s: seq<T>, key: T -> real, k: int)
    ensures var r := TakePy(SortBy(s, key), k);
      (k >= 0 ==> |r| == if k < |s| then k else |s|) &&
      SortedBy(r, key) &&
      multiset(r) <= multiset(s) &&
      (k >= |s| ==> multiset(r) == multiset(s)) &&
      (forall x, y :: x in s && x !in r && y in r ==> key(y) <= key(x)) &&
      (forall v :: WithKey(r, key, v) <= WithKey(s, key, v))
  {
    TopKShape(s, key, k);
    TopKBest(s, key, k);
    TopKStable(s, key, k);
  }

  lemma TopKShape<T>(s: seq<T>, key: T -> real, k: int)
    ensures var r := TakePy(SortBy(s, key), k);
      (k >= 0 ==> |r| == if k < |s| then k else |s|) &&
      SortedBy(r, key) &&
      multiset(r) <= multiset(s) &&
      (k >= |s| ==> multiset(r) == multiset(s))
  {
    var sorted := SortBy(s, key);
    SortByCorrect(s, key);
    SortByLength(s, key);
    var r := TakePy(sorted, k);
    var rest := sorted[|r|..];
    assert sorted == r + rest;
    assert multiset(sorted) == multiset(r) + multiset(rest);
    forall i, j | 0 <= i < j < |r| ensures key(r[i]) <= key(r[j]) {
      assert r[i] == sorted[i] && r[j] == sorted[j];
    }
    if k >= |s| {
      assert r == sorted;
    }
  }

  lemma TopKBest<T>(s: seq<T>, key: T -> real, k: int)
    ensures var r := TakePy(SortBy(s, key), k);
      forall x, y :: x in s && x !in r && y in r ==> key(y) <= key(x)
  {
    var sorted := SortBy(s, key);
    SortByCorrect(s, key);
    var r := TakePy(sorted, k);
    assert r <= sorted;
    assert forall t :: 0 <= t < |r| ==> r[t] == sorted[t];
    forall x, y | x in s && x !in r && y in r ensures key(y) <= key(x) {
      assert x in multiset(s);
      assert x in multiset(sorted);
      var j :| 0 <= j < |sorted| && sorted[j] == x;
      var i :| 0 <= i < |r| && r[i] == y;
      assert sorted[i] == y;
      assert i < j;
    }
  }

  lemma TopKStable<T>(s: seq<T>, key: T -> real, k: int)
    ensures var r := TakePy(SortBy(s, key), k);
      forall v :: WithKey(r, key, v) <= WithKey(s, key, v)
  {
    var sorted := SortBy(s, key);
    SortByCorrect(s, key);
    var r := TakePy(sorted, k);
    var rest := sorted[|r|..];
    assert sorted == r + rest;
    forall v ensures WithKey(r, key, v) <= WithKey(s, key, v) {
      WithKeyAppend(r, rest, key, v);
    }
  }

  /** Search as a top-k retrieval: as many results as candidates up to
      `top_k`, taken from the candidates, none left out scoring above one
      returned, and equal scores in store order. */
  lemma SearchTopK(sqrt: real -> real, mems: ODict<VectorizedMemory>, vocabulary: map<string, int>, idf: map<string, real>,
                   query: string, topK: int, filter: seq<string>)
    requires Valid(mems)
    requires !(mems.keys == [] || vocabulary == map[] || TfIdf(idf, query).items == map[])
    ensures var r := SearchResults(sqrt, mems, vocabulary, idf, query, topK, filter);
      var c := Candidates(sqrt, mems, mems.keys, TfIdf(idf, query), filter);
      (topK >= 0 ==> |r| == if topK < |c| then topK else |c|) &&
      multiset(r) <= multiset(c) &&
      (forall p, q :: p in c && p !in r && q in r ==> q.1 >= p.1) &&
      (forall v :: WithKey(r, NegScore, v) <= WithKey(c, NegScore, v))
  {
    var c := Candidates(sqrt, mems, mems.keys, TfIdf(idf, query), filter);
    var r := SearchResults(sqrt, mems, vocabulary, idf, query, topK, filter);
    assert r == TakePy(SortBy(c, NegScore), topK);
    TopKShape(c, NegScore, topK);
    TopKStable(c, NegScore, topK);
    TopKBest(c, NegScore, topK);
    forall p, q | p in c && p !in r && q in r ensures q.1 >= p.1 {
      assert NegScore(q) <= NegScore(p);
    }
  }

  /** `search_by_query` on the state after the refit. */
  function SearchResults(sqrt: real -> real, mems: ODict<VectorizedMemory>, vocabulary: map<string, int>, idf: map<string, real>,
                         query: string, topK: int, filter: seq<string>): seq<(VectorizedMemory, real)>
    requires Valid(mems)
  {
    if mems.keys == [] || vocabulary == map[] then []
    else
      var qv := TfIdf(idf, query);
      if qv.items == map[] then []
      else TakePy(SortBy(Candidates(sqrt, mems, mems.keys, qv, filter), NegScore), topK)
  }

  /** At most `top_k` results, in descending similarity, each a memory of
      the store that passes the filter and has a vector, with its cosine
      similarity to the query; none for an empty store, vocabulary or query
      vector. */
  lemma SearchFacts(sqrt: real -> real, mems: ODict<VectorizedMemory>, vocabulary: map<string, int>, idf: map<string, real>,
                    query: string, topK: int, filter: seq<string>)
    requires Valid(mems)
    ensures var r := SearchResults(sqrt, mems, vocabulary, idf, query, topK, filter);
      (topK >= 0 ==> |r| <= topK) &&
      (forall i, j :: 0 <= i < j < |r| ==> r[i].1 >= r[j].1) &&
      (forall p :: p in r ==> Scored(sqrt, mems, TfIdf(idf, query), filter, p)) &&
      (mems.keys == [] || vocabulary == map[] || TfIdf(idf, query).items == map[] ==> r == []) &&
      (!(mems.keys == [] || vocabulary == map[] || TfIdf(idf, query).items == map[]) ==>
        var c := Candidates(sqrt, mems, mems.keys, TfIdf(idf, query), filter);
        (topK >= 0 ==> |r| == if topK < |c| then topK else |c|) &&
        multiset(r) <= multiset(c) &&
        (forall p, q :: p in c && p !in r && q in r ==> q.1 >= p.1) &&
        (forall v :: WithKey(r, NegScore, v) <= WithKey(c, NegScore, v)))
  {
    SearchOrdered(sqrt, mems, vocabulary, idf, query, topK, filter);
    SearchScored(sqrt, mems, vocabulary, idf, query, topK, filter);
    if !(mems.keys == [] || vocabulary == map[] || TfIdf(idf, query).items == map[]) {
      SearchTopK(sqrt, mems, vocabulary, idf, query, topK, filter);
    }
  }

  lemma SearchOrdered(sqrt: real -> real, mems: ODict<VectorizedMemory>, vocabulary: map<string, int>, idf: map<string, real>,
                      query: string, topK: int, filter: seq<string>)
    requires Valid(mems)
    ensures var r := SearchResults(sqrt, mems, vocabulary, idf, query, topK, filter);
      forall i, j :: 0 <= i < j < |r| ==> r[i].1 >= r[j].1
  {
    var r := SearchResults(sqrt, mems, vocabulary, idf, query, topK, filter);
    var qv := TfIdf(idf, query);
    if !(mems.keys == [] || vocabulary == map[] || qv.items == map[]) {
      var c := Candidates(sqrt, mems, mems.keys, qv, filter);
      var sorted := SortBy(c, NegScore);
      SortByCorrect(c, NegScore);
      assert r == TakePy(sorted, topK);
      forall i, j | 0 <= i < j < |r| ensures r[i].1 >= r[j].1 {
        assert r[i] == sorted[i] && r[j] == sorted[j];
        assert NegScore(sorted[i]) <= NegScore(sorted[j]);
      }
    }
  }

  lemma SearchScored(sqrt: real -> real, mems: ODict<VectorizedMemory>, vocabulary: map<string, int>, idf: map<string, real>,
                     query: string, topK: int, filter: seq<string>)
    requires Valid(mems)
    ensures var r := SearchResults(sqrt, mems, vocabulary, idf, query, topK, filter);
      forall p :: p in r ==> Scored(sqrt, mems, TfIdf(idf, query), filter, p)
  {
    var r := SearchResults(sqrt, mems, vocabulary, idf, query, topK, filter);
    var qv := TfIdf(idf, query);
    if !(mems.keys == [] || vocabulary == map[] || qv.items == map[]) {
      var c := Candidates(sqrt, mems, mems.keys, qv, filter);
      var sorted := SortBy(c, NegScore);
      SortByCorrect(c, NegScore);
      CandidatesScored(sqrt, mems, mems.keys, qv, filter);
      assert r == TakePy(sorted, topK);
      forall p | p in r ensures Scored(sqrt, mems, qv, filter, p) {
        assert p in multiset(sorted);
        assert p in c;
      }
    }
  }

  // ---------------------------------------------------------------------
  // Characters in a text

  /** A fragment counts for its character when its similarity exceeds 0.1. */
  const Threshold: real := 0.1

  /** The aggregation loop of `search_characters_in_text` over `keys`:
      per character the summed similarities and the number of counted
      fragments, both keyed in order of the first counted fragment. */
  function Aggregate(sqrt: real -> real, mems: ODict<VectorizedMemory>, keys: seq<string>, qv: SparseVec): (r: (ODict<real>, ODict<nat>))
    requires forall k :: k in keys ==> k in mems.items
    ensures Valid(r.0) && Valid(r.1) && r.0.keys == r.1.keys
  {
    if keys == [] then (Empty(), Empty())
    else
      var acc := Aggregate(sqrt, mems, keys[..|keys| - 1], qv);
      Tally(sqrt, acc.0, acc.1, mems.items[keys[|keys| - 1]], qv)
  }

  /** One memory's contribution to the aggregation: nothing without a
      vector, else its similarity to the query counts for its character. */
  function Tally(sqrt: real -> real, scores: ODict<real>, counts: ODict<nat>, m: VectorizedMemory, qv: SparseVec): (r: (ODict<real>, ODict<nat>))
    requires Valid(scores) && Valid(counts) && scores.keys == counts.keys
    ensures Valid(r.0) && Valid(r.1) && r.0.keys == r.1.keys
  {
    if m.vector.items == map[] then (scores, counts)
    else Credit(scores, counts, m.characterId, Cosine(sqrt, qv, m.vector))
  }

  /** A similarity above the threshold adds to the character's score and
      count, a new character going last in both. */
  function Credit(scores: ODict<real>, counts: ODict<nat>, c: string, sim: real): (r: (ODict<real>, ODict<nat>))
    requires Valid(scores) && Valid(counts) && scores.keys == counts.keys
    ensures Valid(r.0) && Valid(r.1) && r.0.keys == r.1.keys
  {
    (CreditScore(scores, c, sim), CreditCount(counts, c, sim))
  }

  function CreditScore(scores: ODict<real>, c: string, sim: real): (r: ODict<real>)
    requires Valid(scores)
    ensures Valid(r)
    ensures r.keys == if sim > Threshold && c !in scores.items then scores.keys + [c] else scores.keys
  {
    if sim > Threshold then AddScore(scores, c, sim) else scores
  }

  function CreditCount(counts: ODict<nat>, c: string, sim: real): (r: ODict<nat>)
    requires Valid(counts)
    ensures Valid(r)
    ensures r.keys == if sim > Threshold && c !in counts.items then counts.keys + [c] else counts.keys
  {
    if sim > Threshold then AddCount(counts, c) else counts
  }

  /** `scores[c] += x` on a `defaultdict(float)`. */
  function AddScore(scores: ODict<real>, c: string, x: real): (r: ODict<real>)
    requires Valid(scores)
    ensures Valid(r)
    ensures r.keys == if c in scores.items then scores.keys else scores.keys + [c]
    ensures r.items == scores.items[c := (if c in scores.items then scores.items[c] else 0.0) + x]
  {
    Put(scores, c, (if c in scores.items then scores.items[c] else 0.0) + x)
  }

  /** `counts[c] += 1` on a `defaultdict(int)`. */
  function AddCount(counts: ODict<nat>, c: string): (r: ODict<nat>)
    requires Valid(counts)
    ensures Valid(r)
    ensures r.keys == if c in counts.items then counts.keys else counts.keys + [c]
    ensures r.items == counts.items[c := (if c in counts.items then counts.items[c] else 0) + 1]
  {
    Put(counts, c, (if c in counts.items then counts.items[c] else 0) + 1)
  }

  /** One more key of the aggregation loop. */
  lemma AggregateNext(sqrt: real -> real, mems: ODict<VectorizedMemory>, keys: seq<string>, i: int, qv: SparseVec)
    requires 0 <= i < |keys| && forall k :: k in keys ==> k in mems.items
    ensures var prev, m := Aggregate(sqrt, mems, keys[..i], qv), mems.items[keys[i]];
      var next := Aggregate(sqrt, mems, keys[..i + 1], qv);
      next.0 == (if m.vector.items == map[] then prev.0 else CreditScore(prev.0, m.characterId, Cosine(sqrt, qv, m.vector))) &&
      next.1 == (if m.vector.items == map[] then prev.1 else CreditCount(prev.1, m.characterId, Cosine(sqrt, qv, m.vector)))
  {
    assert keys[..i + 1][..i] == keys[..i];
  }

  /** After one memory, `c` is aggregated when it was before or the memory
      is one of its and counts; a count that was positive stays so and a
      new one is 1. */
  lemma TallyFacts(sqrt: real -> real, scores: ODict<real>, counts: ODict<nat>, m: VectorizedMemory, qv: SparseVec, c: string)
    requires Valid(scores) && Valid(counts) && scores.keys == counts.keys
    ensures var r := Tally(sqrt, scores, counts, m, qv);
      (c in r.1.items <==> c in counts.items || (c == m.characterId && m.vector.items != map[] && Cosine(sqrt, qv, m.vector) > Threshold)) &&
      (c in r.1.items && (c in counts.items ==> counts.items[c] >= 1) ==> r.1.items[c] >= 1)
  {
  }

  /** Some memory under `keys` of character `c` has a vector and counts. */
  ghost predicate CountedFor(sqrt: real -> real, mems: ODict<VectorizedMemory>, keys: seq<string>, qv: SparseVec, c: string) {
    exists k :: k in keys && k in mems.items && mems.items[k].characterId == c &&
      mems.items[k].vector.items != map[] && Cosine(sqrt, qv, mems.items[k].vector) > Threshold
  }

  /** A character is aggregated exactly when one of its fragments counts,
      and then its count is at least 1. */
  lemma {:induction false} AggregateFacts(sqrt: real -> real, mems: ODict<VectorizedMemory>, keys: seq<string>, qv: SparseVec, c: string)
    requires forall k :: k in keys ==> k in mems.items
    ensures var (scores, counts) := Aggregate(sqrt, mems, keys, qv);
      (c in counts.items <==> CountedFor(sqrt, mems, keys, qv, c)) &&
      (c in counts.items ==> counts.items[c] >= 1) &&
      (c in scores.items <==> c in counts.items)
  {
    if keys != [] {
      var p := keys[..|keys| - 1];
      var last := keys[|keys| - 1];
      AggregateFacts(sqrt, mems, p, qv, c);
      var acc := Aggregate(sqrt, mems, p, qv);
      TallyFacts(sqrt, acc.0, acc.1, mems.items[last], qv, c);
      assert forall k :: k in keys <==> k in p || k == last;
      if CountedFor(sqrt, mems, keys, qv, c) && !CountedFor(sqrt, mems, p, qv, c) {
        var k :| k in keys && k in mems.items && mems.items[k].characterId == c &&
          mems.items[k].vector.items != map[] && Cosine(sqrt, qv, mems.items[k].vector) > Threshold;
        assert k == last;
      }
    }
  }

  /** `score / math.log(count + 2)` per aggregated character, in order. */
  function FinalScores(ln: real -> real, scores: ODict<real>, counts: ODict<nat>): (r: seq<(string, real)>)
    requires LnPositive(ln)
    requires forall c :: c in scores.keys ==> c in scores.items && c in counts.items
    ensures |r| == |scores.keys|
    ensures forall i :: 0 <= i < |r| ==> r[i].0 == scores.keys[i]
  {
    seq(|scores.keys|, i requires 0 <= i < |scores.keys| =>
      var c := scores.keys[i];
      assert ln((counts.items[c] + 2) as real) > 0.0;
      (c, scores.items[c] / ln((counts.items[c] + 2) as real)))
  }

  function NegFinal(p: (string, real)): real {
    -p.1
  }

  function FirstOfPairs(ps: seq<(string, real)>): (r: seq<string>)
    ensures |r| == |ps| && forall i :: 0 <= i < |ps| ==> r[i] == ps[i].0
  {
    seq(|ps|, i requires 0 <= i < |ps| => ps[i].0)
  }

  /** `search_characters_in_text` on the state after the refit. */
  function CharacterRanking(ln: real -> real, sqrt: real -> real, mems: ODict<VectorizedMemory>, idf: map<string, real>,
                            text: string, topK: int): seq<string>
    requires Valid(mems) && LnPositive(ln)
  {
    if mems.keys == [] then []
    else
      var (scores, counts) := Aggregate(sqrt, mems, mems.keys, TfIdf(idf, text));
      FirstOfPairs(TakePy(SortBy(FinalScores(ln, scores, counts), NegFinal), topK))
  }

  /** What the ranking takes from the sorted scores are final scores. */
  lemma TakenMembers(f: seq<(string, real)>, topK: int)
    ensures forall x :: x in TakePy(SortBy(f, NegFinal), topK) ==> x in f
  {
    var sorted := SortBy(f, NegFinal);
    SortByCorrect(f, NegFinal);
    forall x | x in TakePy(sorted, topK) ensures x in f {
      assert x in multiset(sorted);
    }
  }

  lemma RankingCounted(ln: real -> real, sqrt: real -> real, mems: ODict<VectorizedMemory>, idf: map<string, real>, text: string, topK: int)
    requires Valid(mems) && LnPositive(ln)
    ensures forall c :: c in CharacterRanking(ln, sqrt, mems, idf, text, topK) ==> CountedFor(sqrt, mems, mems.keys, TfIdf(idf, text), c)
  {
    var r := CharacterRanking(ln, sqrt, mems, idf, text, topK);
    if mems.keys != [] {
      var qv := TfIdf(idf, text);
      var (scores, counts) := Aggregate(sqrt, mems, mems.keys, qv);
      var f := FinalScores(ln, scores, counts);
      var taken := TakePy(SortBy(f, NegFinal), topK);
      assert r == FirstOfPairs(taken);
      TakenMembers(f, topK);
      forall c | c in r ensures CountedFor(sqrt, mems, mems.keys, qv, c) {
        var i :| 0 <= i < |r| && r[i] == c;
        assert taken[i] in f;
        var j :| 0 <= j < |f| && f[j] == taken[i];
        assert c == scores.keys[j];
        AggregateFacts(sqrt, mems, mems.keys, qv, c);
      }
    }
  }

  lemma RankingDistinct(ln: real -> real, sqrt: real -> real, mems: ODict<VectorizedMemory>, idf: map<string, real>, text: string, topK: int)
    requires Valid(mems) && LnPositive(ln)
    ensures Distinct(CharacterRanking(ln, sqrt, mems, idf, text, topK))
  {
    var r := CharacterRanking(ln, sqrt, mems, idf, text, topK);
    if mems.keys != [] {
      var (scores, counts) := Aggregate(sqrt, mems, mems.keys, TfIdf(idf, text));
      var f := FinalScores(ln, scores, counts);
      var sorted := SortBy(f, NegFinal);
      var taken := TakePy(sorted, topK);
      assert r == FirstOfPairs(taken);
      assert DistinctBy(f, PairName) by {
        forall i, j | 0 <= i < j < |f| ensures PairName(f[i]) != PairName(f[j]) {
          assert f[i].0 == scores.keys[i] && f[j].0 == scores.keys[j];
        }
      }
      SortByDistinctBy(f, NegFinal, PairName);
      forall i, j | 0 <= i < j < |r| ensures r[i] != r[j] {
        assert taken[i] == sorted[i] && taken[j] == sorted[j];
        assert PairName(sorted[i]) != PairName(sorted[j]);
      }
    }
  }

  /** The ranking takes the `top_k` best final scores: as many as there are
      aggregated characters up to `top_k`, none left out scoring above one
      taken, and every counted character when `top_k` covers them all. */
  lemma RankingTopK(ln: real -> real, sqrt: real -> real, mems: ODict<VectorizedMemory>, idf: map<string, real>, text: string, topK: int)
    requires Valid(mems) && LnPositive(ln)
    ensures var r := CharacterRanking(ln, sqrt, mems, idf, text, topK);
      var agg := Aggregate(sqrt, mems, mems.keys, TfIdf(idf, text));
      var f := FinalScores(ln, agg.0, agg.1);
      var p := RankedScores(ln, sqrt, mems, idf, text, topK);
      (mems.keys == [] ==> r == []) &&
      (mems.keys != [] ==>
        (topK >= 0 ==> |r| == if topK < |agg.0.keys| then topK else |agg.0.keys|) &&
        (forall x, y :: x in f && x !in p && y in p ==> y.1 >= x.1) &&
        (topK >= |agg.0.keys| ==> forall c :: CountedFor(sqrt, mems, mems.keys, TfIdf(idf, text), c) ==> c in r))
  {
    if mems.keys != [] {
      var qv := TfIdf(idf, text);
      var agg := Aggregate(sqrt, mems, mems.keys, qv);
      var f := FinalScores(ln, agg.0, agg.1);
      var p := RankedScores(ln, sqrt, mems, idf, text, topK);
      assert p == TakePy(SortBy(f, NegFinal), topK);
      assert CharacterRanking(ln, sqrt, mems, idf, text, topK) == FirstOfPairs(p);
      TopKShape(f, NegFinal, topK);
      TopKBest(f, NegFinal, topK);
      forall x, y | x in f && x !in p && y in p ensures y.1 >= x.1 {
        assert NegFinal(y) <= NegFinal(x);
      }
      if topK >= |agg.0.keys| {
        forall c | CountedFor(sqrt, mems, mems.keys, qv, c) ensures c in CharacterRanking(ln, sqrt, mems, idf, text, topK) {
          AggregateFacts(sqrt, mems, mems.keys, qv, c);
          RankingCovers(ln, sqrt, mems, idf, text, topK, c);
        }
      }
    }
  }

  /** With `top_k` covering every aggregated character, each of them is
      ranked. */
  lemma RankingCovers(ln: real -> real, sqrt: real -> real, mems: ODict<VectorizedMemory>, idf: map<string, real>, text: string, topK: int, c: string)
    requires Valid(mems) && LnPositive(ln) && mems.keys != []
    requires topK >= |Aggregate(sqrt, mems, mems.keys, TfIdf(idf, text)).0.keys|
    requires c in Aggregate(sqrt, mems, mems.keys, TfIdf(idf, text)).0.keys
    ensures c in CharacterRanking(ln, sqrt, mems, idf, text, topK)
  {
    var qv := TfIdf(idf, text);
    var agg := Aggregate(sqrt, mems, mems.keys, qv);
    var f := FinalScores(ln, agg.0, agg.1);
    assert CharacterRanking(ln, sqrt, mems, idf, text, topK) == FirstOfPairs(TakePy(SortBy(f, NegFinal), topK));
    assert c in FirstOfPairs(f) by {
      var i :| 0 <= i < |agg.0.keys| && agg.0.keys[i] == c;
      assert FirstOfPairs(f)[i] == c;
    }
    TakenNames(f, topK, c);
  }

  /** With `k` covering all final scores, every scored name is taken. */
  lemma TakenNames(f: seq<(string, real)>, k: int, c: string)
    requires k >= |f| && c in FirstOfPairs(f)
    ensures c in FirstOfPairs(TakePy(SortBy(f, NegFinal), k))
  {
    var i :| 0 <= i < |f| && FirstOfPairs(f)[i] == c;
    TopKAll(f, NegFinal, k, f[i]);
    var p := TakePy(SortBy(f, NegFinal), k);
    var j :| 0 <= j < |p| && p[j] == f[i];
    assert FirstOfPairs(p)[j] == c;
  }

  /** With `k` at least the number of elements, every element is taken. */
  lemma TopKAll<T>(s: seq<T>, key: T -> real, k: int, x: T)
    requires k >= |s| && x in s
    ensures x in TakePy(SortBy(s, key), k)
  {
    TopKShape(s, key, k);
    assert x in multiset(s);
  }

  /** At most `top_k` characters, none twice, in descending final score,
      each with at least one fragment whose similarity to the text is above
      the threshold; the `top_k` best are taken, and all counted characters
      when `top_k` covers them. */
  lemma RankingFacts(ln: real -> real, sqrt: real -> real, mems: ODict<VectorizedMemory>, idf: map<string, real>, text: string, topK: int)
    requires Valid(mems) && LnPositive(ln)
    ensures var r := CharacterRanking(ln, sqrt, mems, idf, text, topK);
      var agg := Aggregate(sqrt, mems, mems.keys, TfIdf(idf, text));
      var p := RankedScores(ln, sqrt, mems, idf, text, topK);
      (topK >= 0 ==> |r| <= topK) &&
      Distinct(r) &&
      (forall c :: c in r ==> CountedFor(sqrt, mems, mems.keys, TfIdf(idf, text), c)) &&
      (mems.keys != [] ==>
        (topK >= 0 ==> |r| == if topK < |agg.0.keys| then topK else |agg.0.keys|) &&
        (forall x, y :: x in FinalScores(ln, agg.0, agg.1) && x !in p && y in p ==> y.1 >= x.1) &&
        (topK >= |agg.0.keys| ==> forall c :: CountedFor(sqrt, mems, mems.keys, TfIdf(idf, text), c) ==> c in r))
  {
    RankingCounted(ln, sqrt, mems, idf, text, topK);
    RankingDistinct(ln, sqrt, mems, idf, text, topK);
    RankingTopK(ln, sqrt, mems, idf, text, topK);
  }

  /** The character ids of the ranking with their final scores. */
  function RankedScores(ln: real -> real, sqrt: real -> real, mems: ODict<VectorizedMemory>, idf: map<string, real>,
                        text: string, topK: int): seq<(string, real)>
    requires Valid(mems) && LnPositive(ln)
  {
    if mems.keys == [] then []
    else
      var (scores, counts) := Aggregate(sqrt, mems, mems.keys, TfIdf(idf, text));
      TakePy(SortBy(FinalScores(ln, scores, counts), NegFinal), topK)
  }

  lemma RankedOrdered(ln: real -> real, sqrt: real -> real, mems: ODict<VectorizedMemory>, idf: map<string, real>,
                      text: string, topK: int)
    requires Valid(mems) && LnPositive(ln)
    ensures var p := RankedScores(ln, sqrt, mems, idf, text, topK);
      forall i, j :: 0 <= i < j < |p| ==> p[i].1 >= p[j].1
  {
    var p := RankedScores(ln, sqrt, mems, idf, text, topK);
    if mems.keys != [] {
      var (scores, counts) := Aggregate(sqrt, mems, mems.keys, TfIdf(idf, text));
      var f := FinalScores(ln, scores, counts);
      var sorted := SortBy(f, NegFinal);
      assert p == TakePy(sorted, topK);
      SortByCorrect(f, NegFinal);
      forall i, j | 0 <= i < j < |p| ensures p[i].1 >= p[j].1 {
        assert p[i] == sorted[i] && p[j] == sorted[j];
        assert NegFinal(sorted[i]) <= NegFinal(sorted[j]);
      }
    }
  }

  /** An entry of the final scores is an aggregated character with its
      damped score. */
  lemma FinalScoresEntry(ln: real -> real, scores: ODict<real>, counts: ODict<nat>, x: (string, real))
    requires LnPositive(ln)
    requires forall c :: c in scores.keys ==> c in scores.items && c in counts.items
    requires x in FinalScores(ln, scores, counts)
    ensures x.0 in scores.items && x.0 in counts.items
    ensures x.1 == scores.items[x.0] / ln((counts.items[x.0] + 2) as real)
  {
    var f := FinalScores(ln, scores, counts);
    var k :| 0 <= k < |f| && f[k] == x;
    assert f[k].0 == scores.keys[k];
  }

  lemma RankedValues(ln: real -> real, sqrt: real -> real, mems: ODict<VectorizedMemory>, idf: map<string, real>,
                     text: string, topK: int)
    requires Valid(mems) && LnPositive(ln) && mems.keys != []
    ensures var p := RankedScores(ln, sqrt, mems, idf, text, topK);
      var agg := Aggregate(sqrt, mems, mems.keys, TfIdf(idf, text));
      var scores, counts := agg.0, agg.1;
      forall i :: 0 <= i < |p| ==>
        p[i].0 in scores.items && p[i].0 in counts.items &&
        p[i].1 == scores.items[p[i].0] / ln((counts.items[p[i].0] + 2) as real)
  {
    var p := RankedScores(ln, sqrt, mems, idf, text, topK);
    var agg := Aggregate(sqrt, mems, mems.keys, TfIdf(idf, text));
    var scores, counts := agg.0, agg.1;
    var f := FinalScores(ln, scores, counts);
    assert p == TakePy(SortBy(f, NegFinal), topK);
    TakenMembers(f, topK);
    forall i | 0 <= i < |p|
      ensures p[i].0 in scores.items && p[i].0 in counts.items
      ensures p[i].1 == scores.items[p[i].0] / ln((counts.items[p[i].0] + 2) as real)
    {
      assert p[i] in f;
      FinalScoresEntry(ln, scores, counts, p[i]);
    }
  }

  /** The ranking is in descending final score, the final score of a
      character being its summed similarity damped by the logarithm of its
      count of fragments plus two. */
  lemma RankingDescending(ln: real -> real, sqrt: real -> real, mems: ODict<VectorizedMemory>, idf: map<string, real>,
                          text: string, topK: int)
    requires Valid(mems) && LnPositive(ln)
    ensures var p := RankedScores(ln, sqrt, mems, idf, text, topK);
      FirstOfPairs(p) == CharacterRanking(ln, sqrt, mems, idf, text, topK) &&
      (forall i, j :: 0 <= i < j < |p| ==> p[i].1 >= p[j].1) &&
      (mems.keys != [] ==>
        var agg := Aggregate(sqrt, mems, mems.keys, TfIdf(idf, text));
        var scores, counts := agg.0, agg.1;
        forall i :: 0 <= i < |p| ==>
          p[i].0 in scores.items && p[i].0 in counts.items &&
          p[i].1 == scores.items[p[i].0] / ln((counts.items[p[i].0] + 2) as real))
  {
    RankedOrdered(ln, sqrt, mems, idf, text, topK);
    if mems.keys != [] {
      RankedValues(ln, sqrt, mems, idf, text, topK);
    }
  }

  function PairName(p: (string, real)): string {
    p.0
  }

  // ---------------------------------------------------------------------
  // Reading memories back

  /** `[memories[mid] for mid in ids if mid in memories]`: exactly the
      stored memories of the listed ids. */
  function Known(mems: ODict<VectorizedMemory>, ids: seq<string>): (r: seq<VectorizedMemory>)
    ensures |r| <= |ids|
    ensures forall m :: m in r ==> exists id :: id in ids && id in mems.items && mems.items[id] == m
  {
    if ids == [] then []
    else (if ids[0] in mems.items then [mems.items[ids[0]]] else []) + Known(mems, ids[1..])
  }

  /** Every stored memory of a listed id is read back. */
  lemma {:induction false} KnownComplete(mems: ODict<VectorizedMemory>, ids: seq<string>)
    ensures forall id :: id in ids && id in mems.items ==> mems.items[id] in Known(mems, ids)
  {
    if ids != [] {
      KnownComplete(mems, ids[1..]);
      assert forall id :: id in ids ==> id == ids[0] || id in ids[1..];
    }
  }

  /** The memories come in listing order: the memories of a list followed
      by another are those of the first list followed by those of the
      second. */
  lemma {:induction false} KnownInOrder(mems: ODict<VectorizedMemory>, a: seq<string>, b: seq<string>)
    ensures Known(mems, a + b) == Known(mems, a) + Known(mems, b)
    decreases |a|
  {
    if a == [] {
      assert a + b == b;
    } else {
      assert (a + b)[0] == a[0] && (a + b)[1..] == a[1..] + b;
      KnownInOrder(mems, a[1..], b);
    }
  }

  /** One listed id gives its stored memory, or nothing. */
  lemma KnownSingle(mems: ODict<VectorizedMemory>, id: string)
    ensures Known(mems, [id]) == if id in mems.items then [mems.items[id]] else []
  {
    assert [id][1..] == [];
  }

  /** `get_character_memories`: the first `limit` stored memories listed
      for the character, in listing order; all of them when `limit` is at
      least the number listed. */
  function CharacterMemories(mems: ODict<VectorizedMemory>, byChar: ODict<seq<string>>, cid: string, limit: int): (r: seq<VectorizedMemory>)
    ensures limit >= 0 ==> |r| <= limit
    ensures forall m :: m in r ==> exists id :: id in ListOf(byChar, cid) && id in mems.items && mems.items[id] == m
    ensures r <= Known(mems, ListOf(byChar, cid))
    ensures limit >= 0 ==> |r| == if limit < |Known(mems, ListOf(byChar, cid))| then limit else |Known(mems, ListOf(byChar, cid))|
    ensures limit >= |ListOf(byChar, cid)| ==> forall id :: id in ListOf(byChar, cid) && id in mems.items ==> mems.items[id] in r
  {
    KnownComplete(mems, ListOf(byChar, cid));
    TakePy(Known(mems, ListOf(byChar, cid)), limit)
  }

  // ---------------------------------------------------------------------
  // Digest

  predicate IsTraitText(c: string) { Contains(c, "特质") }
  predicate IsGoalText(c: string) { !IsTraitText(c) && Contains(c, "目标") }
  predicate IsAppearanceText(c: string) { !IsTraitText(c) && !IsGoalText(c) && Contains(c, "外貌") }
  predicate IsDescriptionText(c: string) { !IsTraitText(c) && !IsGoalText(c) && !IsAppearanceText(c) }

  /** The contents of `mems` of one class, with their label removed. */
  function Pick(mems: seq<VectorizedMemory>, kind: string -> bool, tag: string): (r: seq<string>)
    ensures |r| <= |mems|
  {
    if mems == [] then []
    else (if kind(mems[0].content) then [RemoveAll(mems[0].content, tag)] else []) + Pick(mems[1..], kind, tag)
  }

  /** The line of one class of fragments: none when the class is empty,
      else the header and the first `cap` entries, comma-separated. */
  function ClassLine(header: string, xs: seq<string>, cap: nat): seq<string> {
    if xs != [] then [header + Join(", ", TakePy(xs, cap))] else []
  }

  /** The description line: the first description cut to 50 characters. */
  function DescriptionLine(ds: seq<string>): seq<string> {
    if ds != [] then ["    描述：" + TakePy(ds[0], 50) + "..."] else []
  }

  lemma ClassLineFacts(header: string, xs: seq<string>, cap: nat)
    ensures |ClassLine(header, xs, cap)| == if xs == [] then 0 else 1
    ensures xs != [] ==> ClassLine(header, xs, cap)[0] == header + Join(", ", xs[..if |xs| < cap then |xs| else cap])
  {
    assert TakePy(xs, cap) == xs[..if |xs| < cap then |xs| else cap];
  }

  lemma DescriptionLineFacts(ds: seq<string>)
    ensures |DescriptionLine(ds)| == if ds == [] then 0 else 1
    ensures ds != [] ==> DescriptionLine(ds)[0] == "    描述：" + ds[0][..if |ds[0]| < 50 then |ds[0]| else 50] + "..."
  {
  }

  /** The digest lines of one character. */
  function CharInfo(name: string, mems: seq<VectorizedMemory>): seq<string> {
    var traits := Pick(mems, IsTraitText, name + "的特质：");
    var goals := Pick(mems, IsGoalText, name + "的目标：");
    var appearances := Pick(mems, IsAppearanceText, name + "的外貌：");
    var descriptions := Pick(mems, IsDescriptionText, name + "的描述：");
    ["  " + name] + ClassLine("    特质：", traits, 3) + ClassLine("    目标：", goals, 2) +
    ClassLine("    外貌：", appearances, 2) + DescriptionLine(descriptions)
  }

  lemma {:induction false} PickPartition(mems: seq<VectorizedMemory>, n1: string, n2: string, n3: string, n4: string)
    ensures |Pick(mems, IsTraitText, n1)| + |Pick(mems, IsGoalText, n2)| +
            |Pick(mems, IsAppearanceText, n3)| + |Pick(mems, IsDescriptionText, n4)| == |mems|
  {
    if mems != [] {
      PickPartition(mems[1..], n1, n2, n3, n4);
    }
  }

  /** Every fragment lands in exactly one of the four classes, so a
      character shows at most five lines: its name and one per class. */
  lemma CharInfoShape(name: string, mems: seq<VectorizedMemory>)
    ensures var lines := CharInfo(name, mems);
      1 <= |lines| <= 5 && lines[0] == "  " + name &&
      |Pick(mems, IsTraitText, name + "的特质：")| + |Pick(mems, IsGoalText, name + "的目标：")| +
      |Pick(mems, IsAppearanceText, name + "的外貌：")| + |Pick(mems, IsDescriptionText, name + "的描述：")| == |mems|
  {
    PickPartition(mems, name + "的特质：", name + "的目标：", name + "的外貌：", name + "的描述：");
  }

  /** Each picked entry is the content of a memory of its class with the
      label removed. */
  lemma {:induction false} PickFrom(mems: seq<VectorizedMemory>, kind: string -> bool, tag: string, x: string)
    requires x in Pick(mems, kind, tag)
    ensures exists m :: m in mems && kind(m.content) && x == RemoveAll(m.content, tag)
  {
    if !(kind(mems[0].content) && x == RemoveAll(mems[0].content, tag)) {
      PickFrom(mems[1..], kind, tag, x);
      var m :| m in mems[1..] && kind(m.content) && x == RemoveAll(m.content, tag);
      assert m in mems;
    }
  }

  /** At most three traits, two goals and two appearances are shown, the
      first of each class, and of the descriptions only the first, cut to
      50 characters and followed by "..."; a class without fragments shows
      no line. */
  lemma CharInfoCaps(name: string, mems: seq<VectorizedMemory>)
    ensures var lines := CharInfo(name, mems);
      var traits := Pick(mems, IsTraitText, name + "的特质：");
      var goals := Pick(mems, IsGoalText, name + "的目标：");
      var appearances := Pick(mems, IsAppearanceText, name + "的外貌：");
      var descriptions := Pick(mems, IsDescriptionText, name + "的描述：");
      |lines| == 1 + (if traits != [] then 1 else 0) + (if goals != [] then 1 else 0) +
                     (if appearances != [] then 1 else 0) + (if descriptions != [] then 1 else 0) &&
      (traits != [] ==> lines[1] == "    特质：" + Join(", ", traits[..if |traits| < 3 then |traits| else 3])) &&
      (goals != [] ==> "    目标：" + Join(", ", goals[..if |goals| < 2 then |goals| else 2]) in lines) &&
      (appearances != [] ==> "    外貌：" + Join(", ", appearances[..if |appearances| < 2 then |appearances| else 2]) in lines) &&
      (descriptions != [] ==>
        lines[|lines| - 1] == "    描述：" + descriptions[0][..if |descriptions[0]| < 50 then |descriptions[0]| else 50] + "...")
  {
    var traits := Pick(mems, IsTraitText, name + "的特质：");
    var goals := Pick(mems, IsGoalText, name + "的目标：");
    var appearances := Pick(mems, IsAppearanceText, name + "的外貌：");
    var descriptions := Pick(mems, IsDescriptionText, name + "的描述：");
    ClassLineFacts("    特质：", traits, 3);
    ClassLineFacts("    目标：", goals, 2);
    ClassLineFacts("    外貌：", appearances, 2);
    DescriptionLineFacts(descriptions);
    LinesLayout("  " + name, ClassLine("    特质：", traits, 3), ClassLine("    目标：", goals, 2),
                ClassLine("    外貌：", appearances, 2), DescriptionLine(descriptions));
  }

  /** A header followed by four groups of at most one line each. */
  lemma LinesLayout(h: string, t: seq<string>, g: seq<string>, a: seq<string>, d: seq<string>)
    requires |t| <= 1 && |g| <= 1 && |a| <= 1 && |d| <= 1
    ensures var lines := [h] + t + g + a + d;
      |lines| == 1 + |t| + |g| + |a| + |d| &&
      (t != [] ==> lines[1] == t[0]) &&
      (g != [] ==> g[0] in lines) &&
      (a != [] ==> a[0] in lines) &&
      (d != [] ==> lines[|lines| - 1] == d[0])
  {
    var lines := [h] + t + g + a + d;
    if g != [] {
      assert lines[1 + |t|] == g[0];
    }
    if a != [] {
      assert lines[1 + |t| + |g|] == a[0];
    }
  }

  /** The digest part of one character: none without memories, else its
      lines under the name of its first memory. */
  function Part(mems: ODict<VectorizedMemory>, byChar: ODict<seq<string>>, id: string): seq<string> {
    var ms := CharacterMemories(mems, byChar, id, 5);
    if ms == [] then [] else [Join("\n", CharInfo(ms[0].characterName, ms))]
  }

  /** The per-character parts of `get_summary_for_context`. */
  function SummaryParts(mems: ODict<VectorizedMemory>, byChar: ODict<seq<string>>, ids: seq<string>): seq<string> {
    Flatten(PartsOf(mems, byChar, ids))
  }

  /** The part of each listed character, in order. */
  function PartsOf(mems: ODict<VectorizedMemory>, byChar: ODict<seq<string>>, ids: seq<string>): (r: seq<seq<string>>)
    ensures |r| == |ids| && forall i :: 0 <= i < |ids| ==> r[i] == Part(mems, byChar, ids[i])
  {
    seq(|ids|, i requires 0 <= i < |ids| => Part(mems, byChar, ids[i]))
  }

  /** `get_summary_for_context`. */
  function SummaryForContext(mems: ODict<VectorizedMemory>, byChar: ODict<seq<string>>, ids: seq<string>): string {
    if ids == [] then "" else Join("\n", ["【相关人物记忆】"] + SummaryParts(mems, byChar, ids))
  }

  /** A character's lines name it. */
  lemma InfoHasName(name: string, mems: seq<VectorizedMemory>)
    ensures Contains(Join("\n", CharInfo(name, mems)), name)
  {
    var lines := CharInfo(name, mems);
    CharInfoShape(name, mems);
    JoinContains("\n", lines, 0);
    assert lines[0][2..2 + |name|] == name;
    ContainsAt(lines[0], name, 2);
    ContainsTrans(Join("\n", lines), lines[0], name);
  }

  lemma PartInSummary(mems: ODict<VectorizedMemory>, byChar: ODict<seq<string>>, ids: seq<string>, k: nat)
    requires k < |ids| && Part(mems, byChar, ids[k]) != []
    ensures Part(mems, byChar, ids[k])[0] in SummaryParts(mems, byChar, ids)
  {
    FlattenHas(PartsOf(mems, byChar, ids), k);
  }

  /** Every listed character that has memories is named in the digest,
      which draws on at most five of its memories. */
  lemma SummaryNames(mems: ODict<VectorizedMemory>, byChar: ODict<seq<string>>, ids: seq<string>, k: nat)
    requires k < |ids| && CharacterMemories(mems, byChar, ids[k], 5) != []
    ensures |CharacterMemories(mems, byChar, ids[k], 5)| <= 5
    ensures Contains(SummaryForContext(mems, byChar, ids), CharacterMemories(mems, byChar, ids[k], 5)[0].characterName)
  {
    var ms := CharacterMemories(mems, byChar, ids[k], 5);
    var name := ms[0].characterName;
    var info := Join("\n", CharInfo(name, ms));
    assert Part(mems, byChar, ids[k]) == [info];
    PartInSummary(mems, byChar, ids, k);
    PartInContext(mems, byChar, ids, info);
    InfoHasName(name, ms);
    ContainsTrans(SummaryForContext(mems, byChar, ids), info, name);
  }

  /** Each part is a line of the digest. */
  lemma PartInContext(mems: ODict<VectorizedMemory>, byChar: ODict<seq<string>>, ids: seq<string>, x: string)
    requires x in SummaryParts(mems, byChar, ids)
    ensures Contains(SummaryForContext(mems, byChar, ids), x)
  {
    var rest := SummaryParts(mems, byChar, ids);
    assert ids != [];
    var parts := ["【相关人物记忆】"] + rest;
    var j :| 0 <= j < |rest| && rest[j] == x;
    assert parts[j + 1] == x;
    JoinContains("\n", parts, j + 1);
  }

  lemma SummaryEmptyIff(mems: ODict<VectorizedMemory>, byChar: ODict<seq<string>>, ids: seq<string>)
    ensures SummaryForContext(mems, byChar, ids) == "" <==> ids == []
  {
    if ids != [] {
      var parts := ["【相关人物记忆】"] + SummaryParts(mems, byChar, ids);
      if |parts| == 1 {
        assert SummaryForContext(mems, byChar, ids) == "【相关人物记忆】";
      } else {
        JoinCons("\n", parts[0], parts[1..]);
        assert parts == [parts[0]] + parts[1..];
      }
    }
  }

  // ---------------------------------------------------------------------
  // The store

  class CharacterMemoryStore {
    var memories: ODict<VectorizedMemory>
    var vectorsByCharacter: ODict<seq<string>>
    var vectorizer: TfidfVectorizer
    var needsRefit: bool
    var documentTexts: seq<string>

    ghost predicate Valid()
      reads this
    {
      OrderedMaps.Valid(memories) && OrderedMaps.Valid(vectorsByCharacter)
    }

    constructor ()
      ensures Valid() && fresh(vectorizer)
      ensures memories == Empty() && vectorsByCharacter == Empty() && !needsRefit && documentTexts == []
      ensures vectorizer.vocabulary == map[] && vectorizer.idf == map[] && vectorizer.documents == []
    {
      memories := Empty();
      vectorsByCharacter := Empty();
      vectorizer := new TfidfVectorizer();
      needsRefit := false;
      documentTexts := [];
    }

    /** `add_memory`. */
    method AddMemory(memory: VectorizedMemory)
      requires Valid()
      modifies `memories, `vectorsByCharacter, `needsRefit
      ensures Valid()
      ensures memories == Put(old(memories), memory.memoryId, memory)
      ensures vectorsByCharacter == Append(old(vectorsByCharacter), memory.characterId, memory.memoryId)
      ensures needsRefit
    {
      memories := Put(memories, memory.memoryId, memory);
      var ids := if memory.characterId in vectorsByCharacter.items then vectorsByCharacter.items[memory.characterId] else [];
      vectorsByCharacter := Put(vectorsByCharacter, memory.characterId, ids + [memory.memoryId]);
      needsRefit := true;
    }

    /** `add_character_memories`: the fragments are added in order and
      their contents join the corpus. */
    method AddCharacterMemories(cid: string, name: string, traits: seq<string>, goals: seq<string>,
                                descriptions: seq<string>, appearances: seq<string>, metadata: Option<map<string, string>>)
      requires Valid()
      modifies `memories, `vectorsByCharacter, `needsRefit, `documentTexts
      ensures Valid()
      ensures var frags := Fragments(cid, name, traits, goals, descriptions, appearances);
        memories == StoredFragments(old(memories), cid, name, frags, metadata.GetOr(map[])) &&
        vectorsByCharacter == ListedFragments(old(vectorsByCharacter), cid, frags) &&
        documentTexts == old(documentTexts) + Texts(frags)
      ensures needsRefit
    {
      var fragments := LabelFragments(cid + "_trait_", name + "的特质：", traits);
      var more := LabelFragments(cid + "_goal_", name + "的目标：", goals);
      fragments := fragments + more;
      more := LabelFragments(cid + "_desc_", name + "的描述：", descriptions);
      fragments := fragments + more;
      more := LabelFragments(cid + "_app_", name + "的外貌：", appearances);
      fragments := fragments + more;
      var meta := if metadata.Some? then metadata.value else map[];
      AddAll(cid, name, fragments, meta);
      needsRefit := true;
    }

    /** The `add_memory` loop of `add_character_memories`. */
    method AddAll(cid: string, name: string, fragments: seq<(string, string)>, meta: map<string, string>)
      requires Valid()
      modifies `memories, `vectorsByCharacter, `needsRefit, `documentTexts
      ensures Valid()
      ensures memories == StoredFragments(old(memories), cid, name, fragments, meta)
      ensures vectorsByCharacter == ListedFragments(old(vectorsByCharacter), cid, fragments)
      ensures documentTexts == old(documentTexts) + Texts(fragments)
    {
      ghost var mems0, byChar0, texts0 := memories, vectorsByCharacter, documentTexts;
      var i := 0;
      while i < |fragments|
        invariant 0 <= i <= |fragments|
        invariant memories == StoredFragments(mems0, cid, name, fragments[..i], meta)
        invariant vectorsByCharacter == ListedFragments(byChar0, cid, fragments[..i])
        invariant documentTexts == texts0 + Texts(fragments[..i])
      {
        FragmentStep(mems0, byChar0, cid, name, fragments, i, meta);
        AddFragment(cid, name, fragments[i], meta);
        i := i + 1;
      }
      assert fragments[..|fragments|] == fragments;
    }

    /** One pass of the `add_memory` loop: the fragment's memory is stored
      and its content joins the corpus. */
    method AddFragment(cid: string, name: string, fragment: (string, string), meta: map<string, string>)
      requires Valid()
      modifies `memories, `vectorsByCharacter, `needsRefit, `documentTexts
      ensures Valid()
      ensures memories == Put(old(memories), fragment.0, FragmentMemory(cid, name, fragment, meta))
      ensures vectorsByCharacter == Append(old(vectorsByCharacter), cid, fragment.0)
      ensures documentTexts == old(documentTexts) + [fragment.1]
    {
      var memory := VectorizedMemory(fragment.0, cid, name, fragment.1, Empty(), meta);
      AddMemory(memory);
      documentTexts := documentTexts + [fragment.1];
    }

    /** One `enumerate` loop of `add_character_memories`. */
    static method LabelFragments(idPrefix: string, contentPrefix: string, xs: seq<string>) returns (r: seq<(string, string)>)
      ensures r == Labelled(idPrefix, contentPrefix, xs)
    {
      r := [];
      var i := 0;
      while i < |xs|
        invariant 0 <= i <= |xs|
        invariant r == Labelled(idPrefix, contentPrefix, xs[..i])
      {
        r := r + [(idPrefix + NatToString(i), contentPrefix + xs[i])];
        i := i + 1;
      }
      assert xs[..|xs|] == xs;
    }

    /** How `_ensure_vectorizer_fitted` relates the store to what it was:
      a dirty store with a corpus is refitted to that corpus, with every
      vector recomputed under the new idf; any other store is left as it was. */
    twostate predicate FittedFrom(ln: real -> real)
      reads this, vectorizer
    {
      if old(needsRefit) && documentTexts != [] then
        !needsRefit && vectorizer.documents == TokenizeAll(documentTexts) &&
        vectorizer.vocabulary == Vocabulary(Terms(vectorizer.documents)) &&
        vectorizer.idf == old(vectorizer.idf) + IdfMap(ln, vectorizer.documents) &&
        memories == Revectorized(old(memories), vectorizer.idf)
      else
        needsRefit == old(needsRefit) && memories == old(memories) && vectorizer == old(vectorizer) &&
        vectorizer.vocabulary == old(vectorizer.vocabulary) && vectorizer.idf == old(vectorizer.idf) &&
        vectorizer.documents == old(vectorizer.documents)
    }

    /** `_ensure_vectorizer_fitted`: only a dirty store with a corpus is
      refitted; the refit clears the flag, fits the vectorizer to the corpus
      and recomputes every vector under the new idf. */
    method EnsureFitted(ln: real -> real)
      requires Valid()
      modifies `memories, `needsRefit, vectorizer
      ensures Valid()
      ensures old(needsRefit) && documentTexts != [] ==>
        !needsRefit && vectorizer.documents == TokenizeAll(documentTexts) &&
        vectorizer.vocabulary == Vocabulary(Terms(vectorizer.documents)) &&
        vectorizer.idf == old(vectorizer.idf) + IdfMap(ln, vectorizer.documents) &&
        memories == Revectorized(old(memories), vectorizer.idf)
      ensures !(old(needsRefit) && documentTexts != []) ==>
        needsRefit == old(needsRefit) && memories == old(memories) && unchanged(vectorizer)
      ensures FittedFrom(ln)
    {
      if needsRefit && documentTexts != [] {
        vectorizer.Fit(ln, documentTexts);
        needsRefit := false;
        RevectorizeAll();
      }
    }

    /** The loop of `_ensure_vectorizer_fitted` that recomputes every vector. */
    method RevectorizeAll()
      requires Valid()
      modifies `memories
      ensures Valid() && memories == Revectorized(old(memories), vectorizer.idf)
    {
      var keys := memories.keys;
      var i := 0;
      while i < |keys|
        invariant 0 <= i <= |keys|
        invariant memories == Revectorize(old(memories), vectorizer.idf, keys[..i])
      {
        RevectorizeStep(old(memories), vectorizer.idf, keys, i);
        var memory := memories.items[keys[i]];
        var vector := vectorizer.TransformOne(memory.content);
        memories := ODict(memories.keys, memories.items[keys[i] := memory.(vector := vector)]);
        i := i + 1;
      }
      assert keys[..|keys|] == keys;
    }

    /** `search_by_query`, after the refit it triggers. */
    method SearchByQuery(ln: real -> real, sqrt: real -> real, query: string, topK: int, filter: seq<string>)
      returns (r: seq<(VectorizedMemory, real)>)
      requires Valid()
      modifies `memories, `needsRefit, vectorizer
      ensures Valid() && FittedFrom(ln)
      ensures r == SearchResults(sqrt, memories, vectorizer.vocabulary, vectorizer.idf, query, topK, filter)
    {
      EnsureFitted(ln);
      if memories.keys == [] || vectorizer.vocabulary == map[] {
        return [];
      }
      var queryVector := vectorizer.TransformOne(query);
      if queryVector.items == map[] {
        return [];
      }
      var scores := ScoreAll(sqrt, memories, queryVector, filter);
      r := TakePy(SortBy(scores, NegScore), topK);
    }

    /** The scoring loop of `search_by_query`. */
    static method ScoreAll(sqrt: real -> real, memories: ODict<VectorizedMemory>, queryVector: SparseVec, filter: seq<string>)
      returns (scores: seq<(VectorizedMemory, real)>)
      requires OrderedMaps.Valid(memories)
      ensures scores == Candidates(sqrt, memories, memories.keys, queryVector, filter)
    {
      scores := [];
      var keys := memories.keys;
      var i := 0;
      while i < |keys|
        invariant 0 <= i <= |keys|
        invariant scores == Candidates(sqrt, memories, keys[..i], queryVector, filter)
      {
        assert keys[..i + 1][..i] == keys[..i];
        var memory := memories.items[keys[i]];
        if (filter == [] || memory.characterId in filter) && memory.vector.items != map[] {
          var similarity := Cosine(sqrt, queryVector, memory.vector);
          scores := scores + [(memory, similarity)];
        }
        i := i + 1;
      }
      assert keys[..|keys|] == keys;
    }

    /** `get_character_memories`: at most `limit` memories, each stored
      under one of the character's ids. */
    function GetCharacterMemories(cid: string, limit: int): (r: seq<VectorizedMemory>)
      reads this
      ensures limit >= 0 ==> |r| <= limit
      ensures forall m :: m in r ==> exists id :: id in ListOf(vectorsByCharacter, cid) && id in memories.items && memories.items[id] == m
      ensures r <= Known(memories, ListOf(vectorsByCharacter, cid))
      ensures limit >= 0 ==> |r| == if limit < |Known(memories, ListOf(vectorsByCharacter, cid))| then limit else |Known(memories, ListOf(vectorsByCharacter, cid))|
      ensures limit >= |ListOf(vectorsByCharacter, cid)| ==>
        forall id :: id in ListOf(vectorsByCharacter, cid) && id in memories.items ==> memories.items[id] in r
    {
      CharacterMemories(memories, vectorsByCharacter, cid, limit)
    }

    /** `search_characters_in_text`, after the refit it triggers. */
    method SearchCharactersInText(ln: real -> real, sqrt: real -> real, text: string, topK: int) returns (r: seq<string>)
      requires Valid() && LnPositive(ln)
      modifies `memories, `needsRefit, vectorizer
      ensures Valid() && FittedFrom(ln)
      ensures r == CharacterRanking(ln, sqrt, memories, vectorizer.idf, text, topK)
    {
      EnsureFitted(ln);
      if memories.keys == [] {
        return [];
      }
      var queryVector := vectorizer.TransformOne(text);
      var scores, counts := AggregateAll(sqrt, memories, queryVector);
      var finalScores := FinalScores(ln, scores, counts);
      var sorted := SortBy(finalScores, NegFinal);
      r := FirstOfPairs(TakePy(sorted, topK));
    }

    /** The aggregation loop of `search_characters_in_text`. */
    static method AggregateAll(sqrt: real -> real, memories: ODict<VectorizedMemory>, queryVector: SparseVec)
      returns (scores: ODict<real>, counts: ODict<nat>)
      requires OrderedMaps.Valid(memories)
      ensures scores == Aggregate(sqrt, memories, memories.keys, queryVector).0
      ensures counts == Aggregate(sqrt, memories, memories.keys, queryVector).1
    {
      scores, counts := Empty(), Empty();
      var keys := memories.keys;
      var i := 0;
      while i < |keys|
        invariant 0 <= i <= |keys|
        invariant scores == Aggregate(sqrt, memories, keys[..i], queryVector).0
        invariant counts == Aggregate(sqrt, memories, keys[..i], queryVector).1
      {
        AggregateNext(sqrt, memories, keys, i, queryVector);
        var memory := memories.items[keys[i]];
        if memory.vector.items != map[] {
          var similarity := Cosine(sqrt, queryVector, memory.vector);
          if similarity > Threshold {
            scores := AddScore(scores, memory.characterId, similarity);
            counts := AddCount(counts, memory.characterId);
          }
        }
        i := i + 1;
      }
      assert keys[..|keys|] == keys;
    }

    /** `get_summary_for_context`. */
    function GetSummaryForContext(ids: seq<string>): (r: string)
      reads this
      ensures r == "" <==> ids == []
    {
      SummaryEmptyIff(memories, vectorsByCharacter, ids);
      SummaryForContext(memories, vectorsByCharacter, ids)
    }
  }

  /** Adding the same character twice writes the same fragment ids again:
      the memory is overwritten, but its id is listed twice, so reading the
      character's memories back returns it twice. */
  lemma RepeatedAddListsTwice()
    ensures var frags := Fragments("c", "n", ["t"], [], [], []);
      var m := StoredFragments(StoredFragments(Empty(), "c", "n", frags, map[]), "c", "n", frags, map[]);
      var b := ListedFragments(ListedFragments(Empty(), "c", frags), "c", frags);
      m.keys == ["c_trait_0"] &&
      ListOf(b, "c") == ["c_trait_0", "c_trait_0"] &&
      CharacterMemories(m, b, "c", 10) == [m.items["c_trait_0"], m.items["c_trait_0"]]
  {
    var f := ("c_trait_0", "n的特质：t");
    OneTraitFragment();
    StoredTwice("c", "n", f, map[]);
    ListedTwice("c", f);
    var m := StoredFragments(StoredFragments(Empty(), "c", "n", [f], map[]), "c", "n", [f], map[]);
    KnownTwice(m, f.0);
  }

  /** The single trait "t" of character "c" named "n". */
  lemma OneTraitFragment()
    ensures Fragments("c", "n", ["t"], [], [], []) == [("c_trait_0", "n的特质：t")]
  {
    assert NatToString(0) == "0";
    assert "c" + "_trait_" == "c_trait_" && "c_trait_" + "0" == "c_trait_0";
    assert "n" + "的特质：" == "n的特质：" && "n的特质：" + "t" == "n的特质：t";
    var l := Labelled("c_trait_", "n的特质：", ["t"]);
    assert |l| == 1 && l[0] == ("c_trait_0", "n的特质：t");
  }

  /** Storing one fragment twice into an empty store keeps one memory. */
  lemma StoredTwice(cid: string, name: string, f: (string, string), metadata: map<string, string>)
    ensures var m := StoredFragments(StoredFragments(Empty(), cid, name, [f], metadata), cid, name, [f], metadata);
      m.keys == [f.0] && f.0 in m.items
  {
    var e: ODict<VectorizedMemory> := Empty();
    StoredStep(e, cid, name, [], f, metadata);
    assert [] + [f] == [f];
    var once := StoredFragments(e, cid, name, [f], metadata);
    assert once == Put(e, f.0, FragmentMemory(cid, name, f, metadata));
    StoredStep(once, cid, name, [], f, metadata);
  }

  /** Listing one fragment twice for a character lists its id twice. */
  lemma ListedTwice(cid: string, f: (string, string))
    ensures ListOf(ListedFragments(ListedFragments(Empty(), cid, [f]), cid, [f]), cid) == [f.0, f.0]
  {
    assert Ids([f]) == [f.0];
    var once := ListedFragments(Empty(), cid, [f]);
    assert ListOf(once, cid) == [f.0];
  }

  /** An id listed twice is read back twice. */
  lemma KnownTwice(m: ODict<VectorizedMemory>, id: string)
    requires id in m.items
    ensures Known(m, [id, id]) == [m.items[id], m.items[id]]
  {
    assert [id, id][1..] == [id];
    assert [id][1..] == [];
  }
}
