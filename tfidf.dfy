/** The TF-IDF vectorizer of the vector store: tokens are single characters
    (Chinese ideographs and letters or digits, lower-cased) followed by the
    bigrams of adjacent ideographs; a vector is an insertion-ordered
    dictionary from token to weight. Python floats are modelled as reals and
    `math.log` and `math.sqrt` are parameters about which nothing is
    assumed. */
module Tfidf {
  import opened Common
  import opened OrderedMaps

  /** A sparse vector: token to weight, in the order the tokens were first seen. */
  type SparseVec = ODict<real>

  // ---------------------------------------------------------------------
  // Tokens

  /** The characters that become single-character tokens. */
  predicate UnigramChar(c: char) {
    IsCjk(c) || IsAlnum(c)
  }

  /** The single-character tokens of `s`, in text order. */
  function Unigrams(s: string): (r: seq<string>)
    ensures |r| <= |s|
    ensures forall k :: 0 <= k < |r| ==> |r[k]| == 1
    decreases |s|
  {
    if s == [] then []
    else Unigrams(s[..|s| - 1]) + (if UnigramChar(s[|s| - 1]) then [[Lower(s[|s| - 1])]] else [])
  }

  /** Positions `i` and `i + 1` of `s` both hold ideographs. */
  predicate CjkPair(s: string, i: int) {
    0 <= i && i + 1 < |s| && IsCjk(s[i]) && IsCjk(s[i + 1])
  }

  /** The bigram tokens that start before position `k`, in text order. */
  function Bigrams(s: string, k: nat): (r: seq<string>)
    requires k < |s| || k == 0
    ensures forall j :: 0 <= j < |r| ==> |r[j]| == 2
  {
    if k == 0 then []
    else Bigrams(s, k - 1) + (if CjkPair(s, k - 1) then [s[k - 1..k + 1]] else [])
  }

  /** `_tokenize`: all single-character tokens, then all bigrams. */
  function Tokens(s: string): seq<string> {
    Unigrams(s) + (if |s| >= 1 then Bigrams(s, |s| - 1) else [])
  }

  /** True whenever `t` is the token of the character at `i`. */
  predicate UnigramAt(s: string, i: int, t: string) {
    0 <= i < |s| && UnigramChar(s[i]) && t == [Lower(s[i])]
  }

  lemma {:induction false} UnigramsMembers(s: string, t: string)
    ensures t in Unigrams(s) <==> exists i :: UnigramAt(s, i, t)
    decreases |s|
  {
    if s != [] {
      var p := s[..|s| - 1];
      var c := s[|s| - 1];
      UnigramsMembers(p, t);
      var tail := if UnigramChar(c) then [[Lower(c)]] else [];
      assert Unigrams(s) == Unigrams(p) + tail;
      if t in Unigrams(p) {
        var i :| UnigramAt(p, i, t);
        assert p[i] == s[i];
        assert UnigramAt(s, i, t);
      }
      if t in tail {
        assert UnigramAt(s, |s| - 1, t);
      }
      if exists i :: UnigramAt(s, i, t) {
        var i :| UnigramAt(s, i, t);
        if i < |s| - 1 {
          assert p[i] == s[i];
          assert UnigramAt(p, i, t);
        } else {
          assert t in tail;
        }
      }
    }
  }

  lemma {:induction false} BigramsMembers(s: string, k: nat, t: string)
    requires k < |s| || k == 0
    ensures t in Bigrams(s, k) <==> exists i :: 0 <= i < k && CjkPair(s, i) && t == s[i..i + 2]
  {
    if k > 0 {
      BigramsMembers(s, k - 1, t);
    }
  }

  /** A token is either the lower-cased form of a letter, digit or ideograph
      of the text, or two adjacent ideographs of it, and every such
      character and pair yields a token. */
  lemma TokensMembers(s: string, t: string)
    ensures t in Tokens(s) <==>
      (exists i :: UnigramAt(s, i, t)) ||
      (exists i :: CjkPair(s, i) && t == s[i..i + 2])
  {
    UnigramsMembers(s, t);
    if |s| >= 1 {
      BigramsMembers(s, |s| - 1, t);
    }
  }

  /** A text without letters, digits or ideographs has no tokens. */
  lemma NoTokens(s: string)
    requires forall i :: 0 <= i < |s| ==> !UnigramChar(s[i])
    ensures Tokens(s) == []
  {
    NoUnigrams(s);
    if |s| >= 1 {
      NoBigrams(s, |s| - 1);
    }
  }

  lemma {:induction false} NoUnigrams(s: string)
    requires forall i :: 0 <= i < |s| ==> !UnigramChar(s[i])
    ensures Unigrams(s) == []
    decreases |s|
  {
    if s != [] {
      var p := s[..|s| - 1];
      forall i | 0 <= i < |p| ensures !UnigramChar(p[i]) {
        assert p[i] == s[i];
      }
      NoUnigrams(p);
    }
  }

  lemma {:induction false} NoBigrams(s: string, k: nat)
    requires k < |s| || k == 0
    requires forall i :: 0 <= i < |s| ==> !UnigramChar(s[i])
    ensures Bigrams(s, k) == []
  {
    if k > 0 {
      assert !UnigramChar(s[k - 1]);
      NoBigrams(s, k - 1);
    }
  }

  /** Reading one more character. */
  lemma UnigramsStep(s: string, i: nat)
    requires i < |s|
    ensures Unigrams(s[..i + 1]) == Unigrams(s[..i]) + (if UnigramChar(s[i]) then [[Lower(s[i])]] else [])
  {
    assert s[..i + 1][..i] == s[..i];
  }

  /** The two loops of `_tokenize`. */
  method Tokenize(text: string) returns (tokens: seq<string>)
    ensures tokens == Tokens(text)
  {
    tokens := [];
    var i := 0;
    while i < |text|
      invariant 0 <= i <= |text|
      invariant tokens == Unigrams(text[..i])
    {
      UnigramsStep(text, i);
      if IsCjk(text[i]) || IsAlnum(text[i]) {
        tokens := tokens + [[Lower(text[i])]];
      }
      i := i + 1;
    }
    assert text[..|text|] == text;
    ghost var unigrams := tokens;
    var j := 0;
    while j < |text| - 1
      invariant 0 <= j && (j <= |text| - 1 || j == 0)
      invariant tokens == unigrams + Bigrams(text, j)
    {
      var bigram := text[j..j + 2];
      if |bigram| == 2 && IsCjk(bigram[0]) && IsCjk(bigram[1]) {
        tokens := tokens + [bigram];
      }
      j := j + 1;
    }
  }

  /** The tokens of every document, in order. */
  function TokenizeAll(texts: seq<string>): (r: seq<seq<string>>)
    ensures |r| == |texts| && forall i :: 0 <= i < |texts| ==> r[i] == Tokens(texts[i])
  {
    seq(|texts|, i requires 0 <= i < |texts| => Tokens(texts[i]))
  }

  // ---------------------------------------------------------------------
  // Document frequencies

  /** `set(tokens)`. */
  function Elements(toks: seq<string>): (r: set<string>)
    ensures forall x :: x in r <==> x in toks
  {
    set x | x in toks
  }

  /** Every token of the documents. */
  function Terms(docs: seq<seq<string>>): set<string> {
    if docs == [] then {}
    else Terms(docs[..|docs| - 1]) + Elements(docs[|docs| - 1])
  }

  /** The number of documents in which `t` occurs. */
  function DocCount(docs: seq<seq<string>>, t: string): (n: nat)
    ensures n <= |docs|
  {
    if docs == [] then 0
    else DocCount(docs[..|docs| - 1], t) + (if t in docs[|docs| - 1] then 1 else 0)
  }

  /** A term of the corpus occurs in at least one and at most all
      documents; anything else in none. */
  lemma {:induction false} DocCountBounds(docs: seq<seq<string>>, t: string)
    ensures t in Terms(docs) <==> DocCount(docs, t) >= 1
  {
    if docs != [] {
      DocCountBounds(docs[..|docs| - 1], t);
    }
  }

  /** A token of any one document is a term of the corpus. */
  lemma {:induction false} TermsMember(docs: seq<seq<string>>, i: nat, t: string)
    requires i < |docs| && t in docs[i]
    ensures t in Terms(docs)
  {
    if i < |docs| - 1 {
      TermsMember(docs[..|docs| - 1], i, t);
    }
  }

  /** `math.log((n_docs + 1) / (freq + 1)) + 1`. */
  function IdfValue(ln: real -> real, nDocs: nat, df: nat): real {
    ln((nDocs + 1) as real / (df + 1) as real) + 1.0
  }

  /** `math.log` does not decrease on the positive reals. */
  ghost predicate LnMonotone(ln: real -> real) {
    forall x, y :: 0.0 < x <= y ==> ln(x) <= ln(y)
  }

  /** With a logarithm that does not decrease, a term found in more
      documents weighs no more, and a term of the corpus (found in at most
      all documents) weighs at least 1 when ln(1) is 0. */
  lemma IdfFacts(ln: real -> real, nDocs: nat, df1: nat, df2: nat)
    requires LnMonotone(ln)
    requires df1 <= df2
    ensures IdfValue(ln, nDocs, df2) <= IdfValue(ln, nDocs, df1)
    ensures ln(1.0) == 0.0 && df2 <= nDocs ==> IdfValue(ln, nDocs, df2) >= 1.0
  {
    var n, a, b := (nDocs + 1) as real, (df1 + 1) as real, (df2 + 1) as real;
    var x, y := n / b, n / a;
    assert x * b == n && y * a == n;
    assert x * (b - a) >= 0.0;
    assert (x - y) * a <= 0.0;
    assert x <= y;
    if df2 <= nDocs {
      assert 1.0 <= n / b;
    }
  }

  /** The idf entries one `fit` writes. */
  function IdfMap(ln: real -> real, docs: seq<seq<string>>): (r: map<string, real>)
    ensures r.Keys == Terms(docs)
  {
    map t | t in Terms(docs) :: IdfValue(ln, |docs|, DocCount(docs, t))
  }

  // ---------------------------------------------------------------------
  // Vocabulary

  /** Python's `<` on strings: by code point, a proper prefix first. */
  predicate LexLess(a: string, b: string)
    decreases |a|
  {
    if a == [] then b != []
    else if b == [] then false
    else if a[0] != b[0] then a[0] < b[0]
    else LexLess(a[1..], b[1..])
  }

  lemma {:induction false} LexIrreflexive(a: string)
    ensures !LexLess(a, a)
    decreases |a|
  {
    if a != [] {
      LexIrreflexive(a[1..]);
    }
  }

  lemma {:induction false} LexTransitive(a: string, b: string, c: string)
    requires LexLess(a, b) && LexLess(b, c)
    ensures LexLess(a, c)
    decreases |a|
  {
    if a != [] && a[0] == b[0] && b[0] == c[0] {
      LexTransitive(a[1..], b[1..], c[1..]);
    }
  }

  lemma {:induction false} LexTotal(a: string, b: string)
    requires a != b
    ensures LexLess(a, b) || LexLess(b, a)
    decreases |a|
  {
    if a != [] && b != [] && a[0] == b[0] {
      assert a == [a[0]] + a[1..] && b == [b[0]] + b[1..];
      LexTotal(a[1..], b[1..]);
    }
  }

  lemma {:induction false} SubsetCard(x: set<string>, y: set<string>)
    requires x <= y
    ensures |x| <= |y|
    decreases |x|
  {
    if x != {} {
      var e :| e in x;
      SubsetCard(x - {e}, y - {e});
    }
  }

  /** The terms that sort before `t`. */
  function Below(terms: set<string>, t: string): set<string> {
    set u | u in terms && LexLess(u, t)
  }

  /** The position of `t` in `sorted(terms)`. */
  function Rank(terms: set<string>, t: string): nat {
    |Below(terms, t)|
  }

  /** `{term: idx for idx, term in enumerate(sorted(all_terms))}`. */
  function Vocabulary(terms: set<string>): (r: map<string, int>)
    ensures r.Keys == terms
  {
    map t | t in terms :: Rank(terms, t) as int
  }

  /** Every term gets an index below the number of terms, and a term that
      sorts earlier gets a smaller index; so the indices are distinct and
      follow sorted order. */
  lemma VocabularyOrdered(terms: set<string>, a: string, b: string)
    requires a in terms && b in terms
    ensures 0 <= Vocabulary(terms)[a] < |terms|
    ensures LexLess(a, b) ==> Vocabulary(terms)[a] < Vocabulary(terms)[b]
    ensures a != b ==> Vocabulary(terms)[a] != Vocabulary(terms)[b]
  {
    LexIrreflexive(a);
    LexIrreflexive(b);
    SubsetCard(Below(terms, a), terms - {a});
    if LexLess(a, b) {
      forall u | u in Below(terms, a) ensures u in Below(terms, b) - {a} {
        LexTransitive(u, a, b);
      }
      SubsetCard(Below(terms, a), Below(terms, b) - {a});
    }
    if a != b {
      LexTotal(a, b);
      if LexLess(b, a) {
        forall u | u in Below(terms, b) ensures u in Below(terms, a) - {b} {
          LexTransitive(u, b, a);
        }
        SubsetCard(Below(terms, b), Below(terms, a) - {b});
      }
    }
  }

  // ---------------------------------------------------------------------
  // Term frequencies

  /** How often `t` occurs in `toks`. */
  function Count(toks: seq<string>, t: string): nat {
    if toks == [] then 0
    else Count(toks[..|toks| - 1], t) + (if toks[|toks| - 1] == t then 1 else 0)
  }

  lemma {:induction false} CountAbsent(toks: seq<string>, t: string)
    requires t !in toks
    ensures Count(toks, t) == 0
  {
    if toks != [] {
      CountAbsent(toks[..|toks| - 1], t);
    }
  }

  /** The `tf` dictionary of `transform`: raw counts, keys in order of first
      occurrence. */
  function Tf(toks: seq<string>): (r: ODict<real>)
    ensures Valid(r)
  {
    if toks == [] then Empty()
    else
      var d := Tf(toks[..|toks| - 1]);
      var t := toks[|toks| - 1];
      Put(d, t, (if t in d.items then d.items[t] else 0.0) + 1.0)
  }

  /** Counting one more token. */
  lemma TfStep(toks: seq<string>, i: nat)
    requires i < |toks|
    ensures var d := Tf(toks[..i]);
      Tf(toks[..i + 1]) == Put(d, toks[i], (if toks[i] in d.items then d.items[toks[i]] else 0.0) + 1.0)
  {
    assert toks[..i + 1][..i] == toks[..i];
  }

  /** Counting `x` once more keeps the count of `t` right. */
  lemma CountPut(d: ODict<real>, x: string, t: string, cp: nat, ct: nat)
    requires Valid(d)
    requires t in d.items ==> d.items[t] == cp as real
    requires t !in d.items ==> cp == 0
    requires ct == cp + (if x == t then 1 else 0)
    ensures var e := Put(d, x, (if x in d.items then d.items[x] else 0.0) + 1.0);
      (t in e.items <==> t in d.items || t == x) && (t in e.items ==> e.items[t] == ct as real)
  {
  }

  lemma {:induction false} TfCount(toks: seq<string>, t: string)
    ensures t in Tf(toks).items <==> t in toks
    ensures t in Tf(toks).items ==> Tf(toks).items[t] == Count(toks, t) as real
  {
    if toks != [] {
      var p := toks[..|toks| - 1];
      var x := toks[|toks| - 1];
      var d := Tf(p);
      TfCount(p, t);
      if t !in d.items {
        CountAbsent(p, t);
      }
      assert t in toks <==> t in p || t == x by {
        assert toks == p + [x];
      }
      CountPut(d, x, t, Count(p, t), Count(toks, t));
    }
  }

  /** The divisor of `transform`: the token count, or 1 for no tokens. */
  function NTokens(toks: seq<string>): real {
    if toks == [] then 1.0 else |toks| as real
  }

  /** The weights of the keys in `keys` that have an idf entry, in key order. */
  function Weights(tf: map<string, real>, keys: seq<string>, n: real, idf: map<string, real>): (r: ODict<real>)
    requires n != 0.0
    requires forall k :: k in keys ==> k in tf
    ensures Valid(r)
  {
    if keys == [] then Empty()
    else
      var w := Weights(tf, keys[..|keys| - 1], n, idf);
      var k := keys[|keys| - 1];
      if k in idf then Put(w, k, Weight(tf[k], n, idf[k])) else w
  }

  /** A token's weight: its count over the token total, times its idf. */
  function Weight(count: real, n: real, idf: real): real
    requires n != 0.0
  {
    (count / n) * idf
  }

  lemma {:induction false} WeightsFact(tf: map<string, real>, keys: seq<string>, n: real, idf: map<string, real>, t: string)
    requires n != 0.0
    requires forall k :: k in keys ==> k in tf
    ensures t in Weights(tf, keys, n, idf).items <==> t in keys && t in idf
    ensures t in Weights(tf, keys, n, idf).items ==> Weights(tf, keys, n, idf).items[t] == Weight(tf[t], n, idf[t])
  {
    if keys != [] {
      var p := keys[..|keys| - 1];
      var k := keys[|keys| - 1];
      assert keys == p + [k];
      assert t in keys <==> t in p || t == k;
      WeightsFact(tf, p, n, idf, t);
    }
  }

  /** The vector `transform` gives one text. */
  function TfIdf(idf: map<string, real>, text: string): SparseVec {
    var toks := Tokens(text);
    var tf := Tf(toks);
    Weights(tf.items, tf.keys, NTokens(toks), idf)
  }

  /** A token has a weight exactly when it has an idf entry, and then its
      weight is its share of the tokens times its idf; a text without tokens
      gives the empty vector. */
  lemma TfIdfFacts(idf: map<string, real>, text: string)
    ensures var v := TfIdf(idf, text); var toks := Tokens(text);
      Valid(v) &&
      (forall t :: t in v.items <==> t in toks && t in idf) &&
      (forall t :: t in v.items ==> v.items[t] == Weight(Count(toks, t) as real, NTokens(toks), idf[t])) &&
      (toks == [] ==> v.keys == [] && v.items == map[])
  {
    var toks := Tokens(text);
    var tf := Tf(toks);
    var v := TfIdf(idf, text);
    forall t ensures (t in v.items <==> t in toks && t in idf) &&
      (t in v.items ==> v.items[t] == Weight(Count(toks, t) as real, NTokens(toks), idf[t]))
    {
      TfCount(toks, t);
      WeightsFact(tf.items, tf.keys, NTokens(toks), idf, t);
    }
  }

  /** After `fit` on some texts, transforming one of those texts keeps
      every one of its tokens: none is dropped for want of an idf entry. */
  lemma FitCoversOwnTokens(ln: real -> real, idf0: map<string, real>, texts: seq<string>, i: nat, t: string)
    requires i < |texts| && t in Tokens(texts[i])
    ensures t in TfIdf(idf0 + IdfMap(ln, TokenizeAll(texts)), texts[i]).items
  {
    var docs := TokenizeAll(texts);
    TermsMember(docs, i, t);
    TfIdfFacts(idf0 + IdfMap(ln, docs), texts[i]);
  }

  // ---------------------------------------------------------------------
  // The vectorizer

  class TfidfVectorizer {
    var vocabulary: map<string, int>
    var idf: map<string, real>
    var documents: seq<seq<string>>

    constructor ()
      ensures vocabulary == map[] && idf == map[] && documents == []
    {
      vocabulary := map[];
      idf := map[];
      documents := [];
    }

    /** `fit`: the documents' tokens, the sorted vocabulary, and idf entries
      for all terms of these documents written over the old ones (older
      entries are never removed). */
    method Fit(ln: real -> real, texts: seq<string>)
      modifies this
      ensures documents == TokenizeAll(texts)
      ensures vocabulary == Vocabulary(Terms(documents))
      ensures idf == old(idf) + IdfMap(ln, documents)
    {
      var toks := TokenizeEach(texts);
      documents := toks;
      var allTerms := AllTerms(toks);
      vocabulary := map t | t in allTerms :: Rank(allTerms, t) as int;
      var docFreq := DocFrequencies(toks);
      idf := UpdateIdf(ln, idf, docFreq, toks);
    }

    /** `[self._tokenize(doc) for doc in documents]`. */
    static method TokenizeEach(texts: seq<string>) returns (toks: seq<seq<string>>)
      ensures toks == TokenizeAll(texts)
    {
      toks := [];
      var i := 0;
      while i < |texts|
        invariant 0 <= i <= |texts|
        invariant |toks| == i && forall k :: 0 <= k < i ==> toks[k] == Tokens(texts[k])
      {
        var t := Tokenize(texts[i]);
        toks := toks + [t];
        i := i + 1;
      }
    }

    /** The `all_terms` loop of `fit`. */
    static method AllTerms(toks: seq<seq<string>>) returns (allTerms: set<string>)
      ensures allTerms == Terms(toks)
    {
      allTerms := {};
      var j := 0;
      while j < |toks|
        invariant 0 <= j <= |toks|
        invariant allTerms == Terms(toks[..j])
      {
        assert toks[..j + 1][..j] == toks[..j];
        allTerms := allTerms + (set x | x in toks[j]);
        j := j + 1;
      }
      assert toks[..|toks|] == toks;
    }

    /** The `doc_freq` loop of `fit`: for each document, one count for each
      of its distinct tokens. */
    static method DocFrequencies(toks: seq<seq<string>>) returns (docFreq: map<string, nat>)
      ensures docFreq.Keys == Terms(toks)
      ensures forall t :: t in docFreq ==> docFreq[t] == DocCount(toks, t)
    {
      docFreq := map[];
      var j := 0;
      while j < |toks|
        invariant 0 <= j <= |toks|
        invariant docFreq.Keys == Terms(toks[..j])
        invariant forall t :: t in docFreq ==> docFreq[t] == DocCount(toks[..j], t)
      {
        docFreq := CountDocument(docFreq, toks, j);
        j := j + 1;
      }
      assert toks[..|toks|] == toks;
    }

    /** One pass of the `doc_freq` loop: every distinct token of document
      `j` counted once more. */
    static method CountDocument(docFreq0: map<string, nat>, toks: seq<seq<string>>, j: nat) returns (docFreq: map<string, nat>)
      requires j < |toks|
      requires docFreq0.Keys == Terms(toks[..j])
      requires forall t :: t in docFreq0 ==> docFreq0[t] == DocCount(toks[..j], t)
      ensures docFreq.Keys == Terms(toks[..j + 1])
      ensures forall t :: t in docFreq ==> docFreq[t] == DocCount(toks[..j + 1], t)
    {
      docFreq := docFreq0;
      var unique := set x | x in toks[j];
      var rest := unique;
      while rest != {}
        invariant rest <= unique
        invariant docFreq.Keys == Terms(toks[..j]) + (unique - rest)
        invariant forall t :: t in docFreq ==> docFreq[t] == DocCount(toks[..j], t) + (if t in unique - rest then 1 else 0)
        decreases rest
      {
        var term :| term in rest;
        DocCountBounds(toks[..j], term);
        docFreq := docFreq[term := (if term in docFreq then docFreq[term] else 0) + 1];
        rest := rest - {term};
      }
      assert toks[..j + 1][..j] == toks[..j];
      assert toks[..j + 1][j] == toks[j];
      forall t | t in docFreq ensures docFreq[t] == DocCount(toks[..j + 1], t) {
        assert DocCount(toks[..j + 1], t) == DocCount(toks[..j], t) + (if t in toks[j] then 1 else 0);
      }
    }

    /** The idf loop of `fit`: one entry per counted term, written over `idf0`. */
    static method UpdateIdf(ln: real -> real, idf0: map<string, real>, docFreq: map<string, nat>, toks: seq<seq<string>>)
      returns (idf: map<string, real>)
      requires docFreq.Keys == Terms(toks)
      requires forall t :: t in docFreq ==> docFreq[t] == DocCount(toks, t)
      ensures idf == idf0 + IdfMap(ln, toks)
    {
      idf := idf0;
      var keys := docFreq.Keys;
      var rest := keys;
      while rest != {}
        invariant rest <= keys
        invariant forall t :: t in idf <==> t in idf0 || t in keys - rest
        invariant forall t :: t in idf ==> idf[t] == if t in keys - rest then IdfValue(ln, |toks|, DocCount(toks, t)) else idf0[t]
        decreases rest
      {
        var term :| term in rest;
        idf := idf[term := IdfValue(ln, |toks|, docFreq[term])];
        rest := rest - {term};
      }
      assert idf == idf0 + IdfMap(ln, toks);
    }

    /** `transform([text])[0]`. */
    method TransformOne(text: string) returns (v: SparseVec)
      ensures v == TfIdf(idf, text)
    {
      var tokens := Tokenize(text);
      var tf := TermCounts(tokens);
      var nTokens: real := if |tokens| > 0 then |tokens| as real else 1.0;
      v := Weigh(tf, nTokens, idf);
    }

    /** The `tf` counting loop of `transform`. */
    static method TermCounts(tokens: seq<string>) returns (tf: ODict<real>)
      ensures tf == Tf(tokens)
    {
      tf := Empty();
      var i := 0;
      while i < |tokens|
        invariant 0 <= i <= |tokens|
        invariant tf == Tf(tokens[..i])
      {
        TfStep(tokens, i);
        var token := tokens[i];
        tf := Put(tf, token, (if token in tf.items then tf.items[token] else 0.0) + 1.0);
        i := i + 1;
      }
      assert tokens[..|tokens|] == tokens;
    }

    /** The normalising and weighting loops of `transform`. */
    static method Weigh(tf: ODict<real>, nTokens: real, idf: map<string, real>) returns (v: SparseVec)
      requires nTokens != 0.0 && Valid(tf)
      ensures v == Weights(tf.items, tf.keys, nTokens, idf)
    {
      v := Empty();
      var k := 0;
      while k < |tf.keys|
        invariant 0 <= k <= |tf.keys|
        invariant v == Weights(tf.items, tf.keys[..k], nTokens, idf)
      {
        assert tf.keys[..k + 1][..k] == tf.keys[..k];
        assert tf.keys[..k + 1][k] == tf.keys[k];
        var token := tf.keys[k];
        if token in idf {
          v := Put(v, token, Weight(tf.items[token], nTokens, idf[token]));
        }
        k := k + 1;
      }
      assert tf.keys[..|tf.keys|] == tf.keys;
    }

    /** `transform`: one vector per text. */
    method Transform(texts: seq<string>) returns (vectors: seq<SparseVec>)
      ensures |vectors| == |texts|
      ensures forall i :: 0 <= i < |texts| ==> vectors[i] == TfIdf(idf, texts[i])
    {
      vectors := [];
      var i := 0;
      while i < |texts|
        invariant 0 <= i <= |texts|
        invariant |vectors| == i && forall k :: 0 <= k < i ==> vectors[k] == TfIdf(idf, texts[k])
      {
        var v := TransformOne(texts[i]);
        vectors := vectors + [v];
        i := i + 1;
      }
    }
    /** `fit_transform`: fit on the texts, then transform the same texts. */
    method FitTransform(ln: real -> real, texts: seq<string>) returns (vectors: seq<SparseVec>)
      modifies this
      ensures documents == TokenizeAll(texts) && vocabulary == Vocabulary(Terms(documents))
      ensures idf == old(idf) + IdfMap(ln, documents)
      ensures |vectors| == |texts|
      ensures forall i :: 0 <= i < |texts| ==> vectors[i] == TfIdf(idf, texts[i])
    {
      Fit(ln, texts);
      vectors := Transform(texts);
    }
  }

  // ---------------------------------------------------------------------
  // Cosine similarity

  /** The keys of `a` that `b` also has, in `a`'s order. */
  function CommonKeys(keys: seq<string>, a: map<string, real>, b: map<string, real>): (r: seq<string>)
    ensures forall k :: k in r <==> k in keys && k in a && k in b
  {
    if keys == [] then []
    else (if keys[0] in a && keys[0] in b then [keys[0]] else []) + CommonKeys(keys[1..], a, b)
  }

  function DotSum(a: map<string, real>, b: map<string, real>, ks: seq<string>): real
    requires forall k :: k in ks ==> k in a && k in b
  {
    if ks == [] then 0.0 else Product(a[ks[0]], b[ks[0]]) + DotSum(a, b, ks[1..])
  }

  function Product(x: real, y: real): real {
    x * y
  }

  /** The sum of the squared weights of `a`, over its listed keys. */
  function SquareSum(a: map<string, real>, ks: seq<string>): real {
    if ks == [] then 0.0
    else (if ks[0] in a then Product(a[ks[0]], a[ks[0]]) else 0.0) + SquareSum(a, ks[1..])
  }

  /** `cosine_similarity`: 0 without a shared token or with a zero norm. */
  function Cosine(sqrt: real -> real, v1: SparseVec, v2: SparseVec): real {
    var common := CommonKeys(v1.keys, v1.items, v2.items);
    if common == [] then 0.0
    else
      var dot := DotSum(v1.items, v2.items, common);
      var norm1 := sqrt(SquareSum(v1.items, v1.keys));
      var norm2 := sqrt(SquareSum(v2.items, v2.keys));
      if norm1 == 0.0 || norm2 == 0.0 then 0.0 else dot / (norm1 * norm2)
  }

  lemma {:induction false} CommonKeysDistinct(keys: seq<string>, a: map<string, real>, b: map<string, real>)
    requires Distinct(keys)
    ensures Distinct(CommonKeys(keys, a, b))
  {
    if keys != [] {
      assert Distinct(keys[1..]) by {
        forall i, j | 0 <= i < j < |keys| - 1 ensures keys[1..][i] != keys[1..][j] {
          assert keys[1..][i] == keys[i + 1] && keys[1..][j] == keys[j + 1];
        }
      }
      CommonKeysDistinct(keys[1..], a, b);
      if keys[0] in a && keys[0] in b {
        assert keys[0] !in keys[1..];
        DistinctCons(keys[0], CommonKeys(keys[1..], a, b));
      }
    }
  }

  lemma {:induction false} DotSumAppend(a: map<string, real>, b: map<string, real>, xs: seq<string>, ys: seq<string>)
    requires forall k :: k in xs + ys ==> k in a && k in b
    ensures DotSum(a, b, xs + ys) == DotSum(a, b, xs) + DotSum(a, b, ys)
  {
    if xs != [] {
      assert (xs + ys)[1..] == xs[1..] + ys;
      DotSumAppend(a, b, xs[1..], ys);
    } else {
      assert xs + ys == ys;
    }
  }

  lemma {:induction false} DotSumSwap(a: map<string, real>, b: map<string, real>, xs: seq<string>)
    requires forall k :: k in xs ==> k in a && k in b
    ensures DotSum(a, b, xs) == DotSum(b, a, xs)
  {
    if xs != [] {
      DotSumSwap(a, b, xs[1..]);
    }
  }

  /** `ys` without its element at `j`. */
  function RemoveAt(ys: seq<string>, j: nat): seq<string>
    requires j < |ys|
  {
    ys[..j] + ys[j + 1..]
  }

  lemma RemoveAtFacts(ys: seq<string>, j: nat)
    requires j < |ys| && Distinct(ys)
    ensures Distinct(RemoveAt(ys, j))
    ensures forall k :: k in RemoveAt(ys, j) <==> k in ys && k != ys[j]
  {
    var r := RemoveAt(ys, j);
    forall p, q | 0 <= p < q < |r| ensures r[p] != r[q] {
      var p' := if p < j then p else p + 1;
      var q' := if q < j then q else q + 1;
      assert r[p] == ys[p'] && r[q] == ys[q'];
    }
    forall k ensures k in r <==> k in ys && k != ys[j] {
      if k in r {
        var i :| 0 <= i < |r| && r[i] == k;
        var i' := if i < j then i else i + 1;
        assert ys[i'] == k;
      }
      if k in ys && k != ys[j] {
        var i :| 0 <= i < |ys| && ys[i] == k;
        assert r[if i < j then i else i - 1] == k;
      }
    }
  }

  lemma DotSumRemove(a: map<string, real>, b: map<string, real>, ys: seq<string>, j: nat)
    requires j < |ys|
    requires forall k :: k in ys ==> k in a && k in b
    ensures DotSum(a, b, ys) == Product(a[ys[j]], b[ys[j]]) + DotSum(a, b, RemoveAt(ys, j))
  {
    var x := ys[j];
    assert ys == ys[..j] + ([x] + ys[j + 1..]);
    DotSumAppend(a, b, ys[..j], [x] + ys[j + 1..]);
    DotSumAppend(a, b, ys[..j], ys[j + 1..]);
  }

  lemma DistinctTail(xs: seq<string>)
    requires xs != [] && Distinct(xs)
    ensures Distinct(xs[1..]) && xs[0] !in xs[1..]
  {
    forall p, q | 0 <= p < q < |xs| - 1 ensures xs[1..][p] != xs[1..][q] {
      assert xs[1..][p] == xs[p + 1] && xs[1..][q] == xs[q + 1];
    }
  }

  /** The dot product does not depend on the order of the keys. */
  lemma {:induction false} DotSumPermutation(a: map<string, real>, b: map<string, real>, xs: seq<string>, ys: seq<string>)
    requires Distinct(xs) && Distinct(ys)
    requires forall k :: k in xs <==> k in ys
    requires forall k :: k in xs ==> k in a && k in b
    ensures DotSum(a, b, xs) == DotSum(a, b, ys)
    decreases |xs|
  {
    if xs != [] {
      var x := xs[0];
      assert x in ys;
      var j :| 0 <= j < |ys| && ys[j] == x;
      DistinctTail(xs);
      RemoveAtFacts(ys, j);
      DotSumRemove(a, b, ys, j);
      DotSumPermutation(a, b, xs[1..], RemoveAt(ys, j));
    }
  }

  /** Cosine similarity is symmetric, and it is 0 when the vectors share
      no token or one of them has norm 0. */
  lemma CosineFacts(sqrt: real -> real, v1: SparseVec, v2: SparseVec)
    requires Valid(v1) && Valid(v2)
    ensures Cosine(sqrt, v1, v2) == Cosine(sqrt, v2, v1)
    ensures (forall k :: k in v1.items ==> k !in v2.items) ==> Cosine(sqrt, v1, v2) == 0.0
    ensures sqrt(SquareSum(v1.items, v1.keys)) == 0.0 ==> Cosine(sqrt, v1, v2) == 0.0
  {
    var c12 := CommonKeys(v1.keys, v1.items, v2.items);
    var c21 := CommonKeys(v2.keys, v2.items, v1.items);
    CommonKeysDistinct(v1.keys, v1.items, v2.items);
    CommonKeysDistinct(v2.keys, v2.items, v1.items);
    if c12 != [] {
      assert c12[0] in c21;
    }
    if c21 != [] {
      assert c21[0] in c12;
    }
    if c12 != [] {
      DotSumPermutation(v1.items, v2.items, c12, c21);
      DotSumSwap(v1.items, v2.items, c21);
    }
  }

  lemma {:induction false} CommonKeysSelf(keys: seq<string>, a: map<string, real>)
    requires forall k :: k in keys ==> k in a
    ensures CommonKeys(keys, a, a) == keys
  {
    if keys != [] {
      CommonKeysSelf(keys[1..], a);
      assert [keys[0]] + keys[1..] == keys;
    }
  }

  lemma {:induction false} DotSumSelf(a: map<string, real>, ks: seq<string>)
    requires forall k :: k in ks ==> k in a
    ensures DotSum(a, a, ks) == SquareSum(a, ks)
  {
    if ks != [] {
      DotSumSelf(a, ks[1..]);
    }
  }

  lemma QuotientOne(d: real, q: real)
    requires d == q && q != 0.0
    ensures d / q == 1.0
  {
  }

  lemma NonZeroSquareSum(a: map<string, real>, ks: seq<string>)
    requires SquareSum(a, ks) != 0.0
    ensures ks != []
  {
  }

  /** A vector with a non-zero norm is at similarity 1 to itself, given a
      square root that squares back. */
  lemma CosineSelf(sqrt: real -> real, v: SparseVec)
    requires Valid(v)
    requires SquareSum(v.items, v.keys) != 0.0
    requires sqrt(SquareSum(v.items, v.keys)) * sqrt(SquareSum(v.items, v.keys)) == SquareSum(v.items, v.keys)
    ensures Cosine(sqrt, v, v) == 1.0
  {
    var s := SquareSum(v.items, v.keys);
    var n := sqrt(s);
    var q := n * n;
    assert n != 0.0 by {
      assert n == 0.0 ==> q == 0.0;
    }
    NonZeroSquareSum(v.items, v.keys);
    CommonKeysSelf(v.keys, v.items);
    DotSumSelf(v.items, v.keys);
    QuotientOne(s, q);
  }
}
