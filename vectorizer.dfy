/**
 The `CountVectorizer` class: a bag-of-words encoder whose only state is its
 vocabulary, a dict from token to column index.

 The dict is modelled by two fields: `vocabulary`, the token-to-index map, and
 `order`, its keys in insertion order (the order `dict.keys()` reports). Assigning
 to a key already present keeps that key's position, as a Python dict does.
 */
module Vectorizer {
  import opened Seqs
  import opened Text
  import opened Vocabulary
  import opened Counting

  /** Outcome of `transform`: the count vector, or the `KeyError` raised for the first unknown token. */
  datatype Result = Ok(vector: seq<int>) | KeyError(key: string)

  /** `new_corpus`: every document normalised, in corpus order. */
  function NormalizeAll(corpus: seq<string>): (docs: seq<seq<string>>)
    ensures |docs| == |corpus|
  {
    seq(|corpus|, i requires 0 <= i < |corpus| => Normalize(corpus[i]))
  }

  /** `merge_lists(new_corpus)`: all tokens of the corpus, document by document. */
  function Tokens(corpus: seq<string>): (ws: seq<string>)
    ensures forall i, k :: 0 <= i < |corpus| && 0 <= k < |Normalize(corpus[i])| ==> Normalize(corpus[i])[k] in ws
    ensures forall w :: w in ws ==> exists i :: 0 <= i < |corpus| && w in Normalize(corpus[i])
  {
    var docs := NormalizeAll(corpus);
    assert forall i :: 0 <= i < |corpus| ==> docs[i] == Normalize(corpus[i]);
    Flatten(docs)
  }

  /**
   The dict invariant (`order` lists each key once) and the fact that every index
   stored is a valid column of a row of width `len(self.vocabulary)`.
   */
  ghost predicate DictInvariant(voc: map<string, nat>, order: seq<string>)
  {
    && NoDup(order)
    && (forall w :: w in voc <==> w in order)
    && (forall w :: w in voc ==> voc[w] < |order|)
  }

  /** A dict has as many entries as its key order lists. */
  lemma {:induction false} DictSize(voc: map<string, nat>, order: seq<string>)
    requires NoDup(order)
    requires forall w :: w in voc <==> w in order
    ensures |voc| == |order|
  {
    if order == [] {
      assert voc == map[];
    } else {
      var w := order[|order| - 1];
      var prefix := order[..|order| - 1];
      assert order == prefix + [w];
      assert w !in prefix;
      assert NoDup(prefix) by {
        forall i, j | 0 <= i < j < |prefix| ensures prefix[i] != prefix[j] {
          assert prefix[i] == order[i] && prefix[j] == order[j];
        }
      }
      var rest := voc - {w};
      assert forall x :: x in rest <==> x in prefix;
      DictSize(rest, prefix);
      assert voc.Keys == rest.Keys + {w};
    }
  }

  /**
   Every stored index is a column of a row of width `len(self.vocabulary)`, after any
   number of fits: a refit can make two keys share a column but never index past the row.
   */
  lemma IndicesInRange(voc: map<string, nat>, order: seq<string>)
    requires DictInvariant(voc, order)
    ensures forall w :: w in voc ==> voc[w] < |voc|
  {
    DictSize(voc, order);
  }

  /** Assigning into a merged map assigns into its right operand. */
  lemma {:induction false} MergeUpdate(m0: map<string, nat>, m1: map<string, nat>, k: string, v: nat)
    ensures (m0 + m1)[k := v] == m0 + m1[k := v]
  {
  }

  /** Inserting a key keeps the dict invariant when the new index is below the new size. */
  lemma {:induction false} InsertKeepsInvariant(voc: map<string, nat>, order: seq<string>, word: string, idx: nat)
    requires DictInvariant(voc, order)
    requires idx < |if word in voc then order else order + [word]|
    ensures DictInvariant(voc[word := idx], if word in voc then order else order + [word])
  {
  }

  /**
   One iteration of the indexing loop of `__compute_vocabular`, for the map: the
   loop's summary grows by one entry, and the word is a key exactly when it was one
   before the loop.
   */
  lemma {:induction false} AssignMapStep(voc0: map<string, nat>, voc: map<string, nat>, u: seq<string>, idx: nat)
    requires NoDup(u) && idx < |u|
    requires voc == voc0 + IndexMap(u[..idx])
    ensures voc[u[idx] := idx] == voc0 + IndexMap(u[..idx + 1])
    ensures (u[idx] in voc) == (u[idx] in voc0)
    ensures forall k :: 0 <= k <= idx ==> u[k] in voc[u[idx] := idx]
  {
    var prefix := u[..idx];
    assert u[idx] !in prefix;
    IndexMapSnoc(u, idx);
    MergeUpdate(voc0, IndexMap(prefix), u[idx], idx);
    forall k | 0 <= k < idx ensures u[k] in voc {
      assert u[k] == prefix[k];
    }
  }

  /** The same iteration, for the key order: a new key is appended, a known one stays put. */
  lemma {:induction false} AssignOrderStep(order0: seq<string>, order: seq<string>, keys: set<string>, u: seq<string>, idx: nat)
    requires idx < |u|
    requires order == order0 + NewKeys(u[..idx], keys)
    ensures (if u[idx] in keys then order else order + [u[idx]]) == order0 + NewKeys(u[..idx + 1], keys)
  {
    var prefix, word := u[..idx], u[idx];
    assert u[..idx + 1] == prefix + [word];
    assert u[..idx + 1][..idx] == prefix;
    assert NewKeys(u[..idx + 1], keys) == NewKeys(prefix, keys) + (if word in keys then [] else [word]);
    if word !in keys {
      assert order + [word] == order0 + (NewKeys(prefix, keys) + [word]);
    } else {
      assert NewKeys(prefix, keys) + [] == NewKeys(prefix, keys);
    }
  }

  /** The same iteration keeps the dict invariant: `u[..idx + 1]` are distinct keys, so `idx` is below the size. */
  lemma {:induction false} AssignKeepsInvariant(voc: map<string, nat>, order: seq<string>, u: seq<string>, idx: nat)
    requires DictInvariant(voc, order) && NoDup(u) && idx < |u|
    requires forall k :: 0 <= k <= idx ==> u[k] in voc[u[idx] := idx]
    ensures DictInvariant(voc[u[idx] := idx], if u[idx] in voc then order else order + [u[idx]])
  {
    var order' := if u[idx] in voc then order else order + [u[idx]];
    var voc' := voc[u[idx] := idx];
    assert forall x :: x in voc' <==> x in order';
    forall x | x in u[..idx + 1] ensures x in order' {
      var k :| 0 <= k < idx + 1 && u[..idx + 1][k] == x;
      assert u[k] in voc';
    }
    NoDupLength(u[..idx + 1], order');
    InsertKeepsInvariant(voc, order, u[idx], idx);
  }

  /**
   One iteration of the indexing loop, as a whole: after `vocabulary[word] = idx`
   the dict is the loop's summary for `u[..idx + 1]` and still keeps its invariant.
   */
  lemma AssignStep(voc0: map<string, nat>, order0: seq<string>, voc: map<string, nat>, order: seq<string>, u: seq<string>, idx: nat,
                    voc': map<string, nat>, order': seq<string>)
    requires DictInvariant(voc, order) && NoDup(u) && idx < |u|
    requires voc == voc0 + IndexMap(u[..idx])
    requires order == order0 + NewKeys(u[..idx], voc0.Keys)
    requires voc' == voc[u[idx] := idx]
    requires order' == if u[idx] in voc then order else order + [u[idx]]
    ensures DictInvariant(voc', order')
    ensures voc' == voc0 + IndexMap(u[..idx + 1])
    ensures order' == order0 + NewKeys(u[..idx + 1], voc0.Keys)
  {
    AssignMapStep(voc0, voc, u, idx);
    AssignOrderStep(order0, order, voc0.Keys, u, idx);
    AssignKeepsInvariant(voc, order, u, idx);
  }

  /** Every token of every document has a column below `n`. */
  ghost predicate AllIndexed(docs: seq<seq<string>>, voc: map<string, nat>, n: nat)
  {
    forall r, k :: 0 <= r < |docs| && 0 <= k < |docs[r]| ==> docs[r][k] in voc && voc[docs[r][k]] < n
  }

  /** After the vocabulary of a corpus is merged in, every token of that corpus has a column inside the row. */
  lemma {:induction false} MergedIndexed(voc0: map<string, nat>, voc: map<string, nat>, order: seq<string>, docs: seq<seq<string>>)
    requires DictInvariant(voc, order)
    requires voc == voc0 + IndexMap(Dedup(Flatten(docs)))
    ensures AllIndexed(docs, voc, |order|)
  {
    forall r, k | 0 <= r < |docs| && 0 <= k < |docs[r]| ensures docs[r][k] in voc && voc[docs[r][k]] < |order| {
      assert docs[r][k] in Flatten(docs);
    }
  }

  /**
   Lines 47-50 of `fit_transform`: a zero matrix with one row of width `n` per
   document, then `matrix[i][vocabulary[word]] += 1` for every token.
   */
  method CountMatrix(docs: seq<seq<string>>, voc: map<string, nat>, n: nat) returns (matrix: seq<seq<int>>)
    requires AllIndexed(docs, voc, n)
    ensures |matrix| == |docs|
    ensures forall i :: 0 <= i < |docs| ==> matrix[i] == Row(docs[i], voc, n)
    ensures forall i :: 0 <= i < |docs| ==> Sum(matrix[i]) == |docs[i]|
  {
    matrix := seq(|docs|, _ => Zeros(n));
    for i := 0 to |docs|
      invariant |matrix| == |docs|
      invariant forall r :: 0 <= r < i ==> matrix[r] == Row(docs[r], voc, n)
      invariant forall r :: i <= r < |docs| ==> matrix[r] == Zeros(n)
    {
      var sentence := docs[i];
      RowEmpty(voc, n);
      for k := 0 to |sentence|
        invariant |matrix| == |docs|
        invariant matrix[i] == Row(sentence[..k], voc, n)
        invariant forall r :: 0 <= r < i ==> matrix[r] == Row(docs[r], voc, n)
        invariant forall r :: i < r < |docs| ==> matrix[r] == Zeros(n)
      {
        var word := sentence[k];
        var col := voc[word];
        RowSnoc(sentence[..k], word, voc, n);
        assert sentence[..k + 1] == sentence[..k] + [word];
        matrix := matrix[i := matrix[i][col := matrix[i][col] + 1]];
      }
      assert sentence[..|sentence|] == sentence;
    }
    forall i | 0 <= i < |docs| ensures Sum(matrix[i]) == |docs[i]| {
      RowSum(docs[i], voc, n);
    }
  }

  /** An empty dict lists no keys. */
  lemma EmptyDict(voc: map<string, nat>, order: seq<string>)
    requires DictInvariant(voc, order) && voc == map[]
    ensures order == []
  {
    DictSize(voc, order);
  }

  /** Merging into an empty dict gives the merged index map, with its keys in list order. */
  lemma FreshMerge(voc: map<string, nat>, order: seq<string>, u: seq<string>)
    requires voc == map[] + IndexMap(u)
    requires order == [] + NewKeys(u, {})
    ensures order == u && voc == IndexMap(u)
  {
    NewKeysNone(u);
    assert map[] + IndexMap(u) == IndexMap(u);
  }

  /** Cell `[i][j]` is the number of occurrences of feature `j` in document `i`. */
  ghost predicate CountsOccurrences(corpus: seq<string>, matrix: seq<seq<int>>, features: seq<string>)
  {
    && |matrix| == |corpus|
    && forall i, j :: 0 <= i < |corpus| && 0 <= j < |features| ==>
         j < |matrix[i]| && matrix[i][j] == Occurrences(Normalize(corpus[i]), features[j])
  }

  /** With the vocabulary of a first fit, every cell counts the occurrences of its feature. */
  lemma {:induction false} FreshMatrix(corpus: seq<string>, matrix: seq<seq<int>>, u: seq<string>)
    requires NoDup(u) && |matrix| == |corpus|
    requires forall i :: 0 <= i < |corpus| ==> |matrix[i]| == |u| && matrix[i] == Row(Normalize(corpus[i]), IndexMap(u), |u|)
    ensures CountsOccurrences(corpus, matrix, u)
  {
    forall i, j | 0 <= i < |corpus| && 0 <= j < |u|
      ensures matrix[i][j] == Occurrences(Normalize(corpus[i]), u[j])
    {
      FreshRow(Normalize(corpus[i]), u, j);
    }
  }

  /** Under the vocabulary of a first fit, column `j` of a count row counts the `j`-th feature. */
  lemma FreshCounts(ws: seq<string>, u: seq<string>, row: seq<int>)
    requires NoDup(u) && row == Row(ws, IndexMap(u), |u|)
    ensures forall j :: 0 <= j < |u| ==> row[j] == Occurrences(ws, u[j])
  {
    forall j | 0 <= j < |u| ensures row[j] == Occurrences(ws, u[j]) {
      FreshRow(ws, u, j);
    }
  }

  /**
   A fit on a fresh vectorizer: the keys are the distinct tokens in first-occurrence
   order, each at its own position, and every cell counts its feature.
   */
  lemma FreshFit(voc0: map<string, nat>, order0: seq<string>, voc: map<string, nat>, order: seq<string>,
                 corpus: seq<string>, matrix: seq<seq<int>>)
    requires DictInvariant(voc0, order0) && voc0 == map[]
    requires voc == voc0 + IndexMap(Dedup(Tokens(corpus)))
    requires order == order0 + NewKeys(Dedup(Tokens(corpus)), voc0.Keys)
    requires |matrix| == |corpus|
    requires forall i :: 0 <= i < |corpus| ==> matrix[i] == Row(Normalize(corpus[i]), voc, |voc|) && |matrix[i]| == |voc|
    ensures order == Dedup(Tokens(corpus)) && voc == IndexMap(order)
    ensures CountsOccurrences(corpus, matrix, order)
  {
    EmptyDict(voc0, order0);
    assert voc0.Keys == {};
    FreshMerge(voc, order, Dedup(Tokens(corpus)));
    DictSize(voc, order);
    FreshMatrix(corpus, matrix, order);
  }

  class CountVectorizer {
    /** Token to column index (`self.vocabulary`). */
    var vocabulary: map<string, nat>
    /** The keys of `vocabulary` in insertion order. */
    var order: seq<string>

    /** The dict invariant of `vocabulary` and `order`. */
    ghost predicate Valid()
      reads this
    {
      DictInvariant(vocabulary, order)
    }

    /** `__init__`: an empty vocabulary. */
    constructor ()
      ensures Valid()
      ensures vocabulary == map[] && order == []
    {
      vocabulary := map[];
      order := [];
    }

    /**
     `__compute_vocabular`: collect the distinct tokens in first-occurrence order, then
     assign each its position. Keys from an earlier call are never removed: they keep
     their index unless they recur.
     */
    method ComputeVocabulary(allWords: seq<string>)
      requires Valid()
      modifies this
      ensures Valid()
      ensures vocabulary == old(vocabulary) + IndexMap(Dedup(allWords))
      ensures order == old(order) + NewKeys(Dedup(allWords), old(vocabulary).Keys)
    {
      var uniqWords := UniqueWords(allWords);
      AssignIndices(uniqWords);
    }

    /** The second loop of `__compute_vocabular`: `self.vocabulary[word] = idx` for each distinct word. */
    method AssignIndices(uniqWords: seq<string>)
      requires Valid() && NoDup(uniqWords)
      modifies this
      ensures Valid()
      ensures vocabulary == old(vocabulary) + IndexMap(uniqWords)
      ensures order == old(order) + NewKeys(uniqWords, old(vocabulary).Keys)
    {
      ghost var voc0, order0 := vocabulary, order;
      assert uniqWords[..0] == [];
      assert voc0 + IndexMap([]) == voc0;
      assert order0 + NewKeys([], voc0.Keys) == order0;
      for idx := 0 to |uniqWords|
        invariant Valid()
        invariant vocabulary == voc0 + IndexMap(uniqWords[..idx])
        invariant order == order0 + NewKeys(uniqWords[..idx], voc0.Keys)
      {
        var word := uniqWords[idx];
        ghost var voc, keys := vocabulary, order;
        if word !in vocabulary {
          order := order + [word];
        }
        vocabulary := vocabulary[word := idx];
        AssignStep(voc0, order0, voc, keys, uniqWords, idx, vocabulary, order);
      }
      assert uniqWords[..|uniqWords|] == uniqWords;
    }

    /**
     `fit_transform`: learn the vocabulary of the corpus, then count every token of
     every document into a matrix with one row per document and one column per key.
     */
    method FitTransform(corpus: seq<string>) returns (matrix: seq<seq<int>>)
      requires Valid()
      modifies this
      ensures Valid()
      ensures vocabulary == old(vocabulary) + IndexMap(Dedup(Tokens(corpus)))
      ensures order == old(order) + NewKeys(Dedup(Tokens(corpus)), old(vocabulary).Keys)
      ensures |matrix| == |corpus|
      ensures forall i :: 0 <= i < |corpus| ==> matrix[i] == Row(Normalize(corpus[i]), vocabulary, |vocabulary|)
      ensures forall i :: 0 <= i < |corpus| ==> |matrix[i]| == |vocabulary| && Sum(matrix[i]) == |Normalize(corpus[i])|
      ensures forall w :: w in old(vocabulary) ==> w in vocabulary && (w !in Tokens(corpus) ==> vocabulary[w] == old(vocabulary)[w])
      ensures old(vocabulary) == map[] ==> order == Dedup(Tokens(corpus)) && vocabulary == IndexMap(order)
      ensures old(vocabulary) == map[] ==> CountsOccurrences(corpus, matrix, order)
    {
      var newCorpus := NormalizeAll(corpus);
      assert forall i :: 0 <= i < |corpus| ==> newCorpus[i] == Normalize(corpus[i]);
      assert Tokens(corpus) == Flatten(newCorpus);
      ComputeVocabulary(Flatten(newCorpus));

      var n := |vocabulary|;
      DictSize(vocabulary, order);
      MergedIndexed(old(vocabulary), vocabulary, order, newCorpus);
      matrix := CountMatrix(newCorpus, vocabulary, n);

      if old(vocabulary) == map[] {
        FreshFit(old(vocabulary), old(order), vocabulary, order, corpus, matrix);
      }
    }

    /**
     A refit that forgets the vocabulary learnt before, as a refit is evidently meant
     to behave: whatever the earlier state, the result is that of a first fit.
     */
    method Refit(corpus: seq<string>) returns (matrix: seq<seq<int>>)
      requires Valid()
      modifies this
      ensures Valid()
      ensures order == Dedup(Tokens(corpus)) && vocabulary == IndexMap(order)
      ensures |matrix| == |corpus| && CountsOccurrences(corpus, matrix, order)
      ensures forall i :: 0 <= i < |corpus| ==> |matrix[i]| == |order| && Sum(matrix[i]) == |Normalize(corpus[i])|
    {
      vocabulary, order := map[], [];
      matrix := FitTransform(corpus);
      DictSize(vocabulary, order);
    }

    /**
     `transform`: count the tokens of one text against the current vocabulary. The
     first token that is not a key raises `KeyError`.
     */
    method Transform(text: string) returns (r: Result)
      requires Valid()
      ensures r.Ok? <==> forall k :: 0 <= k < |Normalize(text)| ==> Normalize(text)[k] in vocabulary
      ensures r.Ok? ==> r.vector == Row(Normalize(text), vocabulary, |vocabulary|)
      ensures r.Ok? ==> |r.vector| == |vocabulary| && Sum(r.vector) == |Normalize(text)|
      ensures r.KeyError? ==>
        exists k :: 0 <= k < |Normalize(text)| && Normalize(text)[k] == r.key && r.key !in vocabulary
          && forall m :: 0 <= m < k ==> Normalize(text)[m] in vocabulary
      ensures r.Ok? && vocabulary == IndexMap(order) ==>
        forall j :: 0 <= j < |r.vector| ==> j < |order| && r.vector[j] == Occurrences(Normalize(text), order[j])
    {
      var n := |vocabulary|;
      DictSize(vocabulary, order);
      var vector := Zeros(n);
      var newText := Normalize(text);
      RowEmpty(vocabulary, n);
      for k := 0 to |newText|
        invariant vector == Row(newText[..k], vocabulary, n)
        invariant forall m :: 0 <= m < k ==> newText[m] in vocabulary
      {
        var word := newText[k];
        if word !in vocabulary {
          return KeyError(word);
        }
        var col := vocabulary[word];
        RowSnoc(newText[..k], word, vocabulary, n);
        assert newText[..k + 1] == newText[..k] + [word];
        vector := vector[col := vector[col] + 1];
      }
      assert newText[..|newText|] == newText;
      RowSum(newText, vocabulary, n);
      if vocabulary == IndexMap(order) {
        FreshCounts(newText, order, vector);
      }
      return Ok(vector);
    }

    /** `get_feature_names`: the keys of the vocabulary in insertion order, each once. */
    function FeatureNames(): (names: seq<string>)
      reads this
      requires Valid()
      ensures |names| == |vocabulary| && NoDup(names)
      ensures forall w :: w in names <==> w in vocabulary
      ensures vocabulary == IndexMap(order) ==> forall i :: 0 <= i < |names| ==> vocabulary[names[i]] == i
    {
      DictSize(vocabulary, order);
      IndexMapPositions(order);
      order
    }
  }
}
