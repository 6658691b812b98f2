/**
 A second `fit_transform` on the same vectorizer. The vocabulary is merged into, not
 replaced, so the indices of the second fit can land on a column that the feature
 names attribute to another word.
 */
module RefitSample {
  import opened Seqs
  import opened Text
  import opened Vocabulary
  import opened Counting
  import opened Vectorizer

  /** The tokens of a one-document corpus are those of the document. */
  lemma TokensOfOne(corpus: seq<string>)
    requires |corpus| == 1
    ensures Tokens(corpus) == Normalize(corpus[0])
  {
    var docs := NormalizeAll(corpus);
    assert docs[0] == Normalize(corpus[0]) && docs[1..] == [];
    assert Flatten(docs[1..]) == [];
    assert docs[0] + [] == docs[0];
  }

  /** Two distinct words are already distinct. */
  lemma DedupPair(x: string, y: string)
    requires x != y
    ensures Dedup([x, y]) == [x, y] && Dedup([y]) == [y]
  {
    assert Dedup([x]) == [x] by {
      assert [x][..0] == [];
    }
    assert Dedup([y]) == [y] by {
      assert [y][..0] == [];
    }
    assert Dedup([x, y]) == Dedup([x]) + [y] by {
      assert [x, y][..1] == [x];
    }
  }

  /** The first fit indexes `x`, `y` as 0, 1; the second indexes `y` as 0. */
  lemma IndexPair(x: string, y: string)
    requires x != y
    ensures IndexMap([x, y]) == map[x := 0, y := 1] && IndexMap([y]) == map[y := 0]
  {
    assert [x, y][..1] == [x];
    assert [x][..0] == [] && [y][..0] == [];
  }

  /** The first fit learns `x`, `y` in that order. */
  lemma FirstFit(first: string, x: string, y: string)
    requires x != y && Normalize(first) == [x, y]
    ensures Dedup(Tokens([first])) == [x, y]
  {
    TokensOfOne([first]);
    DedupPair(x, y);
  }

  /** The tokens the second fit learns. */
  lemma SecondTokens(second: string, y: string)
    requires Normalize(second) == [y]
    ensures Dedup(Tokens([second])) == [y]
  {
    TokensOfOne([second]);
    assert [y][..0] == [];
  }

  /** The second fit assigns index 0 to `y`, which is already a key: both keys now hold index 0. */
  lemma SecondFitIndices(x: string, y: string, voc0: map<string, nat>, voc: map<string, nat>)
    requires x != y && voc0 == IndexMap([x, y])
    requires voc == voc0 + IndexMap([y])
    ensures x in voc && y in voc && voc[x] == 0 && voc[y] == 0
  {
    IndexPair(x, y);
  }

  /** No key is new to the second fit, so the key order stays `x`, `y`. */
  lemma SecondFitOrder(x: string, y: string, voc0: map<string, nat>, order: seq<string>)
    requires x != y && voc0 == IndexMap([x, y])
    requires order == [x, y] + NewKeys([y], voc0.Keys)
    ensures order == [x, y]
  {
    assert [y][..0] == [];
    assert y in voc0;
  }

  /** A lone `y` counted against a dict that sends it to 0 lands in column 0. */
  lemma RowOfSecond(y: string, voc: map<string, nat>)
    requires y in voc && voc[y] == 0
    ensures Row([y], voc, 2) == [1, 0]
  {
    RowEmpty(voc, 2);
    RowSnoc([], y, voc, 2);
    assert [] + [y] == [y];
  }

  /** The matrix of the second fit, from the rows `fit_transform` promises. */
  lemma SecondMatrix(y: string, second: string, voc: map<string, nat>, matrix: seq<seq<int>>)
    requires Normalize(second) == [y] && y in voc && voc[y] == 0 && |voc| == 2
    requires |matrix| == 1 && matrix[0] == Row(Normalize(second), voc, |voc|)
    ensures matrix == [[1, 0]]
  {
    RowOfSecond(y, voc);
  }

  /** The vector of `transform` on the second document, from the outcome `transform` promises. */
  lemma SecondVector(y: string, second: string, voc: map<string, nat>, r: Result)
    requires Normalize(second) == [y] && y in voc && voc[y] == 0 && |voc| == 2
    requires r.Ok? <==> forall k :: 0 <= k < |Normalize(second)| ==> Normalize(second)[k] in voc
    requires r.Ok? ==> r.vector == Row(Normalize(second), voc, |voc|)
    ensures r == Ok([1, 0])
  {
    RowOfSecond(y, voc);
    assert Normalize(second)[0] in voc;
  }

  /** `fit_transform([first])` on a fresh vectorizer learns `x` at 0 and `y` at 1. */
  method FitFirst(first: string, x: string, y: string) returns (vectorizer: CountVectorizer)
    requires x != y && Normalize(first) == [x, y]
    ensures fresh(vectorizer) && vectorizer.Valid()
    ensures vectorizer.order == [x, y] && vectorizer.vocabulary == IndexMap([x, y])
  {
    vectorizer := new CountVectorizer();
    FirstFit(first, x, y);
    var learnt := vectorizer.FitTransform([first]);
  }

  /** `fit_transform([second])` on that vectorizer: `y` moves to column 0, which `x` keeps. */
  method FitSecond(vectorizer: CountVectorizer, second: string, x: string, y: string) returns (matrix: seq<seq<int>>)
    requires x != y && Normalize(second) == [y]
    requires vectorizer.Valid() && vectorizer.order == [x, y] && vectorizer.vocabulary == IndexMap([x, y])
    modifies vectorizer
    ensures vectorizer.Valid() && vectorizer.order == [x, y]
    ensures x in vectorizer.vocabulary && y in vectorizer.vocabulary
    ensures vectorizer.vocabulary[x] == 0 && vectorizer.vocabulary[y] == 0
    ensures matrix == [[1, 0]]
  {
    ghost var voc0 := vectorizer.vocabulary;
    SecondTokens(second, y);
    matrix := vectorizer.FitTransform([second]);
    SecondFitIndices(x, y, voc0, vectorizer.vocabulary);
    SecondFitOrder(x, y, voc0, vectorizer.order);
    DictSize(vectorizer.vocabulary, vectorizer.order);
    SecondMatrix(y, second, vectorizer.vocabulary, matrix);
  }

  /**
   `fit_transform` on a document with tokens `x y`, then on one with the token `y`,
   on a fresh vectorizer: the feature names stay `x`, `y`, but the occurrence of `y`
   is counted in column 0, the column of `x`, both in the matrix and by `transform`.
   */
  method CollidingRefit(first: string, second: string, x: string, y: string) returns (names: seq<string>, matrix: seq<seq<int>>, vector: Result)
    requires x != y && Normalize(first) == [x, y] && Normalize(second) == [y]
    ensures names == [x, y]
    ensures matrix == [[1, 0]]
    ensures vector == Ok([1, 0])
  {
    var vectorizer := FitFirst(first, x, y);
    matrix := FitSecond(vectorizer, second, x, y);
    names := vectorizer.FeatureNames();
    vector := vectorizer.Transform(second);
    SecondVector(y, second, vectorizer.vocabulary, vector);
  }

  /** The texts `a b` and `b` normalise to their words. */
  lemma NormalizeSample()
    ensures Normalize(Join(["a", "b"])) == ["a", "b"] && Normalize(Join(["b"])) == ["b"]
  {
    assert IsToken("a") && IsLower("a") && IsToken("b") && IsLower("b");
    NormalizeJoin(["a", "b"]);
    NormalizeJoin(["b"]);
  }

  /** The same on the texts `a b` and `b`. */
  method CollidingRefitSample() returns (names: seq<string>, matrix: seq<seq<int>>, vector: Result)
    ensures names == ["a", "b"]
    ensures matrix == [[1, 0]]
    ensures vector == Ok([1, 0])
  {
    NormalizeSample();
    names, matrix, vector := CollidingRefit(Join(["a", "b"]), Join(["b"]), "a", "b");
  }
}
