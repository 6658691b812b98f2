/**
 The sample run of `CountVectorizer.py`: two recipe titles are fitted, then the
 feature names, the count matrix and the vector of one query are read back.

 The values are computed step by step through the general lemmas: each title is
 the single-space join of its words, the feature list is built one token at a time
 as `uniq_words` is, and each row one token at a time as the counting loop does.
 */
module SampleText {
  import opened Text

  lemma LowerCrock() ensures Lower("Crock") == "crock" {}
  lemma LowerPot() ensures Lower("Pot") == "pot" {}
  lemma LowerPasta() ensures Lower("Pasta") == "pasta" {}
  lemma LowerNever() ensures Lower("Never") == "never" {}
  lemma LowerPomodoro() ensures Lower("Pomodoro") == "pomodoro" {}
  lemma LowerFresh() ensures Lower("Fresh") == "fresh" {}
  lemma LowerParmesan() ensures Lower("Parmesan") == "parmesan" {}

  lemma LowercaseWords()
    ensures IsLower("boil") && IsLower("pasta") && IsLower("again")
    ensures IsLower("ingredients") && IsLower("to") && IsLower("taste")
  {
  }

  lemma LowerRecipe1()
    ensures LowerAll(["Crock", "Pot", "Pasta", "Never", "boil", "pasta", "again"]) == ["crock", "pot", "pasta", "never", "boil", "pasta", "again"]
  {
    LowerCrock(); LowerPot(); LowerPasta(); LowerNever(); LowercaseWords();
  }

  lemma LowerRecipe2()
    ensures LowerAll(["Pasta", "Pomodoro", "Fresh", "ingredients", "Parmesan", "to", "taste"]) == ["pasta", "pomodoro", "fresh", "ingredients", "parmesan", "to", "taste"]
  {
    LowerPasta(); LowerPomodoro(); LowerFresh(); LowerParmesan(); LowercaseWords();
  }

  lemma LowerQuery()
    ensures LowerAll(["Pasta", "Pomodoro", "Fresh"]) == ["pasta", "pomodoro", "fresh"]
  {
    LowerPasta(); LowerPomodoro(); LowerFresh();
  }

  lemma NormalizeRecipe1()
    ensures Normalize(Join(["Crock", "Pot", "Pasta", "Never", "boil", "pasta", "again"])) == ["crock", "pot", "pasta", "never", "boil", "pasta", "again"]
  {
    var ts := ["Crock", "Pot", "Pasta", "Never", "boil", "pasta", "again"];
    assert forall i :: 0 <= i < |ts| ==> IsToken(ts[i]);
    NormalizeJoinLower(ts);
    LowerRecipe1();
  }

  lemma NormalizeRecipe2()
    ensures Normalize(Join(["Pasta", "Pomodoro", "Fresh", "ingredients", "Parmesan", "to", "taste"])) == ["pasta", "pomodoro", "fresh", "ingredients", "parmesan", "to", "taste"]
  {
    var ts := ["Pasta", "Pomodoro", "Fresh", "ingredients", "Parmesan", "to", "taste"];
    assert forall i :: 0 <= i < |ts| ==> IsToken(ts[i]);
    NormalizeJoinLower(ts);
    LowerRecipe2();
  }

  lemma NormalizeQuery()
    ensures Normalize(Join(["Pasta", "Pomodoro", "Fresh"])) == ["pasta", "pomodoro", "fresh"]
  {
    var ts := ["Pasta", "Pomodoro", "Fresh"];
    assert forall i :: 0 <= i < |ts| ==> IsToken(ts[i]);
    NormalizeJoinLower(ts);
    LowerQuery();
  }

}

/** The feature list and the count rows of the sample run, on symbolic tokens. */
module SampleCounts {
  import opened Seqs
  import opened Vocabulary
  import opened Counting

  lemma FeaturesDistinct()
    ensures NoDup(["crock", "pot", "pasta", "never", "boil", "again", "pomodoro", "fresh", "ingredients", "parmesan", "to", "taste"])
  {
  }

  /** A token not yet seen is appended to `uniq_words`. */
  lemma DedupGrow(t: seq<string>, k: nat, f: seq<string>, m: nat)
    requires k < |t| && m < |f| && NoDup(f)
    requires Dedup(t[..k]) == f[..m] && t[k] == f[m]
    ensures Dedup(t[..k + 1]) == f[..m + 1]
  {
    assert t[..k + 1][..k] == t[..k];
    assert f[..m + 1] == f[..m] + [f[m]];
  }

  /** A token already seen leaves `uniq_words` unchanged. */
  lemma DedupKeep(t: seq<string>, k: nat, f: seq<string>, m: nat, j: nat)
    requires k < |t| && j < m <= |f|
    requires Dedup(t[..k]) == f[..m] && t[k] == f[j]
    ensures Dedup(t[..k + 1]) == f[..m]
  {
    assert t[..k + 1][..k] == t[..k];
    assert f[..m][j] == f[j];
  }

  /** The first seven tokens of the corpus give the first six features. */
  lemma DedupFirstTitle(t: seq<string>, f: seq<string>)
    requires |f| == 12 && NoDup(f) && |t| == 14
    requires t[0] == f[0] && t[1] == f[1] && t[2] == f[2] && t[3] == f[3] && t[4] == f[4] && t[5] == f[2] && t[6] == f[5] && t[7] == f[2] && t[8] == f[6] && t[9] == f[7] && t[10] == f[8] && t[11] == f[9] && t[12] == f[10] && t[13] == f[11]
    ensures Dedup(t[..7]) == f[..6]
  {
    assert t[..0] == [] && f[..0] == [];
    DedupGrow(t, 0, f, 0);
    DedupGrow(t, 1, f, 1);
    DedupGrow(t, 2, f, 2);
    DedupGrow(t, 3, f, 3);
    DedupGrow(t, 4, f, 4);
    DedupKeep(t, 5, f, 5, 2);
    DedupGrow(t, 6, f, 5);
  }

  /** The whole corpus gives all twelve features. */
  lemma DedupBothTitles(t: seq<string>, f: seq<string>)
    requires |f| == 12 && NoDup(f) && |t| == 14
    requires t[0] == f[0] && t[1] == f[1] && t[2] == f[2] && t[3] == f[3] && t[4] == f[4] && t[5] == f[2] && t[6] == f[5] && t[7] == f[2] && t[8] == f[6] && t[9] == f[7] && t[10] == f[8] && t[11] == f[9] && t[12] == f[10] && t[13] == f[11]
    ensures Dedup(t) == f
  {
    DedupFirstTitle(t, f);
    DedupKeep(t, 7, f, 6, 2);
    DedupGrow(t, 8, f, 6);
    DedupGrow(t, 9, f, 7);
    DedupGrow(t, 10, f, 8);
    DedupGrow(t, 11, f, 9);
    DedupGrow(t, 12, f, 10);
    DedupGrow(t, 13, f, 11);
    assert t[..14] == t && f[..12] == f;
  }


  /** The distinct tokens of the sample corpus are the twelve features. */
  lemma SampleFeatureList()
    ensures NoDup(["crock", "pot", "pasta", "never", "boil", "again", "pomodoro", "fresh", "ingredients", "parmesan", "to", "taste"])
    ensures Dedup(["crock", "pot", "pasta", "never", "boil", "pasta", "again"] + ["pasta", "pomodoro", "fresh", "ingredients", "parmesan", "to", "taste"]) == ["crock", "pot", "pasta", "never", "boil", "again", "pomodoro", "fresh", "ingredients", "parmesan", "to", "taste"]
  {
    FeaturesDistinct();
    DedupBothTitles(["crock", "pot", "pasta", "never", "boil", "pasta", "again"] + ["pasta", "pomodoro", "fresh", "ingredients", "parmesan", "to", "taste"], ["crock", "pot", "pasta", "never", "boil", "again", "pomodoro", "fresh", "ingredients", "parmesan", "to", "taste"]);
  }

  /** One more token counted: the cell at its index goes up by one. */
  lemma RowGrow(t: seq<string>, k: nat, voc: map<string, nat>, n: nat, row: seq<int>, c: nat, row': seq<int>)
    requires k < |t| && t[k] in voc && voc[t[k]] == c && c < n
    requires Row(t[..k], voc, n) == row && c < |row| && row' == row[c := row[c] + 1]
    ensures Row(t[..k + 1], voc, n) == row'
  {
    assert t[..k + 1] == t[..k] + [t[k]];
    RowSnoc(t[..k], t[k], voc, n);
  }

  /** The first four tokens of the first title. */
  lemma RowFirstTitleStart(t: seq<string>, f: seq<string>, voc: map<string, nat>)
    requires |f| == 12 && (forall p :: 0 <= p < 12 ==> f[p] in voc && voc[f[p]] == p) && |t| == 7
    requires t[0] == f[0] && t[1] == f[1] && t[2] == f[2] && t[3] == f[3] && t[4] == f[4] && t[5] == f[2] && t[6] == f[5]
    ensures Row(t[..4], voc, 12) == [1, 1, 1, 1, 0, 0, 0, 0, 0, 0, 0, 0]
  {
    assert t[..0] == [];
    RowEmpty(voc, 12);
    assert Zeros(12) == [0, 0, 0, 0, 0, 0, 0, 0, 0, 0, 0, 0];
    RowGrow(t, 0, voc, 12, [0, 0, 0, 0, 0, 0, 0, 0, 0, 0, 0, 0], 0, [1, 0, 0, 0, 0, 0, 0, 0, 0, 0, 0, 0]);
    RowGrow(t, 1, voc, 12, [1, 0, 0, 0, 0, 0, 0, 0, 0, 0, 0, 0], 1, [1, 1, 0, 0, 0, 0, 0, 0, 0, 0, 0, 0]);
    RowGrow(t, 2, voc, 12, [1, 1, 0, 0, 0, 0, 0, 0, 0, 0, 0, 0], 2, [1, 1, 1, 0, 0, 0, 0, 0, 0, 0, 0, 0]);
    RowGrow(t, 3, voc, 12, [1, 1, 1, 0, 0, 0, 0, 0, 0, 0, 0, 0], 3, [1, 1, 1, 1, 0, 0, 0, 0, 0, 0, 0, 0]);
  }

  /** The row of the first title. */
  lemma RowFirstTitle(t: seq<string>, f: seq<string>, voc: map<string, nat>)
    requires |f| == 12 && (forall p :: 0 <= p < 12 ==> f[p] in voc && voc[f[p]] == p) && |t| == 7
    requires t[0] == f[0] && t[1] == f[1] && t[2] == f[2] && t[3] == f[3] && t[4] == f[4] && t[5] == f[2] && t[6] == f[5]
    ensures Row(t, voc, 12) == [1, 1, 2, 1, 1, 1, 0, 0, 0, 0, 0, 0]
  {
    RowFirstTitleStart(t, f, voc);
    RowGrow(t, 4, voc, 12, [1, 1, 1, 1, 0, 0, 0, 0, 0, 0, 0, 0], 4, [1, 1, 1, 1, 1, 0, 0, 0, 0, 0, 0, 0]);
    RowGrow(t, 5, voc, 12, [1, 1, 1, 1, 1, 0, 0, 0, 0, 0, 0, 0], 2, [1, 1, 2, 1, 1, 0, 0, 0, 0, 0, 0, 0]);
    RowGrow(t, 6, voc, 12, [1, 1, 2, 1, 1, 0, 0, 0, 0, 0, 0, 0], 5, [1, 1, 2, 1, 1, 1, 0, 0, 0, 0, 0, 0]);
    assert t[..7] == t;
  }

  /** The first four tokens of the second title. */
  lemma RowSecondTitleStart(t: seq<string>, f: seq<string>, voc: map<string, nat>)
    requires |f| == 12 && (forall p :: 0 <= p < 12 ==> f[p] in voc && voc[f[p]] == p) && |t| == 7
    requires t[0] == f[2] && t[1] == f[6] && t[2] == f[7] && t[3] == f[8] && t[4] == f[9] && t[5] == f[10] && t[6] == f[11]
    ensures Row(t[..4], voc, 12) == [0, 0, 1, 0, 0, 0, 1, 1, 1, 0, 0, 0]
  {
    assert t[..0] == [];
    RowEmpty(voc, 12);
    assert Zeros(12) == [0, 0, 0, 0, 0, 0, 0, 0, 0, 0, 0, 0];
    RowGrow(t, 0, voc, 12, [0, 0, 0, 0, 0, 0, 0, 0, 0, 0, 0, 0], 2, [0, 0, 1, 0, 0, 0, 0, 0, 0, 0, 0, 0]);
    RowGrow(t, 1, voc, 12, [0, 0, 1, 0, 0, 0, 0, 0, 0, 0, 0, 0], 6, [0, 0, 1, 0, 0, 0, 1, 0, 0, 0, 0, 0]);
    RowGrow(t, 2, voc, 12, [0, 0, 1, 0, 0, 0, 1, 0, 0, 0, 0, 0], 7, [0, 0, 1, 0, 0, 0, 1, 1, 0, 0, 0, 0]);
    RowGrow(t, 3, voc, 12, [0, 0, 1, 0, 0, 0, 1, 1, 0, 0, 0, 0], 8, [0, 0, 1, 0, 0, 0, 1, 1, 1, 0, 0, 0]);
  }

  /** The row of the second title. */
  lemma RowSecondTitle(t: seq<string>, f: seq<string>, voc: map<string, nat>)
    requires |f| == 12 && (forall p :: 0 <= p < 12 ==> f[p] in voc && voc[f[p]] == p) && |t| == 7
    requires t[0] == f[2] && t[1] == f[6] && t[2] == f[7] && t[3] == f[8] && t[4] == f[9] && t[5] == f[10] && t[6] == f[11]
    ensures Row(t, voc, 12) == [0, 0, 1, 0, 0, 0, 1, 1, 1, 1, 1, 1]
  {
    RowSecondTitleStart(t, f, voc);
    RowGrow(t, 4, voc, 12, [0, 0, 1, 0, 0, 0, 1, 1, 1, 0, 0, 0], 9, [0, 0, 1, 0, 0, 0, 1, 1, 1, 1, 0, 0]);
    RowGrow(t, 5, voc, 12, [0, 0, 1, 0, 0, 0, 1, 1, 1, 1, 0, 0], 10, [0, 0, 1, 0, 0, 0, 1, 1, 1, 1, 1, 0]);
    RowGrow(t, 6, voc, 12, [0, 0, 1, 0, 0, 0, 1, 1, 1, 1, 1, 0], 11, [0, 0, 1, 0, 0, 0, 1, 1, 1, 1, 1, 1]);
    assert t[..7] == t;
  }

  /** The vector of the query. */
  lemma RowQuery(t: seq<string>, f: seq<string>, voc: map<string, nat>)
    requires |f| == 12 && (forall p :: 0 <= p < 12 ==> f[p] in voc && voc[f[p]] == p) && |t| == 3
    requires t[0] == f[2] && t[1] == f[6] && t[2] == f[7]
    ensures Row(t, voc, 12) == [0, 0, 1, 0, 0, 0, 1, 1, 0, 0, 0, 0]
  {
    assert t[..0] == [];
    RowEmpty(voc, 12);
    assert Zeros(12) == [0, 0, 0, 0, 0, 0, 0, 0, 0, 0, 0, 0];
    RowGrow(t, 0, voc, 12, [0, 0, 0, 0, 0, 0, 0, 0, 0, 0, 0, 0], 2, [0, 0, 1, 0, 0, 0, 0, 0, 0, 0, 0, 0]);
    RowGrow(t, 1, voc, 12, [0, 0, 1, 0, 0, 0, 0, 0, 0, 0, 0, 0], 6, [0, 0, 1, 0, 0, 0, 1, 0, 0, 0, 0, 0]);
    RowGrow(t, 2, voc, 12, [0, 0, 1, 0, 0, 0, 1, 0, 0, 0, 0, 0], 7, [0, 0, 1, 0, 0, 0, 1, 1, 0, 0, 0, 0]);
    assert t[..3] == t;
  }

  /** The features of the sample run sit at their positions in the index map. */
  lemma SamplePositions(f: seq<string>, voc: map<string, nat>)
    requires f == ["crock", "pot", "pasta", "never", "boil", "again", "pomodoro", "fresh", "ingredients", "parmesan", "to", "taste"]
    requires voc == IndexMap(f)
    ensures forall p :: 0 <= p < 12 ==> f[p] in voc && voc[f[p]] == p
  {
    FeaturesDistinct();
    IndexMapPositions(f);
  }

  /** The count rows of the sample run under the vocabulary of its features. */
  lemma SampleRows(f: seq<string>, voc: map<string, nat>)
    requires f == ["crock", "pot", "pasta", "never", "boil", "again", "pomodoro", "fresh", "ingredients", "parmesan", "to", "taste"]
    requires forall p :: 0 <= p < 12 ==> f[p] in voc && voc[f[p]] == p
    ensures Row(["crock", "pot", "pasta", "never", "boil", "pasta", "again"], voc, 12) == [1, 1, 2, 1, 1, 1, 0, 0, 0, 0, 0, 0]
    ensures Row(["pasta", "pomodoro", "fresh", "ingredients", "parmesan", "to", "taste"], voc, 12) == [0, 0, 1, 0, 0, 0, 1, 1, 1, 1, 1, 1]
    ensures Row(["pasta", "pomodoro", "fresh"], voc, 12) == [0, 0, 1, 0, 0, 0, 1, 1, 0, 0, 0, 0]
  {
    RowFirstTitle(["crock", "pot", "pasta", "never", "boil", "pasta", "again"], f, voc);
    RowSecondTitle(["pasta", "pomodoro", "fresh", "ingredients", "parmesan", "to", "taste"], f, voc);
    RowQuery(["pasta", "pomodoro", "fresh"], f, voc);
  }
}

module Samples {
  import opened Seqs
  import opened Text
  import opened Vocabulary
  import opened Counting
  import opened Vectorizer
  import opened SampleText
  import opened SampleCounts

  /** The two recipe titles of the sample corpus. */
  const Recipes: seq<string> := ["Crock Pot Pasta Never boil pasta again", "Pasta Pomodoro Fresh ingredients Parmesan to taste"]

  /** The text transformed after fitting. */
  const Query: string := "Pasta Pomodoro Fresh"

  /** The words of the first title, joined one `Join` step at a time. */
  lemma FirstTitleWords()
    ensures Join(["Crock", "Pot", "Pasta", "Never", "boil", "pasta", "again"]) == "Crock" + " " + ("Pot" + " " + ("Pasta" + " " + ("Never" + " " + ("boil" + " " + ("pasta" + " " + "again")))))
  {
    JoinCons("pasta", ["again"]);
    JoinCons("boil", ["pasta", "again"]);
    JoinCons("Never", ["boil", "pasta", "again"]);
    JoinCons("Pasta", ["Never", "boil", "pasta", "again"]);
    JoinCons("Pot", ["Pasta", "Never", "boil", "pasta", "again"]);
    JoinCons("Crock", ["Pot", "Pasta", "Never", "boil", "pasta", "again"]);
  }

  /** The first title splits at the space after "Pasta". */
  lemma FirstTitleHalves()
    ensures "Crock Pot Pasta Never boil pasta again" == "Crock Pot Pasta" + " " + "Never boil pasta again"
  {
  }

  /** The two halves of the first title, word by word. */
  lemma FirstTitleParts()
    ensures "Crock Pot Pasta" == "Crock" + " " + ("Pot" + " " + "Pasta")
    ensures "Never boil pasta again" == "Never" + " " + ("boil" + " " + ("pasta" + " " + "again"))
  {
  }

  /** The first title as the concatenation `Join` builds. */
  lemma FirstTitleText()
    ensures "Crock Pot Pasta Never boil pasta again" == "Crock" + " " + ("Pot" + " " + ("Pasta" + " " + ("Never" + " " + ("boil" + " " + ("pasta" + " " + "again")))))
  {
    FirstTitleHalves();
    FirstTitleParts();
    var t := "Never boil pasta again";
    assert "Crock" + " " + ("Pot" + " " + "Pasta") + " " + t == "Crock" + " " + ("Pot" + " " + ("Pasta" + " " + t));
  }

  /** The first title is its words joined by single spaces. */
  lemma FirstTitleJoined()
    ensures Recipes[0] == Join(["Crock", "Pot", "Pasta", "Never", "boil", "pasta", "again"])
  {
    FirstTitleWords();
    FirstTitleText();
  }

  /** The words of the second title, joined one `Join` step at a time. */
  lemma SecondTitleWords()
    ensures Join(["Pasta", "Pomodoro", "Fresh", "ingredients", "Parmesan", "to", "taste"]) == "Pasta" + " " + ("Pomodoro" + " " + ("Fresh" + " " + ("ingredients" + " " + ("Parmesan" + " " + ("to" + " " + "taste")))))
  {
    JoinCons("to", ["taste"]);
    JoinCons("Parmesan", ["to", "taste"]);
    JoinCons("ingredients", ["Parmesan", "to", "taste"]);
    JoinCons("Fresh", ["ingredients", "Parmesan", "to", "taste"]);
    JoinCons("Pomodoro", ["Fresh", "ingredients", "Parmesan", "to", "taste"]);
    JoinCons("Pasta", ["Pomodoro", "Fresh", "ingredients", "Parmesan", "to", "taste"]);
  }

  /** The second title splits at the space after "Fresh". */
  lemma SecondTitleHalves()
    ensures "Pasta Pomodoro Fresh ingredients Parmesan to taste" == "Pasta Pomodoro Fresh" + " " + "ingredients Parmesan to taste"
  {
  }

  /** The two halves of the second title, word by word. */
  lemma SecondTitleParts()
    ensures "Pasta Pomodoro Fresh" == "Pasta" + " " + ("Pomodoro" + " " + "Fresh")
    ensures "ingredients Parmesan to taste" == "ingredients" + " " + ("Parmesan" + " " + ("to" + " " + "taste"))
  {
  }

  /** The second title as the concatenation `Join` builds. */
  lemma SecondTitleText()
    ensures "Pasta Pomodoro Fresh ingredients Parmesan to taste" == "Pasta" + " " + ("Pomodoro" + " " + ("Fresh" + " " + ("ingredients" + " " + ("Parmesan" + " " + ("to" + " " + "taste")))))
  {
    SecondTitleHalves();
    SecondTitleParts();
    var t := "ingredients Parmesan to taste";
    assert "Pasta" + " " + ("Pomodoro" + " " + "Fresh") + " " + t == "Pasta" + " " + ("Pomodoro" + " " + ("Fresh" + " " + t));
  }

  /** The second title is its words joined by single spaces. */
  lemma SecondTitleJoined()
    ensures Recipes[1] == Join(["Pasta", "Pomodoro", "Fresh", "ingredients", "Parmesan", "to", "taste"])
  {
    SecondTitleWords();
    SecondTitleText();
  }

  /** The words of the query, joined one `Join` step at a time. */
  lemma QueryWords()
    ensures Join(["Pasta", "Pomodoro", "Fresh"]) == "Pasta" + " " + ("Pomodoro" + " " + "Fresh")
  {
    JoinCons("Pomodoro", ["Fresh"]);
    JoinCons("Pasta", ["Pomodoro", "Fresh"]);
  }

  /** The literal query as the same concatenation. */
  lemma QueryText()
    ensures Query == "Pasta" + " " + ("Pomodoro" + " " + "Fresh")
  {
  }

  /** The query is its words joined by single spaces. */
  lemma QueryJoined()
    ensures Query == Join(["Pasta", "Pomodoro", "Fresh"])
  {
    QueryWords();
    QueryText();
  }

  /** The feature names of the sample corpus, in first-occurrence order. */
  const Features: seq<string> := ["crock", "pot", "pasta", "never", "boil", "again", "pomodoro", "fresh", "ingredients", "parmesan", "to", "taste"]

  /** A two-document corpus normalises document by document. */
  lemma NormalizedPair(corpus: seq<string>, d0: seq<string>, d1: seq<string>)
    requires |corpus| == 2 && Normalize(corpus[0]) == d0 && Normalize(corpus[1]) == d1
    ensures NormalizeAll(corpus) == [d0, d1]
  {
    assert NormalizeAll(corpus)[0] == d0 && NormalizeAll(corpus)[1] == d1;
  }

  /** The first title normalises to its words, lowercased. */
  lemma FirstTitleNormalized()
    ensures Normalize(Recipes[0]) == ["crock", "pot", "pasta", "never", "boil", "pasta", "again"]
  {
    FirstTitleJoined();
    NormalizeRecipe1();
  }

  /** The second title normalises to its words, lowercased. */
  lemma SecondTitleNormalized()
    ensures Normalize(Recipes[1]) == ["pasta", "pomodoro", "fresh", "ingredients", "parmesan", "to", "taste"]
  {
    SecondTitleJoined();
    NormalizeRecipe2();
  }

  /** `new_corpus` of the sample corpus: each title's words, lowercased. */
  lemma RecipesNormalized()
    ensures NormalizeAll(Recipes) == [["crock", "pot", "pasta", "never", "boil", "pasta", "again"], ["pasta", "pomodoro", "fresh", "ingredients", "parmesan", "to", "taste"]]
  {
    FirstTitleNormalized();
    SecondTitleNormalized();
    NormalizedPair(Recipes, ["crock", "pot", "pasta", "never", "boil", "pasta", "again"], ["pasta", "pomodoro", "fresh", "ingredients", "parmesan", "to", "taste"]);
  }

  /** The tokens of a two-document corpus are those of the first, then those of the second. */
  lemma TokensOfPair(corpus: seq<string>)
    requires |corpus| == 2
    ensures Tokens(corpus) == Normalize(corpus[0]) + Normalize(corpus[1])
  {
    var docs := NormalizeAll(corpus);
    assert docs[1..][0] == docs[1] && docs[1..][1..] == [];
    assert Flatten(docs[1..]) == docs[1] + Flatten(docs[1..][1..]);
    assert docs[1] + [] == docs[1];
  }

  /** A corpus that normalises as the sample one has the sample features. */
  lemma CorpusFeatures(corpus: seq<string>)
    requires NormalizeAll(corpus) == [["crock", "pot", "pasta", "never", "boil", "pasta", "again"], ["pasta", "pomodoro", "fresh", "ingredients", "parmesan", "to", "taste"]]
    ensures NoDup(Features) && Dedup(Tokens(corpus)) == Features
  {
    assert |corpus| == 2;
    assert Normalize(corpus[0]) == NormalizeAll(corpus)[0];
    assert Normalize(corpus[1]) == NormalizeAll(corpus)[1];
    TokensOfPair(corpus);
    SampleFeatureList();
  }

  /** The matrix of the sample run, from the rows `fit_transform` builds. */
  lemma SampleMatrix(corpus: seq<string>, matrix: seq<seq<int>>, f: seq<string>, voc: map<string, nat>)
    requires NormalizeAll(corpus) == [["crock", "pot", "pasta", "never", "boil", "pasta", "again"], ["pasta", "pomodoro", "fresh", "ingredients", "parmesan", "to", "taste"]]
    requires f == Features && |voc| == 12
    requires forall p :: 0 <= p < 12 ==> f[p] in voc && voc[f[p]] == p
    requires |matrix| == |corpus| && forall i :: 0 <= i < |corpus| ==> matrix[i] == Row(Normalize(corpus[i]), voc, |voc|)
    ensures matrix == [[1, 1, 2, 1, 1, 1, 0, 0, 0, 0, 0, 0], [0, 0, 1, 0, 0, 0, 1, 1, 1, 1, 1, 1]]
  {
    assert Normalize(corpus[0]) == NormalizeAll(corpus)[0];
    assert Normalize(corpus[1]) == NormalizeAll(corpus)[1];
    SampleRows(f, voc);
  }

  /** The vector of the sample query, from the outcome `transform` promises. */
  lemma SampleVector(r: Result, ws: seq<string>, f: seq<string>, voc: map<string, nat>)
    requires ws == ["pasta", "pomodoro", "fresh"] && f == Features
    requires forall p :: 0 <= p < 12 ==> f[p] in voc && voc[f[p]] == p
    requires r.Ok? <==> forall k :: 0 <= k < |ws| ==> ws[k] in voc
    requires |voc| == 12 && (r.Ok? ==> r.vector == Row(ws, voc, |voc|))
    ensures r == Ok([0, 0, 1, 0, 0, 0, 1, 1, 0, 0, 0, 0])
  {
    SampleRows(f, voc);
    assert ws[0] == f[2] && ws[1] == f[6] && ws[2] == f[7];
  }

  /** `transform` of the query once the vectorizer holds the sample vocabulary. */
  method TransformSampleQuery(vectorizer: CountVectorizer, query: string) returns (vector: Result)
    requires vectorizer.Valid() && vectorizer.order == Features && vectorizer.vocabulary == IndexMap(vectorizer.order)
    requires |vectorizer.vocabulary| == 12
    requires Normalize(query) == ["pasta", "pomodoro", "fresh"]
    ensures vector == Ok([0, 0, 1, 0, 0, 0, 1, 1, 0, 0, 0, 0])
  {
    vector := vectorizer.Transform(query);
    SamplePositions(vectorizer.order, vectorizer.vocabulary);
    SampleVector(vector, Normalize(query), vectorizer.order, vectorizer.vocabulary);
  }

  /** `fit_transform` of the sample corpus on a fresh vectorizer. */
  method FitSample(corpus: seq<string>) returns (vectorizer: CountVectorizer, matrix: seq<seq<int>>)
    requires NormalizeAll(corpus) == [["crock", "pot", "pasta", "never", "boil", "pasta", "again"], ["pasta", "pomodoro", "fresh", "ingredients", "parmesan", "to", "taste"]]
    ensures fresh(vectorizer) && vectorizer.Valid()
    ensures vectorizer.order == Features && vectorizer.vocabulary == IndexMap(vectorizer.order) && |vectorizer.vocabulary| == 12
    ensures matrix == [[1, 1, 2, 1, 1, 1, 0, 0, 0, 0, 0, 0], [0, 0, 1, 0, 0, 0, 1, 1, 1, 1, 1, 1]]
  {
    vectorizer := new CountVectorizer();
    CorpusFeatures(corpus);
    matrix := vectorizer.FitTransform(corpus);
    DictSize(vectorizer.vocabulary, vectorizer.order);
    SamplePositions(vectorizer.order, vectorizer.vocabulary);
    SampleMatrix(corpus, matrix, vectorizer.order, vectorizer.vocabulary);
  }

  /**
   The run of `main` on any corpus and query that normalise as the sample ones do:
   fit, then read back the feature names, the count matrix and the query vector.
   */
  method RunOnTokens(corpus: seq<string>, query: string) returns (names: seq<string>, matrix: seq<seq<int>>, vector: Result)
    requires NormalizeAll(corpus) == [["crock", "pot", "pasta", "never", "boil", "pasta", "again"], ["pasta", "pomodoro", "fresh", "ingredients", "parmesan", "to", "taste"]]
    requires Normalize(query) == ["pasta", "pomodoro", "fresh"]
    ensures names == Features
    ensures matrix == [[1, 1, 2, 1, 1, 1, 0, 0, 0, 0, 0, 0], [0, 0, 1, 0, 0, 0, 1, 1, 1, 1, 1, 1]]
    ensures vector == Ok([0, 0, 1, 0, 0, 0, 1, 1, 0, 0, 0, 0])
  {
    var vectorizer;
    vectorizer, matrix := FitSample(corpus);
    names := vectorizer.FeatureNames();
    vector := TransformSampleQuery(vectorizer, query);
  }

  /** The run of `main` on the sample corpus. */
  method SampleRun() returns (names: seq<string>, matrix: seq<seq<int>>, vector: Result)
    ensures names == Features
    ensures matrix == [[1, 1, 2, 1, 1, 1, 0, 0, 0, 0, 0, 0], [0, 0, 1, 0, 0, 0, 1, 1, 1, 1, 1, 1]]
    ensures vector == Ok([0, 0, 1, 0, 0, 0, 1, 1, 0, 0, 0, 0])
  {
    RecipesNormalized();
    QueryJoined();
    NormalizeQuery();
    names, matrix, vector := RunOnTokens(Recipes, Query);
  }
}
