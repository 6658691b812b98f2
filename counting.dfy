/**
 Count rows: the value of one row of the matrix built by `fit_transform`, or of the
 vector built by `transform`, as a function of the tokens and the vocabulary.
 */
module Counting {
  import opened Seqs
  import opened Vocabulary

  /** How many of the tokens `ws` the vocabulary sends to column `j`. */
  function CountAt(ws: seq<string>, voc: map<string, nat>, j: nat): (c: nat)
    ensures c <= |ws|
  {
    if ws == [] then 0
    else
      var w := ws[|ws| - 1];
      CountAt(ws[..|ws| - 1], voc, j) + (if w in voc && voc[w] == j then 1 else 0)
  }

  /** The row of width `n` whose column `j` counts the tokens with index `j`. */
  function Row(ws: seq<string>, voc: map<string, nat>, n: nat): (row: seq<int>)
    ensures |row| == n
  {
    seq(n, j requires 0 <= j < n => CountAt(ws, voc, j))
  }

  /** `[0] * n`. */
  function Zeros(n: nat): seq<int>
  {
    seq(n, _ => 0)
  }

  function Sum(s: seq<int>): int
  {
    if s == [] then 0 else s[0] + Sum(s[1..])
  }

  /** Before any token is counted a row is all zeros. */
  lemma RowEmpty(voc: map<string, nat>, n: nat)
    ensures Row([], voc, n) == Zeros(n)
  {
  }

  /** Counting one more token increments exactly the cell at its index (`row[vocabulary[word]] += 1`). */
  lemma RowSnoc(ws: seq<string>, w: string, voc: map<string, nat>, n: nat)
    requires w in voc && voc[w] < n
    ensures Row(ws + [w], voc, n) == Row(ws, voc, n)[voc[w] := Row(ws, voc, n)[voc[w]] + 1]
  {
    assert (ws + [w])[..|ws|] == ws;
  }

  lemma {:induction false} SumIncrement(s: seq<int>, i: nat)
    requires i < |s|
    ensures Sum(s[i := s[i] + 1]) == Sum(s) + 1
  {
    if i > 0 {
      SumIncrement(s[1..], i - 1);
      assert s[i := s[i] + 1][1..] == s[1..][i - 1 := s[i] + 1];
    }
  }

  lemma {:induction false} SumZeros(n: nat)
    ensures Sum(Zeros(n)) == 0
  {
    if n > 0 {
      SumZeros(n - 1);
      assert Zeros(n)[1..] == Zeros(n - 1);
    }
  }

  /**
   When every token has a column inside the row, the row total is the number of
   tokens: each token is counted exactly once.
   */
  lemma {:induction false} RowSum(ws: seq<string>, voc: map<string, nat>, n: nat)
    requires forall k :: 0 <= k < |ws| ==> ws[k] in voc && voc[ws[k]] < n
    ensures Sum(Row(ws, voc, n)) == |ws|
  {
    if ws == [] {
      RowEmpty(voc, n);
      SumZeros(n);
    } else {
      var prefix, w := ws[..|ws| - 1], ws[|ws| - 1];
      assert ws == prefix + [w];
      RowSum(prefix, voc, n);
      RowSnoc(prefix, w, voc, n);
      SumIncrement(Row(prefix, voc, n), voc[w]);
    }
  }

  /** When no other token shares `w`'s column, that column counts the occurrences of `w`. */
  lemma {:induction false} CountAtOccurrences(ws: seq<string>, voc: map<string, nat>, w: string)
    requires w in voc
    requires forall x :: x in voc && voc[x] == voc[w] ==> x == w
    ensures CountAt(ws, voc, voc[w]) == Occurrences(ws, w)
  {
    if ws != [] {
      CountAtOccurrences(ws[..|ws| - 1], voc, w);
    }
  }

  /**
   With the vocabulary of a first fit (the index map of a duplicate-free token list),
   cell `j` of a row is the number of occurrences of the `j`-th feature.
   */
  lemma FreshRow(ws: seq<string>, u: seq<string>, j: nat)
    requires NoDup(u) && j < |u|
    ensures |Row(ws, IndexMap(u), |u|)| == |u|
    ensures Row(ws, IndexMap(u), |u|)[j] == Occurrences(ws, u[j])
  {
    IndexMapAt(u, j);
    CountAtOccurrences(ws, IndexMap(u), u[j]);
  }
}
