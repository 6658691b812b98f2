/**
 The vocabulary built by `CountVectorizer.__compute_vocabular`: the distinct tokens
 in first-occurrence order (`uniq_words`), each given its position as column index.
 */
module Vocabulary {
  import opened Seqs

  /**
   `uniq_words`: scan the tokens left to right and append each one not seen before.
   Stated from the right end so that one step matches one iteration of the loop.
   */
  function Dedup(ws: seq<string>): (u: seq<string>)
    ensures NoDup(u)
    ensures forall w :: w in u <==> w in ws
  {
    if ws == [] then []
    else
      var prefix := ws[..|ws| - 1];
      var u := Dedup(prefix);
      var w := ws[|ws| - 1];
      assert ws == prefix + [w];
      if w in u then u else u + [w]
  }

  /** The first loop of `__compute_vocabular`, which builds `uniq_words`. */
  method UniqueWords(allWords: seq<string>) returns (uniqWords: seq<string>)
    ensures uniqWords == Dedup(allWords)
  {
    uniqWords := [];
    for i := 0 to |allWords|
      invariant uniqWords == Dedup(allWords[..i])
    {
      var el := allWords[i];
      assert allWords[..i + 1] == allWords[..i] + [el];
      if el !in uniqWords {
        uniqWords := uniqWords + [el];
      }
    }
    assert allWords[..|allWords|] == allWords;
  }

  /**
   The distinct tokens keep the order of their first occurrences: an earlier entry of
   `Dedup(ws)` occurs for the first time in `ws` before a later one does.
   */
  lemma {:induction false} DedupFirstOccurrence(ws: seq<string>)
    ensures forall i, j :: 0 <= i < j < |Dedup(ws)| ==>
      FirstIndex(ws, Dedup(ws)[i]) < FirstIndex(ws, Dedup(ws)[j])
  {
    if ws != [] {
      var prefix := ws[..|ws| - 1];
      var w := ws[|ws| - 1];
      assert ws == prefix + [w];
      var u := Dedup(prefix);
      DedupFirstOccurrence(prefix);
      forall x | x in prefix ensures FirstIndex(ws, x) == FirstIndex(prefix, x) {
        FirstIndexSnoc(prefix, w, x);
      }
      if w !in u {
        assert w !in prefix;
        assert FirstIndex(ws, w) == |prefix|;
        forall i | 0 <= i < |u| ensures FirstIndex(ws, u[i]) < |prefix| {
          assert u[i] in prefix;
        }
      }
    }
  }

  /**
   The index assignment of the second loop of `__compute_vocabular`, on an empty
   dict: `m[u[idx]] = idx` for each position in turn, so a later position wins.
   */
  function IndexMap(u: seq<string>): (m: map<string, nat>)
    ensures forall w :: w in m <==> w in u
    ensures forall w :: w in m ==> m[w] < |u| && u[m[w]] == w
  {
    if u == [] then map[]
    else
      var prefix, w := u[..|u| - 1], u[|u| - 1];
      assert u == prefix + [w];
      IndexMap(prefix)[w := |u| - 1]
  }

  /** For a duplicate-free list the index map is a bijection onto `0 .. |u| - 1`. */
  lemma {:induction false} IndexMapAt(u: seq<string>, k: nat)
    requires NoDup(u) && k < |u|
    ensures u[k] in IndexMap(u) && IndexMap(u)[u[k]] == k
  {
    if k < |u| - 1 {
      var prefix := u[..|u| - 1];
      assert prefix[k] == u[k];
      IndexMapAt(prefix, k);
    }
  }

  /** Every entry of a duplicate-free list is mapped to its own position. */
  lemma IndexMapPositions(u: seq<string>)
    requires NoDup(u)
    ensures forall i :: 0 <= i < |u| ==> u[i] in IndexMap(u) && IndexMap(u)[u[i]] == i
  {
    forall i | 0 <= i < |u| ensures u[i] in IndexMap(u) && IndexMap(u)[u[i]] == i {
      IndexMapAt(u, i);
    }
  }

  /** One iteration of the indexing loop: extending `u[..i]` by `u[i]` maps `u[i]` to `i`. */
  lemma IndexMapSnoc(u: seq<string>, i: nat)
    requires i < |u|
    ensures IndexMap(u[..i + 1]) == IndexMap(u[..i])[u[i] := i]
  {
    assert u[..i + 1][..i] == u[..i];
  }

  /** The entries of `u` not already among `keys`, in order: the keys a dict appends when `u` is assigned into it. */
  function NewKeys(u: seq<string>, keys: set<string>): (r: seq<string>)
    ensures forall w {:trigger w in r} :: w in r <==> w in u && w !in keys
    ensures NoDup(u) ==> NoDup(r)
  {
    if u == [] then []
    else
      var prefix := u[..|u| - 1];
      var w := u[|u| - 1];
      assert u == prefix + [w];
      var r := NewKeys(prefix, keys);
      assert NoDup(u) ==> w !in prefix && NoDup(prefix);
      assert w !in prefix ==> w !in r;
      r + (if w in keys then [] else [w])
  }

  /** Assigning into an empty dict appends every key. */
  lemma {:induction false} NewKeysNone(u: seq<string>)
    ensures NewKeys(u, {}) == u
  {
    if u != [] {
      NewKeysNone(u[..|u| - 1]);
      assert u == u[..|u| - 1] + [u[|u| - 1]];
    }
  }
}
