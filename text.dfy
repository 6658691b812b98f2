/**
 Sentence normalisation: `str.split()` with no separator followed by `str.lower()`
 on every token (`CountVectorizer._transform_sentence`).

 Splitting uses exactly the characters Python's `str.isspace` accepts; lowercasing
 maps only the ASCII letters `A`-`Z`.
 */
module Text {
  import opened Seqs

  /** The separators of Python's argument-less `str.split()`. */
  predicate IsSpace(c: char)
  {
    || ('\U{9}' <= c <= '\U{D}')
    || ('\U{1C}' <= c <= '\U{20}')
    || c == '\U{85}' || c == '\U{A0}' || c == '\U{1680}'
    || ('\U{2000}' <= c <= '\U{200A}')
    || c == '\U{2028}' || c == '\U{2029}' || c == '\U{202F}' || c == '\U{205F}' || c == '\U{3000}'
  }

  /** A token: a non-empty run of non-separator characters. */
  predicate IsToken(t: string)
  {
    |t| > 0 && forall i :: 0 <= i < |t| ==> !IsSpace(t[i])
  }

  /** No ASCII capital letter occurs in `t`. */
  predicate IsLower(t: string)
  {
    forall i :: 0 <= i < |t| ==> !('A' <= t[i] <= 'Z')
  }

  function LowerChar(c: char): (d: char)
    ensures !('A' <= d <= 'Z')
    ensures IsSpace(d) == IsSpace(c)
    ensures !('A' <= c <= 'Z') ==> d == c
  {
    if 'A' <= c <= 'Z' then (c as int - 'A' as int + 'a' as int) as char else c
  }

  /** `str.lower()`, restricted to ASCII letters. */
  function Lower(t: string): (r: string)
    ensures |r| == |t| && IsLower(r)
    ensures IsToken(t) ==> IsToken(r)
    ensures IsLower(t) ==> r == t
  {
    seq(|t|, i requires 0 <= i < |t| => LowerChar(t[i]))
  }

  /** Length of the leading run of non-separator characters of `s`. */
  function WordLength(s: string): (n: nat)
    ensures n <= |s|
    ensures forall i :: 0 <= i < n ==> !IsSpace(s[i])
    ensures n < |s| ==> IsSpace(s[n])
  {
    if s == [] || IsSpace(s[0]) then 0 else 1 + WordLength(s[1..])
  }

  /** `str.split()`: the maximal runs of non-separator characters, left to right. */
  function Split(s: string): (tokens: seq<string>)
    ensures forall i :: 0 <= i < |tokens| ==> IsToken(tokens[i])
    decreases |s|
  {
    if s == [] then []
    else if IsSpace(s[0]) then Split(s[1..])
    else
      var n := WordLength(s);
      [s[..n]] + Split(s[n..])
  }

  /** Each token lowercased: the comprehension of `_transform_sentence`. */
  function LowerAll(ts: seq<string>): (ls: seq<string>)
    ensures |ls| == |ts|
  {
    seq(|ts|, i requires 0 <= i < |ts| => Lower(ts[i]))
  }

  /** `_transform_sentence`: split on separators, then lowercase each token. */
  function Normalize(s: string): (tokens: seq<string>)
    ensures |tokens| == |Split(s)|
    ensures forall i :: 0 <= i < |tokens| ==> IsToken(tokens[i]) && IsLower(tokens[i])
  {
    LowerAll(Split(s))
  }

  /** The characters of `s` that are not separators, in order. */
  function NonSpace(s: string): string
  {
    if s == [] then [] else (if IsSpace(s[0]) then [] else [s[0]]) + NonSpace(s[1..])
  }

  /** Tokens separated by single spaces. */
  function Join(ts: seq<string>): string
  {
    if |ts| == 0 then ""
    else if |ts| == 1 then ts[0]
    else ts[0] + " " + Join(ts[1..])
  }

  /** Joining a token in front of a non-empty list puts one space between them. */
  lemma JoinCons(t: string, ts: seq<string>)
    requires ts != []
    ensures Join([t] + ts) == t + " " + Join(ts)
  {
    assert ([t] + ts)[1..] == ts;
  }

  // ---------------------------------------------------------------------------
  // Properties of the splitter

  /** Empty and whitespace-only input, and only those, give no tokens. */
  lemma {:induction false} SplitEmpty(s: string)
    ensures Split(s) == [] <==> forall i :: 0 <= i < |s| ==> IsSpace(s[i])
    decreases |s|
  {
    if s != [] && IsSpace(s[0]) {
      SplitEmpty(s[1..]);
      assert forall i :: 1 <= i < |s| ==> s[1..][i - 1] == s[i];
    }
  }

  /** A lone token splits to itself. */
  lemma SplitToken(t: string)
    requires IsToken(t)
    ensures Split(t) == [t]
  {
    WordLengthToken(t);
    assert t[..|t|] == t && t[|t|..] == [];
  }

  lemma {:induction false} WordLengthToken(t: string)
    requires forall i :: 0 <= i < |t| ==> !IsSpace(t[i])
    ensures WordLength(t) == |t|
  {
    if t != [] {
      WordLengthToken(t[1..]);
    }
  }

  /** Splitting distributes over a separator: runs of whitespace collapse. */
  lemma {:induction false} SplitAtSpace(a: string, c: char, b: string)
    requires IsSpace(c)
    ensures Split(a + [c] + b) == Split(a) + Split(b)
    decreases |a|
  {
    if a == [] {
      assert (a + [c] + b)[1..] == b;
    } else if IsSpace(a[0]) {
      assert (a + [c] + b)[1..] == a[1..] + [c] + b;
      SplitAtSpace(a[1..], c, b);
    } else {
      var n := WordLength(a);
      SplitWord(a, [c] + b);
      assert a + [c] + b == a + ([c] + b);
      assert a[n..] + ([c] + b) == a[n..] + [c] + b;
      SplitAtSpace(a[n..], c, b);
      assert [a[..n]] + (Split(a[n..]) + Split(b)) == [a[..n]] + Split(a[n..]) + Split(b);
    }
  }

  /** A word followed by a separator is split off whole. */
  lemma SplitWord(a: string, rest: string)
    requires a != [] && !IsSpace(a[0]) && rest != [] && IsSpace(rest[0])
    ensures Split(a + rest) == [a[..WordLength(a)]] + Split(a[WordLength(a)..] + rest)
  {
    var n := WordLength(a);
    WordLengthPrefix(a, rest);
    assert (a + rest)[..n] == a[..n];
    assert (a + rest)[n..] == a[n..] + rest;
  }

  /** The leading word of `a + b` is that of `a` whenever `a`'s word ends inside `a` or `b` starts with a separator. */
  lemma {:induction false} WordLengthPrefix(a: string, b: string)
    requires b != [] && IsSpace(b[0])
    ensures WordLength(a + b) == WordLength(a)
    decreases |a|
  {
    if a == [] {
      assert a + b == b;
    } else if !IsSpace(a[0]) {
      assert (a + b)[1..] == a[1..] + b;
      WordLengthPrefix(a[1..], b);
    }
  }

  /** Tokens joined by single spaces split back into the same tokens. */
  lemma {:induction false} SplitJoin(ts: seq<string>)
    requires forall i :: 0 <= i < |ts| ==> IsToken(ts[i])
    ensures Split(Join(ts)) == ts
  {
    if |ts| == 1 {
      SplitToken(ts[0]);
    } else if |ts| > 1 {
      SplitJoin(ts[1..]);
      SplitToken(ts[0]);
      SplitAtSpace(ts[0], ' ', Join(ts[1..]));
      assert ts[0] + " " + Join(ts[1..]) == ts[0] + [' '] + Join(ts[1..]);
      assert ts == [ts[0]] + ts[1..];
    }
  }

  lemma {:induction false} NonSpaceAppend(a: string, b: string)
    ensures NonSpace(a + b) == NonSpace(a) + NonSpace(b)
  {
    if a == [] {
      assert a + b == b;
    } else {
      var head, ab := if IsSpace(a[0]) then [] else [a[0]], a + b;
      assert ab[0] == a[0] && ab[1..] == a[1..] + b;
      NonSpaceAppend(a[1..], b);
      assert NonSpace(ab) == head + (NonSpace(a[1..]) + NonSpace(b));
    }
  }

  lemma {:induction false} NonSpaceToken(t: string)
    requires forall i :: 0 <= i < |t| ==> !IsSpace(t[i])
    ensures NonSpace(t) == t
  {
    if t != [] {
      NonSpaceToken(t[1..]);
    }
  }

  /** No character other than a separator is lost or reordered: the tokens concatenate to the non-separator characters. */
  lemma {:induction false} SplitKeepsText(s: string)
    ensures Flatten(Split(s)) == NonSpace(s)
    decreases |s|
  {
    if s != [] {
      if IsSpace(s[0]) {
        SplitKeepsText(s[1..]);
      } else {
        var n := WordLength(s);
        SplitKeepsText(s[n..]);
        assert s == s[..n] + s[n..];
        NonSpaceAppend(s[..n], s[n..]);
        NonSpaceToken(s[..n]);
        var ts := Split(s);
        assert ts == [s[..n]] + Split(s[n..]);
        assert ts[1..] == Split(s[n..]);
      }
    }
  }

  // ---------------------------------------------------------------------------
  // Properties of the normaliser

  /** Empty and whitespace-only input, and only those, normalise to `[]`. */
  lemma NormalizeEmpty(s: string)
    ensures Normalize(s) == [] <==> forall i :: 0 <= i < |s| ==> IsSpace(s[i])
  {
    SplitEmpty(s);
  }

  /** Normalising distributes over a separator, so runs of whitespace count as one. */
  lemma NormalizeAtSpace(a: string, c: char, b: string)
    requires IsSpace(c)
    ensures Normalize(a + [c] + b) == Normalize(a) + Normalize(b)
  {
    SplitAtSpace(a, c, b);
  }

  /** Tokens joined by single spaces normalise to the same tokens, each lowercased. */
  lemma NormalizeJoinLower(ts: seq<string>)
    requires forall i :: 0 <= i < |ts| ==> IsToken(ts[i])
    ensures Normalize(Join(ts)) == LowerAll(ts)
  {
    SplitJoin(ts);
  }

  /** Lowercase tokens joined by single spaces normalise back to themselves. */
  lemma NormalizeJoin(ts: seq<string>)
    requires forall i :: 0 <= i < |ts| ==> IsToken(ts[i]) && IsLower(ts[i])
    ensures Normalize(Join(ts)) == ts
  {
    NormalizeJoinLower(ts);
  }

  lemma LowerAllCons(t: string, ts: seq<string>)
    ensures LowerAll([t] + ts) == [Lower(t)] + LowerAll(ts)
  {
  }

  /** Splitting commutes with lowercasing, token by token. */
  lemma {:induction false} SplitLower(s: string)
    ensures Split(Lower(s)) == LowerAll(Split(s))
    decreases |s|
  {
    var l := Lower(s);
    if s != [] {
      if IsSpace(s[0]) {
        assert l[1..] == Lower(s[1..]);
        SplitLower(s[1..]);
      } else {
        WordLengthLower(s);
        var n := WordLength(s);
        assert l[..n] == Lower(s[..n]);
        assert l[n..] == Lower(s[n..]);
        SplitLower(s[n..]);
        LowerAllCons(s[..n], Split(s[n..]));
      }
    }
  }

  lemma {:induction false} WordLengthLower(s: string)
    ensures WordLength(Lower(s)) == WordLength(s)
  {
    if s != [] {
      assert Lower(s)[1..] == Lower(s[1..]);
      WordLengthLower(s[1..]);
    }
  }

  /** Case does not matter: lowercasing the whole text first gives the same tokens. */
  lemma NormalizeCaseInsensitive(s: string)
    ensures Normalize(Lower(s)) == Normalize(s)
  {
    SplitLower(s);
    assert forall i :: 0 <= i < |Split(s)| ==> Lower(Lower(Split(s)[i])) == Lower(Split(s)[i]);
  }
}
