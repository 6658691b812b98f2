# CountVectorizer in Dafny

A model of `CountVectorizer`, a small bag-of-words encoder, with proofs of what it computes.

- **What it does.** `fit_transform` normalises every document of a corpus. It then collects the distinct tokens into a vocabulary (token to column index) and returns a count matrix with one row per document and one column per vocabulary entry.
- **Normalisation** is `str.split()`, then `str.lower()` on each token.
- **`transform`** counts the tokens of one text against the current vocabulary. It raises `KeyError` on the first unknown token.
- **`get_feature_names`** returns the vocabulary's keys in dict order.

Modules, in dependency order:

- `Seqs` (`seqs.dfy`): generic sequence facts: `NoDup`, `Flatten`, `Occurrences`, `FirstIndex`, and a pigeonhole lemma.
- `Text` (`text.dfy`): `_transform_sentence`.
  - `Split` is the argument-less `str.split()`. Its separators are exactly the characters Python's `str.isspace` accepts.
  - `Lower` maps the ASCII letters `A`-`Z`.
  - `Normalize` is the two composed.
- `Vocabulary` (`vocabulary.dfy`): `__compute_vocabular`.
  - `Dedup` specifies the `uniq_words` loop, and `UniqueWords` is that loop.
  - `IndexMap` is the `vocabulary[word] = idx` loop run on an empty dict.
  - `NewKeys` gives the keys such a loop appends to a non-empty dict.
- `Counting` (`counting.dfy`): `Row`, the value of one count row as a function of the tokens and the vocabulary.
- `Vectorizer` (`vectorizer.dfy`): the class `CountVectorizer`.
  - The Python dict is two fields: `vocabulary: map<string, nat>`, and `order: seq<string>`, its keys in insertion order.
  - Reassigning an existing key keeps its position, as in a Python dict.
  - `Valid()` is the dict invariant plus "every index is below `len(self.vocabulary)`".
- `SampleText`, `SampleCounts`, `Samples` (`examples.dfy`): the run in `main`.
  - The two recipe titles are fitted. The 12 feature names, the matrix and the vector of `"Pasta Pomodoro Fresh"` are then proved.
  - The sample texts are the literals of `main`; `FirstTitleJoined`, `SecondTitleJoined` and `QueryJoined` prove each is the single-space join of its words (`Join`), through which their normalisation is proved.
- `RefitSample` (`refit.dfy`): two consecutive `fit_transform` calls on one instance (see Findings).

**State across fits.** `fit_transform` merges the new vocabulary into the old one, because `self.vocabulary` is created once in `__init__` and only ever assigned into. The model follows that code:

- `FitTransform` states the new dict as `old(vocabulary) + IndexMap(Dedup(Tokens(corpus)))`.
- The clean properties (bijection onto `0 .. n-1`, cell = occurrence count) are stated for a fit on an empty vocabulary.
- Even after several fits, every stored index stays below the row width (`IndicesInRange`), so the counting loops never index outside a row. Two keys can however share a column.

**Unknown tokens.** An unknown token in `transform` is a `KeyError` result (`Result.KeyError`), as in the code. The model does not skip such tokens.

## Model

| member | source | states |
|---|---|---|
| Text.IsSpace | CountVectorizer.py:18 | the separators of `str.split()`: exactly the characters `str.isspace` accepts |
| Text.Split | CountVectorizer.py:18 | every token of `str.split()` is non-empty and free of separators |
| Text.Lower | CountVectorizer.py:18 | `str.lower()` keeps the length, leaves no capital, keeps a token a token and fixes lowercase text |
| Text.LowerAll | CountVectorizer.py:18 | the comprehension of `_transform_sentence`: one lowercased token per token |
| Text.Normalize | CountVectorizer.py:18 | one normalised token per split token; each is non-empty, separator-free and lowercase |
| Text.SplitEmpty | CountVectorizer.py:18 | `split()` is empty exactly when the text is empty or all separators |
| Text.NormalizeEmpty | CountVectorizer.py:18 | `_transform_sentence` gives `[]` exactly for empty or whitespace-only input |
| Text.SplitToken | CountVectorizer.py:18 | a lone token splits to itself |
| Text.SplitAtSpace | CountVectorizer.py:18 | splitting at any separator splits the text into the tokens of the left part followed by those of the right |
| Text.NormalizeAtSpace | CountVectorizer.py:18 | the same for normalisation: token order is the text order |
| Text.SplitKeepsText | CountVectorizer.py:18 | the tokens concatenated are exactly the non-separator characters of the text, in order |
| Text.SplitJoin | CountVectorizer.py:18 | splitting tokens joined by single spaces gives those tokens back |
| Text.NormalizeJoinLower | CountVectorizer.py:18 | tokens joined by single spaces normalise to those tokens lowercased |
| Text.NormalizeJoin | CountVectorizer.py:18 | lowercase tokens joined by single spaces normalise to themselves |
| Text.SplitLower | CountVectorizer.py:18 | lowercasing before splitting equals lowercasing each token after |
| Text.NormalizeCaseInsensitive | CountVectorizer.py:18 | normalisation ignores case: a lowercased text normalises as the original |
| Seqs.Flatten | CountVectorizer.py:44 | `merge_lists` holds every token of every document and nothing else |
| Vocabulary.Dedup | CountVectorizer.py:26-29 | `uniq_words` has no duplicates and the same elements as `all_words` |
| Vocabulary.UniqueWords | CountVectorizer.py:26-29 | the loop builds exactly `Dedup(all_words)` |
| Vocabulary.DedupFirstOccurrence | CountVectorizer.py:26-29 | `uniq_words` is in order of first occurrence in `all_words` |
| Vocabulary.IndexMap | CountVectorizer.py:31-32 | the keys are the listed words, each sent to a position holding it |
| Vocabulary.IndexMapAt | CountVectorizer.py:31-32 | for distinct words, word `k` is sent to `k`: a bijection onto `0 .. n-1` |
| Vocabulary.IndexMapPositions | CountVectorizer.py:31-32 | every word of a distinct list is sent to its own position |
| Vocabulary.IndexMapSnoc | CountVectorizer.py:31-32 | one more iteration adds exactly `word -> idx` |
| Vocabulary.NewKeys | CountVectorizer.py:31-32 | the keys a dict gains are the words not already keys, in list order, each once |
| Vocabulary.NewKeysNone | CountVectorizer.py:31-32 | on an empty dict every word is a new key, in list order |
| Counting.CountAt | CountVectorizer.py:48-50 | the value of cell `j` after lines 50 and 66: how many tokens the vocabulary sends to column `j`, at most the token count |
| Counting.Row | CountVectorizer.py:47 | a count row has the requested width |
| Counting.RowEmpty | CountVectorizer.py:47 | before counting, a row is `[0] * n` |
| Counting.RowSnoc | CountVectorizer.py:50 | counting one more token increments exactly the cell at its index |
| Counting.RowSum | CountVectorizer.py:48-50 | with all indices in range, a row sums to the document's token count |
| Counting.CountAtOccurrences | CountVectorizer.py:48-50 | a column no other key shares counts the occurrences of its key |
| Counting.FreshRow | CountVectorizer.py:48-50 | under a first-fit vocabulary, cell `j` counts feature `j` |
| Vectorizer.NormalizeAll | CountVectorizer.py:43 | `new_corpus` has one token list per document |
| Vectorizer.Tokens | CountVectorizer.py:44 | the merged token list holds the tokens of every document and only those |
| Vectorizer.DictSize | CountVectorizer.py:75 | the dict has as many entries as its key order lists |
| Vectorizer.IndicesInRange | CountVectorizer.py:31-32 | under the dict invariant, every index is below `len(self.vocabulary)` |
| Vectorizer.AssignStep | CountVectorizer.py:31-32 | one `vocabulary[word] = idx` keeps the invariant and extends both loop summaries |
| Vectorizer.MergedIndexed | CountVectorizer.py:45-50 | after the vocabulary is computed, every token of the corpus has a column inside the row |
| Vectorizer.CountMatrix | CountVectorizer.py:47-50 | one row per document; each row is that document's count row; each row sums to its token count |
| Vectorizer.FreshMatrix | CountVectorizer.py:48-50 | on a first fit, cell `[i][j]` counts feature `j` in document `i` |
| Vectorizer.FreshCounts | CountVectorizer.py:63-66 | under a first-fit vocabulary, entry `j` of a count vector counts feature `j` |
| Vectorizer.FreshFit | CountVectorizer.py:43-45 | a fit on an empty vocabulary lists the distinct tokens in first-occurrence order, each at its own index, and every cell counts its feature |
| Vectorizer.EmptyDict | CountVectorizer.py:7 | an empty dict has no keys in its order |
| Vectorizer.FreshMerge | CountVectorizer.py:31-32 | assigning into an empty dict gives the index map, with keys in list order |
| Vectorizer.CountVectorizer.constructor | CountVectorizer.py:6-7 | a new instance has an empty vocabulary and no keys |
| Vectorizer.CountVectorizer.ComputeVocabulary | CountVectorizer.py:20-32 | the vocabulary becomes the old one updated with `uniq_words[idx] -> idx`; only new keys are appended; the invariant holds |
| Vectorizer.CountVectorizer.AssignIndices | CountVectorizer.py:31-32 | the second loop merges `IndexMap(uniq_words)` into the dict and appends only the new keys |
| Vectorizer.CountVectorizer.FitTransform | CountVectorizer.py:34-52 | new vocabulary as the merge above; `len(corpus)` rows of width `len(vocabulary)`, each the document's count row and summing to its token count; no key is removed and non-recurring keys keep their index; on a fresh instance, a bijection in first-occurrence order with cell = occurrence count |
| Vectorizer.CountVectorizer.Transform | CountVectorizer.py:54-67 | succeeds exactly when every token is a key; the vector is the count row of width `len(vocabulary)`, summing to the token count; otherwise `KeyError` on the first unknown token; under a first-fit vocabulary entry `j` counts feature `j`; changes no state |
| Vectorizer.CountVectorizer.FeatureNames | CountVectorizer.py:69-75 | the keys, each once, as many as the vocabulary has; under a first-fit vocabulary name `i` has index `i` |
| Vectorizer.CountVectorizer.Refit | CountVectorizer.py:34-52 | corrected refit: whatever the earlier state, the keys are the distinct tokens in first-occurrence order at their own indices; one row per document of exactly one column per feature name, each cell counting its feature and each row summing to the token count |
| SampleText.NormalizeRecipe1 | CountVectorizer.py:79 | the first title normalises to its seven lowercase words |
| SampleText.NormalizeRecipe2 | CountVectorizer.py:80 | the second title normalises to its seven lowercase words |
| SampleText.NormalizeQuery | CountVectorizer.py:86 | the query normalises to `pasta pomodoro fresh` |
| SampleCounts.DedupBothTitles | CountVectorizer.py:26-29 | `uniq_words` of the sample token pattern is the 12-feature list |
| SampleCounts.SampleFeatureList | CountVectorizer.py:84 | the sample tokens give the 12 features in first-occurrence order |
| SampleCounts.SamplePositions | CountVectorizer.py:31-32 | the sample features are at indices 0 to 11 |
| SampleCounts.SampleRows | CountVectorizer.py:85-86 | the rows of both titles and the query vector under that vocabulary |
| Samples.FirstTitleJoined | CountVectorizer.py:79 | the first title literal is its seven words joined by single spaces |
| Samples.SecondTitleJoined | CountVectorizer.py:80 | the second title literal is its seven words joined by single spaces |
| Samples.QueryJoined | CountVectorizer.py:86 | the query literal is its three words joined by single spaces |
| Samples.FirstTitleNormalized | CountVectorizer.py:79 | the first title literal normalises to its seven lowercase words |
| Samples.SecondTitleNormalized | CountVectorizer.py:80 | the second title literal normalises to its seven lowercase words |
| Samples.RecipesNormalized | CountVectorizer.py:78-81 | `new_corpus` of the sample corpus |
| Samples.CorpusFeatures | CountVectorizer.py:78-84 | any corpus normalising as the sample one has the 12 sample features |
| Samples.SampleMatrix | CountVectorizer.py:85 | the sample matrix is `[[1,1,2,1,1,1,0,0,0,0,0,0],[0,0,1,0,0,0,1,1,1,1,1,1]]` |
| Samples.SampleVector | CountVectorizer.py:86 | the sample query vector is `[0,0,1,0,0,0,1,1,0,0,0,0]` |
| Samples.FitSample | CountVectorizer.py:82-83 | fitting the sample corpus on a new instance gives the 12 features and the sample matrix |
| Samples.TransformSampleQuery | CountVectorizer.py:86 | `transform("Pasta Pomodoro Fresh")` after the sample fit |
| Samples.RunOnTokens | CountVectorizer.py:78-86 | the run of `main`: 12 feature names, the sample matrix, the sample vector |
| Samples.SampleRun | CountVectorizer.py:78-86 | the same on the literal sample texts |
| RefitSample.FitFirst | CountVectorizer.py:34-52 | a first fit on `x y` learns `x -> 0`, `y -> 1` |
| RefitSample.FitSecond | CountVectorizer.py:31-32 | a second fit on `y` sends `y` to 0, which `x` keeps |
| RefitSample.CollidingRefit | CountVectorizer.py:31-32 | as written, a refit leaves feature names `[x, y]`, but counts `y` in column 0 |
| RefitSample.CollidingRefitSample | CountVectorizer.py:31-32 | the same on the texts `a b` then `b` |

## Left out

- Unicode: `str.split()` uses the fixed set of `str.isspace` characters, and `str.lower()` maps only `A`-`Z`. Python's full Unicode case mapping, including mappings that change a string's length, is not modelled.
- `main`'s console output (`pprint`) is not modelled. Its values are proved as method results in `Samples.SampleRun`.
- Python dict hashing and the cost of the `in uniq_words` test are not modelled. Only the dict's contents and key order are.
- The `typing` import carries no behaviour and is not modelled.
- Integers are unbounded, as Python's are.
- Vectorizer.CountVectorizer.FitTransform: on a non-fresh instance, its matrix cells are stated as count rows under the merged vocabulary (`Row`), not as per-feature occurrence counts. Keys can share a column there, so no per-feature count holds in general.

## Findings

A second `fit_transform` on the same instance merges its vocabulary into the first one. Afterwards `get_feature_names` (line 75) no longer labels the columns that line 50 fills: two keys can share a column while the names still list each key as its own column. The model follows the code as written and also proves a corrected refit.

| source | as written | input that shows it | evidently intended | confidence | as-written member | corrected member |
|---|---|---|---|---|---|---|
| CountVectorizer.py:31-32 | `fit_transform` assigns the new indices into the existing vocabulary, which is never cleared | `fit_transform(["a b"])` then `fit_transform(["b"])`: `a` and `b` both map to 0; feature names stay `["a", "b"]`, yet the matrix is `[[1, 0]]` and `transform("b")` is `[1, 0]`, counting `b` under the name `a` | the feature names label the matrix columns, as on a first fit: a new fit replaces the vocabulary, giving names `["b"]` and matrix `[[1]]` | medium; not executed | RefitSample.CollidingRefitSample | Vectorizer.CountVectorizer.Refit |
