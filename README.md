# News ingestion and baseline classifier — Dafny model

This project models the logic that the Real-Time News Intelligence Engine
owns itself, around the machine-learning libraries it calls:

- **Article loading** (`load_articles`): the JSON-Lines article file is read
  line by line. Each line is stripped as Python's `str.strip()` does, and blank
  lines are skipped. Every other line is decoded and becomes one
  `{title, text, url}` record. Missing fields read as `""`, the title is cut to
  200 characters and the text to 2000, and the URL is kept. A line that does
  not decode stops the load with an error.
- **Index building** (`build_index` and the script entry point): each document
  gives one embedding input `title + ". " + text`, in document order. The index
  receives one vector per document, and the saved metadata is the document list
  itself, so index entry *i* belongs to document *i*. The index is built only
  when at least one document was loaded.
- **Baseline classifier** (`models/baseline_classifier.py`): the four-row toy
  dataset, training that creates it only when no data file exists, the
  load-once model cache (empty → loaded, raising while empty if the model file
  is missing), and the rule `label = 1` exactly when the fake probability is at
  least the threshold (default 0.5).
- **RSS ingestion** (`ingest/fetch_rss.py`): the first 10 feed entries, in feed
  order, become records whose text is the summary, or the description when the
  summary is missing or empty. The records are appended after the file's
  existing records.
- **Both scripts together**: records written by the feed script and read back
  by the loader come back complete and in order, with only title and text cut
  to their limits.

Files: `common.dfy` (Option, Result, Python slicing), `text.dfy` (whitespace
stripping), `documents.dfy` (the record), `build_index.dfy`,
`baseline_classifier.dfy`, `fetch_rss.dfy`, `ingestion.dfy`.

Library code is abstracted as parameters:
- `decode` stands for `json.loads`. It gives `None` on a line that would make
  `load_articles` raise.
- `encode` stands for `json.dumps`.
- `embed` stands for the sentence encoder, applied to each text.
- `fit` stands for TF-IDF plus logistic-regression training.
- `proba` stands for `vec.transform` followed by `predict_proba`.
- The model artifact is an opaque value of type `M`.
- Files are values: the data file and the model file are `Option`s of their
  contents, and the article file is its sequence of records.

The code has no nearest-neighbour query, no index persistence round trip and
no error types of its own; none are modelled.

## Model

| member | source | states |
|---|---|---|
| Common.Take | ingest/build_index.py:25-26 | Python's `s[:n]` never fails: it returns the prefix of length min(len(s), n) |
| Text.TrimStartDropsLeadingSpace | ingest/build_index.py:20 | stripping the left end keeps a suffix that does not start with whitespace, and everything it drops is whitespace |
| Text.TrimEndDropsTrailingSpace | ingest/build_index.py:20 | stripping the right end keeps a prefix that does not end with whitespace, and everything it drops is whitespace |
| Text.Strip | ingest/build_index.py:20 | the stripped line is no longer than the line and neither starts nor ends with whitespace |
| Text.StripIsInnerSlice | ingest/build_index.py:20 | `line.strip()` is the contiguous slice between the leading and the trailing whitespace, and it neither starts nor ends with whitespace |
| Text.StripEmptyIffBlank | ingest/build_index.py:20-22 | a line strips to `""` (and is skipped) exactly when it is empty or whitespace-only |
| Text.StripIgnoresTrailingSpace | ingest/build_index.py:19-20 | the newline that ends a line read from the file does not change the stripped text |
| Text.StripKeepsUnpadded | ingest/build_index.py:20 | a line that neither starts nor ends with whitespace is passed on unchanged |
| Documents.Field | ingest/build_index.py:25-27 | `dict.get(key, "")`: the key's value when present, `""` when the key is missing; the feed script (ingest/fetch_rss.py:19-21) uses the same lookup on entries |
| ArticleIndex.Normalize | ingest/build_index.py:24-28 | title has at most 200 characters and is a prefix of the source title, equal to it when that is short enough; the same holds for text with 2000; the url is copied; missing fields read as `""` |
| ArticleIndex.Articles | ingest/build_index.py:16-29 | the file's specification: a successful load has at most one document per line, and a failure names a line of the file |
| ArticleIndex.LoadArticles | ingest/build_index.py:16-29 | the loop returns exactly the file's specification: the normalised records of the non-blank lines in order, or the first undecodable line's error |
| ArticleIndex.FailureIsFinal | ingest/build_index.py:23 | once a line fails to decode, the load raises that error whatever follows |
| ArticleIndex.ArticlesCount | ingest/build_index.py:19-24 | the number of documents equals the number of non-blank lines |
| ArticleIndex.ArticlesAppendLine | ingest/build_index.py:20-28 | a non-blank line that decodes adds its normalised record after the documents of the earlier lines |
| ArticleIndex.BlankLineAddsNothing | ingest/build_index.py:20-22 | an empty or whitespace-only line adds no document |
| ArticleIndex.ArticleAt | ingest/build_index.py:19-28 | the non-blank line at position i decodes, and document number "non-blank lines before i" is its normalised record |
| ArticleIndex.NonBlankCountGrows | ingest/build_index.py:19-22 | a non-blank line is counted before every later position |
| ArticleIndex.ArticlesKeepLineOrder | ingest/build_index.py:19-28 | of two non-blank lines, the earlier one gives the earlier document |
| ArticleIndex.ArticlesFailure | ingest/build_index.py:21-23 | the load succeeds exactly when every non-blank line decodes; on failure it names the first non-blank line that does not |
| ArticleIndex.ArticlesWithinLimits | ingest/build_index.py:25-26 | every loaded document has a title of at most 200 and a text of at most 2000 characters |
| ArticleIndex.EmbeddingInput | ingest/build_index.py:33 | the input is title, then `". "`, then text; given the title's length both fields can be read back from it |
| ArticleIndex.EmbeddingInputs | ingest/build_index.py:33 | one input per document, same length as `docs`, input i built from `docs[i]` |
| ArticleIndex.Encode | ingest/build_index.py:34 | one vector per text, same length as `texts`, vector i the embedding of text i |
| ArticleIndex.FlatIndex.constructor | ingest/build_index.py:36 | a new index holds no vectors |
| ArticleIndex.FlatIndex.Add | ingest/build_index.py:37 | adding appends the batch after the existing vectors |
| ArticleIndex.BuildIndex | ingest/build_index.py:31-40 | the saved metadata is `docs` in order, index size equals metadata length, and vector i is the embedding of document i's input |
| ArticleIndex.Run | ingest/build_index.py:43-48 | a load error propagates; no index is built exactly when the load gives no documents, and one is always built when it gives some; the saved metadata is the loaded list and vector i is the embedding of metadata entry i's input |
| BaselineClassifier.TinyDataset | models/baseline_classifier.py:17-27 | the toy dataset has four rows, two labelled 0 and two labelled 1, all labels 0 or 1 |
| BaselineClassifier.TrainingRows | models/baseline_classifier.py:38-41 | training reads an existing data file's rows; when no data file exists it reads the toy rows just written |
| BaselineClassifier.TrainingRowsFallback | models/baseline_classifier.py:38-41 | training uses an existing data file as it is; without one it trains on the toy rows, where both classes occur |
| BaselineClassifier.Workspace.MakeTinyDataset | models/baseline_classifier.py:17-30 | the data file is overwritten with the toy rows; the model file is untouched |
| BaselineClassifier.Workspace.Train | models/baseline_classifier.py:33-50 | the toy dataset is written only when the data file is missing; the model file becomes the fit of the data file's rows |
| BaselineClassifier.LoadStep | models/baseline_classifier.py:59-65 | a filled cache is returned without looking at the file; an empty cache with no file raises and stays empty; otherwise the file's model is cached and returned |
| BaselineClassifier.LoadsAtMostOnce | models/baseline_classifier.py:59-65 | over any sequence of calls the model file is loaded at most once, and never once the cache is filled |
| BaselineClassifier.CachedModelReturned | models/baseline_classifier.py:61-65 | with a filled cache every later call returns the cached model, whatever the file holds |
| BaselineClassifier.SuccessesAgree | models/baseline_classifier.py:59-65 | every successful call in a sequence returns the same model |
| BaselineClassifier.ModelCache.constructor | models/baseline_classifier.py:56 | the cache starts empty |
| BaselineClassifier.ModelCache.LoadOnce | models/baseline_classifier.py:59-65 | the cache and result follow `LoadStep`, and the file-load counter rises only on the one loading call, so it stays at most one |
| BaselineClassifier.Decide | models/baseline_classifier.py:77-79 | label is 0 or 1, label is 1 exactly when probability ≥ threshold (equality gives 1), and the probability is returned unchanged |
| BaselineClassifier.DecideMonotone | models/baseline_classifier.py:78 | a higher probability never lowers the label; a higher threshold never raises it |
| BaselineClassifier.ModelCache.Predict | models/baseline_classifier.py:68-79 | fails exactly when the cache is empty and the model file is missing; otherwise returns the threshold rule applied to the class-1 probability, with default threshold 0.5; the probability is in [0, 1] when the classifier's pair is a distribution |
| RssFeed.EntryDocument | ingest/fetch_rss.py:18-22 | title and url are the entry's title and link (or `""`), not truncated; text is the summary when non-empty, else the description (or `""`) |
| RssFeed.TextEmptyIffNoSummaryNorDescription | ingest/fetch_rss.py:20 | the text is empty exactly when summary and description are both missing or empty |
| RssFeed.EntryDocuments | ingest/fetch_rss.py:16-22 | one record per entry, in entry order |
| RssFeed.EntryDocumentsSnoc | ingest/fetch_rss.py:16-24 | converting entries one at a time and appending gives the converted list |
| RssFeed.FeedDocuments | ingest/fetch_rss.py:16 | at most 10 records, taken from the start of the feed in order |
| RssFeed.ArticleFile.Append | ingest/fetch_rss.py:24 | a written record follows the existing ones |
| RssFeed.AppendFeed | ingest/fetch_rss.py:15-24 | the file holds its earlier records followed by the records of the first 10 entries |
| Ingestion.ReloadLine | ingest/build_index.py:19-28 | a line written by the feed script, newline included, loads back as its record clipped, after the earlier documents |
| Ingestion.ReloadWrittenRecords | ingest/fetch_rss.py:15-24 | loading a file written one JSON object per line gives back every record in order, with only title and text truncated |
| Ingestion.ReloadWithinLimits | ingest/build_index.py:25-27 | records already within the limits load back unchanged |
| Ingestion.FetchThenLoad | ingest/fetch_rss.py:15-16 | after a feed run the loader sees the earlier records followed by the new ones, both truncated |

## Left out

- TF-IDF vectorisation, logistic-regression fitting and `predict_proba` (models/baseline_classifier.py:42-46, 75-76): these are library numerics, and the model takes them as the parameters `fit` and `proba`. The probability is a `real`, so a NaN probability is not modelled. Python would label NaN 0.
- The sentence encoder and the FAISS index (ingest/build_index.py:32-37): `embed` is applied to each text in order. The vector dimension, L2 normalisation and similarity search are not modelled. No query exists in the code.
- Writing the index and metadata files (ingest/build_index.py:39-40): the saved pair is a value, with no file format.
- ArticleIndex.BuildIndex: requires a non-empty document list. An empty batch gives the index no embedding dimension, and the only caller checks for emptiness first (ingest/build_index.py:45).
- JSON parsing and serialisation: `decode` yields string-valued fields only. Non-string field values such as `null` or numbers are not modelled. `decode` returning `None` stands for every way `json.loads` or the following `.get` can raise on a line.
- The round-trip lemmas in `Ingestion` assume two facts about `encode` and `decode`. The first is that `json.dumps` writes an object text starting with `{` and ending with `}`. The second is that `json.loads` reads that text back as the record's three fields.
- Reading the file and splitting it into lines is not modelled: the input is its sequence of lines. Directory creation, CSV writing and reading, and `print` are left out. The data file is modelled as its rows.
- The `feedparser.parse` network fetch (ingest/fetch_rss.py:12): the feed is a given sequence of entries with string values.
- RssFeed.EntryDocument: feed entries are plain maps. feedparser's entry object answers `get("description")` with the summary or subtitle when no description key exists; that alias is not modelled, so the description fallback reads only a literal `description` key.
- api/main.py and ui/app.py: the HTTP routing and the UI are thin wrappers around `predict`.
- Concurrent first access to the model cache: the cache is modelled sequentially.
