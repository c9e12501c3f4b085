/** Loading the JSON-Lines article file, and building the embedding index
    whose entries are aligned by position with the saved document list. */
module ArticleIndex {
  import opened Common
  import opened Text
  import opened Documents

  /** `json.loads` raised on the (0-based) line `line`; the load stops there. */
  datatype LoadError = MalformedLine(line: nat)

  /** The record `load_articles` keeps for one decoded line: missing fields
      read as "", the title and the text are cut to their limits, the URL is
      kept as it is. */
  function Normalize(fields: Fields): (d: Document)
    ensures |d.title| <= MaxTitle && d.title <= Field(fields, "title")
    ensures |Field(fields, "title")| <= MaxTitle ==> d.title == Field(fields, "title")
    ensures |d.text| <= MaxText && d.text <= Field(fields, "text")
    ensures |Field(fields, "text")| <= MaxText ==> d.text == Field(fields, "text")
    ensures d.url == Field(fields, "url")
    ensures WithinLimits(d)
  {
    Document(Take(Field(fields, "title"), MaxTitle), Take(Field(fields, "text"), MaxText), Field(fields, "url"))
  }

  /** What `load_articles` returns for the lines of a file, or the error it
      raises: each line is stripped, blank ones are skipped, every other one
      is decoded and normalised, in file order. */
  function Articles(lines: seq<string>, decode: string -> Option<Fields>): (r: Result<seq<Document>, LoadError>)
    ensures r.Success? ==> |r.value| <= |lines|
    ensures r.Failure? ==> r.error.line < |lines|
    decreases |lines|
  {
    if lines == [] then Success([])
    else
      var last := |lines| - 1;
      match Articles(lines[..last], decode)
      case Failure(e) => Failure(e)
      case Success(docs) =>
        var line := Strip(lines[last]);
        if line == "" then Success(docs)
        else match decode(line)
          case None => Failure(MalformedLine(last))
          case Some(fields) => Success(docs + [Normalize(fields)])
  }

  /** Number of lines that are not blank. */
  function NonBlankCount(lines: seq<string>): nat
    decreases |lines|
  {
    if lines == [] then 0
    else NonBlankCount(lines[..|lines| - 1]) + (if Strip(lines[|lines| - 1]) == "" then 0 else 1)
  }

  /** Once a prefix of the file fails to load, the whole file fails with the
      same error. */
  lemma {:induction false} FailureIsFinal(lines: seq<string>, n: nat, decode: string -> Option<Fields>)
    requires n <= |lines| && Articles(lines[..n], decode).Failure?
    ensures Articles(lines, decode) == Articles(lines[..n], decode)
    decreases |lines| - n
  {
    if n < |lines| {
      assert lines[..n + 1][..n] == lines[..n];
      FailureIsFinal(lines, n + 1, decode);
    } else {
      assert lines[..n] == lines;
    }
  }

  /** `load_articles`: reads the lines in order and appends one normalised
      record per non-blank line; a line that does not decode raises. */
  method LoadArticles(lines: seq<string>, decode: string -> Option<Fields>)
    returns (r: Result<seq<Document>, LoadError>)
    ensures r == Articles(lines, decode)
  {
    var docs: seq<Document> := [];
    for i := 0 to |lines|
      invariant Articles(lines[..i], decode) == Success(docs)
    {
      assert lines[..i + 1][..i] == lines[..i];
      var line := Strip(lines[i]);
      if line == "" {
        continue;
      }
      match decode(line) {
        case None =>
          FailureIsFinal(lines, i + 1, decode);
          return Failure(MalformedLine(i));
        case Some(fields) =>
          docs := docs + [Normalize(fields)];
      }
    }
    assert lines[..|lines|] == lines;
    return Success(docs);
  }

  /** Every non-blank line yields exactly one document: the number of
      documents is the number of non-blank lines. */
  lemma {:induction false} ArticlesCount(lines: seq<string>, decode: string -> Option<Fields>)
    requires Articles(lines, decode).Success?
    ensures |Articles(lines, decode).value| == NonBlankCount(lines)
    decreases |lines|
  {
    if lines != [] {
      ArticlesCount(lines[..|lines| - 1], decode);
    }
  }

  /** A non-blank line that decodes adds its normalised record after the
      documents of the lines before it. */
  lemma ArticlesAppendLine(lines: seq<string>, line: string, decode: string -> Option<Fields>)
    requires Articles(lines, decode).Success?
    requires Strip(line) != "" && decode(Strip(line)).Some?
    ensures Articles(lines + [line], decode)
         == Success(Articles(lines, decode).value + [Normalize(decode(Strip(line)).value)])
  {
    assert (lines + [line])[..|lines|] == lines;
  }

  /** A blank (empty or whitespace-only) line adds no document. */
  lemma BlankLineAddsNothing(lines: seq<string>, line: string, decode: string -> Option<Fields>)
    requires IsBlank(line)
    ensures Articles(lines + [line], decode) == Articles(lines, decode)
  {
    StripEmptyIffBlank(line);
    assert (lines + [line])[..|lines|] == lines;
  }

  /** The non-blank line at position `i` is decoded into the document at
      position "number of non-blank lines before `i`": documents come out in
      the order of their lines. */
  lemma {:induction false} ArticleAt(lines: seq<string>, i: nat, decode: string -> Option<Fields>)
    requires Articles(lines, decode).Success?
    requires i < |lines| && !IsBlank(lines[i])
    ensures decode(Strip(lines[i])).Some?
    ensures NonBlankCount(lines[..i]) < |Articles(lines, decode).value|
    ensures Articles(lines, decode).value[NonBlankCount(lines[..i])] == Normalize(decode(Strip(lines[i])).value)
    decreases |lines|
  {
    StripEmptyIffBlank(lines[i]);
    var last := |lines| - 1;
    var prefix := lines[..last];
    var docs := Articles(prefix, decode).value;
    ArticlesCount(prefix, decode);
    if i == last {
      assert prefix == lines[..i];
      assert Articles(lines, decode).value == docs + [Normalize(decode(Strip(lines[i])).value)];
    } else {
      assert prefix[..i] == lines[..i];
      assert prefix[i] == lines[i];
      ArticleAt(prefix, i, decode);
      var n := NonBlankCount(lines[..i]);
      var all := Articles(lines, decode).value;
      if Strip(lines[last]) == "" {
        assert all == docs;
      } else {
        assert Articles(prefix, decode) == Success(docs);
        var line := Strip(lines[last]);
        assert line != "";
        assert decode(line).Some?;
        assert all == docs + [Normalize(decode(line).value)];
        assert all[n] == docs[n];
      }
    }
  }

  /** Counting non-blank lines over a longer prefix never gives less, and a
      non-blank line at `i` is counted before any later position. */
  lemma {:induction false} NonBlankCountGrows(lines: seq<string>, i: nat, j: nat)
    requires i < j <= |lines|
    ensures NonBlankCount(lines[..i]) + (if Strip(lines[i]) == "" then 0 else 1) <= NonBlankCount(lines[..j])
    decreases j - i
  {
    assert lines[..i + 1][..i] == lines[..i];
    if i + 1 < j {
      var k := i + 1;
      assert lines[..k + 1][..k] == lines[..k];
      if k + 1 < j {
        NonBlankCountGrows(lines, k, j);
      }
    }
  }

  /** Documents keep the order of their source lines: of two non-blank lines,
      the earlier one gives the earlier document. */
  lemma ArticlesKeepLineOrder(lines: seq<string>, i: nat, j: nat, decode: string -> Option<Fields>)
    requires Articles(lines, decode).Success?
    requires i < j < |lines| && !IsBlank(lines[i]) && !IsBlank(lines[j])
    ensures NonBlankCount(lines[..i]) < NonBlankCount(lines[..j]) < |Articles(lines, decode).value|
  {
    StripEmptyIffBlank(lines[i]);
    NonBlankCountGrows(lines, i, j);
    ArticleAt(lines, j, decode);
  }

  /** The load succeeds exactly when every non-blank line decodes; when it
      fails, it names the first non-blank line that does not. */
  lemma {:induction false} ArticlesFailure(lines: seq<string>, decode: string -> Option<Fields>)
    ensures Articles(lines, decode).Success? <==>
      forall k :: 0 <= k < |lines| && !IsBlank(lines[k]) ==> decode(Strip(lines[k])).Some?
    ensures Articles(lines, decode).Failure? ==>
      var n := Articles(lines, decode).error.line;
      && n < |lines| && !IsBlank(lines[n]) && decode(Strip(lines[n])).None?
      && forall k :: 0 <= k < n && !IsBlank(lines[k]) ==> decode(Strip(lines[k])).Some?
    decreases |lines|
  {
    if lines != [] {
      var last := |lines| - 1;
      var prefix := lines[..last];
      var prev := Articles(prefix, decode);
      ArticlesFailure(prefix, decode);
      StripEmptyIffBlank(lines[last]);
      assert forall k :: 0 <= k < last ==> prefix[k] == lines[k];
      if prev.Failure? {
        assert Articles(lines, decode) == prev;
        var n := prev.error.line;
        assert n < |lines| && !IsBlank(lines[n]) && decode(Strip(lines[n])).None?;
      } else if IsBlank(lines[last]) {
        assert Articles(lines, decode) == prev;
      } else if decode(Strip(lines[last])).None? {
        assert Articles(lines, decode) == Failure(MalformedLine(last));
      } else {
        assert Articles(lines, decode).Success?;
      }
    }
  }

  /** Every loaded document respects the title and text limits. */
  lemma {:induction false} ArticlesWithinLimits(lines: seq<string>, decode: string -> Option<Fields>)
    requires Articles(lines, decode).Success?
    ensures forall d :: d in Articles(lines, decode).value ==> WithinLimits(d)
    decreases |lines|
  {
    if lines != [] {
      ArticlesWithinLimits(lines[..|lines| - 1], decode);
    }
  }

  /** The string embedded for a document: `title + ". " + text`. Title and
      text can be read back from it given the title's length. */
  function EmbeddingInput(d: Document): (s: string)
    ensures |s| == |d.title| + 2 + |d.text|
    ensures s[..|d.title|] == d.title && s[|d.title|..|d.title| + 2] == ". " && s[|d.title| + 2..] == d.text
  {
    d.title + ". " + d.text
  }

  /** The list comprehension in `build_index`: one input per document, in
      document order. */
  function EmbeddingInputs(docs: seq<Document>): (texts: seq<string>)
    ensures |texts| == |docs|
    ensures forall i :: 0 <= i < |docs| ==> texts[i] == EmbeddingInput(docs[i])
  {
    if docs == [] then [] else [EmbeddingInput(docs[0])] + EmbeddingInputs(docs[1..])
  }

  /** The sentence encoder, one vector per input text, in order. */
  function Encode<V>(texts: seq<string>, embed: string -> V): (vectors: seq<V>)
    ensures |vectors| == |texts|
    ensures forall i :: 0 <= i < |texts| ==> vectors[i] == embed(texts[i])
  {
    seq(|texts|, i requires 0 <= i < |texts| => embed(texts[i]))
  }

  /** An exact inner-product index: an append-only sequence of vectors whose
      position is the id of the document it was built from. */
  class FlatIndex<V> {
    var vectors: seq<V>

    constructor ()
      ensures vectors == []
    {
      vectors := [];
    }

    /** `index.add`: appends a batch of vectors after the existing ones. */
    method Add(batch: seq<V>)
      modifies this
      ensures vectors == old(vectors) + batch
    {
      vectors := vectors + batch;
    }
  }

  /** What `build_index` writes: the index file and the metadata array. */
  datatype SavedIndex<V> = SavedIndex(vectors: seq<V>, meta: seq<Document>)

  /** `build_index`: embeds `title + ". " + text` of every document, adds
      the vectors to a fresh index and saves it with `docs` as metadata, so
      that index entry `i` belongs to `docs[i]`. */
  method BuildIndex<V>(docs: seq<Document>, embed: string -> V) returns (saved: SavedIndex<V>)
    requires docs != []
    ensures saved.meta == docs
    ensures |saved.vectors| == |saved.meta|
    ensures forall i :: 0 <= i < |docs| ==> saved.vectors[i] == embed(EmbeddingInput(docs[i]))
  {
    var texts := EmbeddingInputs(docs);
    var embeddings := Encode(texts, embed);
    var index := new FlatIndex<V>();
    index.Add(embeddings);
    saved := SavedIndex(index.vectors, docs);
  }

  datatype RunOutcome<V> = NoDocuments | Saved(index: SavedIndex<V>)

  /** The script entry point: load the article file and build the index
      only when at least one document was loaded. */
  method Run<V>(lines: seq<string>, decode: string -> Option<Fields>, embed: string -> V)
    returns (r: Result<RunOutcome<V>, LoadError>)
    ensures Articles(lines, decode).Failure? ==> r == Failure(Articles(lines, decode).error)
    ensures Articles(lines, decode) == Success([]) <==> r == Success(NoDocuments)
    ensures r.Success? && r.value.Saved? ==>
      && Articles(lines, decode) == Success(r.value.index.meta)
      && r.value.index.meta != []
      && |r.value.index.vectors| == |r.value.index.meta|
    ensures r.Success? && r.value.Saved? ==>
      forall i :: 0 <= i < |r.value.index.meta| ==>
        r.value.index.vectors[i] == embed(EmbeddingInput(r.value.index.meta[i]))
    ensures Articles(lines, decode).Success? && Articles(lines, decode).value != [] ==>
      r.Success? && r.value.Saved?
  {
    var loaded := LoadArticles(lines, decode);
    match loaded {
      case Failure(e) =>
        r := Failure(e);
      case Success(docs) =>
        if docs == [] {
          r := Success(NoDocuments);
        } else {
          var saved := BuildIndex(docs, embed);
          r := Success(Saved(saved));
        }
    }
  }
}
