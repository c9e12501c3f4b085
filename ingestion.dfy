/** The two ingestion scripts together: records appended by the feed
    fetcher and read back by the article loader. JSON serialisation is
    abstract: `encode` stands for `json.dumps` and `decode` for `json.loads`. */
module Ingestion {
  import opened Common
  import opened Text
  import opened Documents
  import opened ArticleIndex
  import opened RssFeed

  /** The JSON object written for a record. */
  function FieldsOf(d: Document): Fields {
    map["title" := d.title, "text" := d.text, "url" := d.url]
  }

  /** The lines of an article file holding `records`: one serialised record
      per line, each ending in a newline. */
  function FileLines(records: seq<Document>, encode: Document -> string): seq<string> {
    seq(|records|, i requires 0 <= i < |records| => encode(records[i]) + "\n")
  }

  /** A record as the loader keeps it: title and text cut to their limits. */
  function Clip(d: Document): Document {
    Document(Take(d.title, MaxTitle), Take(d.text, MaxText), d.url)
  }

  function ClipAll(records: seq<Document>): seq<Document> {
    seq(|records|, i requires 0 <= i < |records| => Clip(records[i]))
  }

  /** `json.dumps` of a dict is a JSON object: it starts with `{` and ends with `}`. */
  predicate IsJsonObjectText(s: string) {
    |s| >= 2 && s[0] == '{' && s[|s| - 1] == '}'
  }

  /** A written line, newline included, strips back to the JSON text, which
      is not blank. */
  lemma JsonLineStrips(s: string)
    requires IsJsonObjectText(s)
    ensures Strip(s + "\n") == s != ""
  {
    StripIgnoresTrailingSpace(s, '\n');
    StripKeepsUnpadded(s);
  }

  /** Normalising the fields written for a record clips the record. */
  lemma NormalizeWritten(d: Document)
    ensures Normalize(FieldsOf(d)) == Clip(d)
  {
    var f := FieldsOf(d);
    assert Field(f, "title") == d.title && Field(f, "text") == d.text && Field(f, "url") == d.url;
  }

  lemma ClipAllAppend(a: seq<Document>, b: seq<Document>)
    ensures ClipAll(a + b) == ClipAll(a) + ClipAll(b)
  {
    forall i | 0 <= i < |a| + |b| ensures ClipAll(a + b)[i] == (ClipAll(a) + ClipAll(b))[i] {
      if i < |a| { assert (a + b)[i] == a[i]; } else { assert (a + b)[i] == b[i - |a|]; }
    }
  }

  /** Writing one more record adds one line at the end of the file. */
  lemma FileLinesSnoc(records: seq<Document>, d: Document, encode: Document -> string)
    ensures FileLines(records + [d], encode) == FileLines(records, encode) + [encode(d) + "\n"]
  {
  }

  /** The line written for `d` loads back as `d` clipped, after the
      documents of the lines before it. */
  lemma ReloadLine(prev: seq<string>, d: Document, encode: Document -> string, decode: string -> Option<Fields>)
    requires Articles(prev, decode).Success?
    requires IsJsonObjectText(encode(d)) && decode(encode(d)) == Some(FieldsOf(d))
    ensures Articles(prev + [encode(d) + "\n"], decode) == Success(Articles(prev, decode).value + [Clip(d)])
  {
    JsonLineStrips(encode(d));
    ArticlesAppendLine(prev, encode(d) + "\n", decode);
    NormalizeWritten(d);
  }

  /** One more written record loads back as one more clipped document. */
  lemma ReloadOneMore(records: seq<Document>, d: Document, encode: Document -> string,
                      decode: string -> Option<Fields>)
    requires IsJsonObjectText(encode(d)) && decode(encode(d)) == Some(FieldsOf(d))
    requires Articles(FileLines(records, encode), decode) == Success(ClipAll(records))
    ensures Articles(FileLines(records + [d], encode), decode) == Success(ClipAll(records + [d]))
  {
    var prev := FileLines(records, encode);
    assert FileLines(records + [d], encode) == prev + [encode(d) + "\n"] by {
      FileLinesSnoc(records, d, encode);
    }
    assert Articles(prev + [encode(d) + "\n"], decode) == Success(ClipAll(records) + [Clip(d)]) by {
      ReloadLine(prev, d, encode, decode);
    }
    assert ClipAll(records + [d]) == ClipAll(records) + [Clip(d)] by {
      ClipAllAppend(records, [d]);
      assert ClipAll([d]) == [Clip(d)];
    }
  }

  /** Loading the article file gives back every record written to it, in
      order, with only title and text truncated; nothing is lost or
      reordered, and no line is skipped or fails to decode. */
  lemma {:induction false} ReloadWrittenRecords(records: seq<Document>, encode: Document -> string,
                                                decode: string -> Option<Fields>)
    requires forall d :: IsJsonObjectText(encode(d))
    requires forall d :: decode(encode(d)) == Some(FieldsOf(d))
    ensures Articles(FileLines(records, encode), decode) == Success(ClipAll(records))
    decreases |records|
  {
    if records == [] {
      assert FileLines(records, encode) == [] && ClipAll(records) == [];
    } else {
      var rs, d := records[..|records| - 1], records[|records| - 1];
      assert records == rs + [d];
      assert Articles(FileLines(rs + [d], encode), decode) == Success(ClipAll(rs + [d])) by {
        ReloadWrittenRecords(rs, encode, decode);
        ReloadOneMore(rs, d, encode, decode);
      }
    }
  }

  /** Records already within the limits come back unchanged. */
  lemma ReloadWithinLimits(records: seq<Document>, encode: Document -> string, decode: string -> Option<Fields>)
    requires forall d :: IsJsonObjectText(encode(d))
    requires forall d :: decode(encode(d)) == Some(FieldsOf(d))
    requires forall d :: d in records ==> WithinLimits(d)
    ensures Articles(FileLines(records, encode), decode) == Success(records)
  {
    ReloadWrittenRecords(records, encode, decode);
    forall i | 0 <= i < |records| ensures Clip(records[i]) == records[i] {
      var d := records[i];
      assert d in records;
      assert d.title[..|d.title|] == d.title && d.text[..|d.text|] == d.text;
    }
    assert ClipAll(records) == records;
  }

  /** After a feed run, loading the article file yields the earlier records
      followed by those of the first `MaxEntries` feed entries, clipped. */
  lemma FetchThenLoad(existing: seq<Document>, entries: seq<Entry>, encode: Document -> string,
                      decode: string -> Option<Fields>)
    requires forall d :: IsJsonObjectText(encode(d))
    requires forall d :: decode(encode(d)) == Some(FieldsOf(d))
    ensures Articles(FileLines(existing + FeedDocuments(entries), encode), decode)
         == Success(ClipAll(existing) + ClipAll(FeedDocuments(entries)))
  {
    var all := existing + FeedDocuments(entries);
    ReloadWrittenRecords(all, encode, decode);
    ClipAllAppend(existing, FeedDocuments(entries));
  }
}
