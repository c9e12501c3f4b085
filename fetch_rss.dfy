/** Turning RSS feed entries into article records appended to the
    JSON-Lines article file. The network fetch is not modelled: the feed is
    its list of entries. */
module RssFeed {
  import opened Common
  import opened Documents

  /** A feed entry: field name (title, summary, description, link, ...) to value. */
  type Entry = Fields

  /** At most this many entries are taken from a feed per run. */
  const MaxEntries: nat := 10

  /** The record built for one entry. The title is not truncated here. */
  function EntryDocument(e: Entry): (d: Document)
    ensures d.title == Field(e, "title") && d.url == Field(e, "link")
    ensures Field(e, "summary") != "" ==> d.text == Field(e, "summary")
    ensures Field(e, "summary") == "" ==> d.text == Field(e, "description")
  {
    var summary := Field(e, "summary");
    Document(Field(e, "title"), if summary != "" then summary else Field(e, "description"), Field(e, "link"))
  }

  /** The text of a record is empty only when the entry has neither a
      summary nor a description. */
  lemma TextEmptyIffNoSummaryNorDescription(e: Entry)
    ensures EntryDocument(e).text == "" <==> Field(e, "summary") == "" && Field(e, "description") == ""
  {
  }

  /** One record per entry, in entry order. */
  function EntryDocuments(entries: seq<Entry>): (docs: seq<Document>)
    ensures |docs| == |entries|
    ensures forall i :: 0 <= i < |entries| ==> docs[i] == EntryDocument(entries[i])
  {
    if entries == [] then [] else [EntryDocument(entries[0])] + EntryDocuments(entries[1..])
  }

  /** Converting entries one at a time and appending builds the same list as
      converting them all. */
  lemma EntryDocumentsSnoc(entries: seq<Entry>, e: Entry)
    ensures EntryDocuments(entries + [e]) == EntryDocuments(entries) + [EntryDocument(e)]
  {
    var l, r := EntryDocuments(entries + [e]), EntryDocuments(entries) + [EntryDocument(e)];
    assert |l| == |r|;
    forall i | 0 <= i < |l| ensures l[i] == r[i] {
      if i < |entries| { assert (entries + [e])[i] == entries[i]; }
    }
  }

  /** The records one run writes: those of the first `MaxEntries` entries
      of the feed, in feed order. */
  function FeedDocuments(entries: seq<Entry>): (docs: seq<Document>)
    ensures |docs| == Min(|entries|, MaxEntries) && |docs| <= MaxEntries
    ensures forall i :: 0 <= i < |docs| ==> docs[i] == EntryDocument(entries[i])
  {
    EntryDocuments(Take(entries, MaxEntries))
  }

  /** The article file, one record per line, opened for appending. */
  class ArticleFile {
    var records: seq<Document>

    constructor (records: seq<Document>)
      ensures this.records == records
    {
      this.records := records;
    }

    /** Writes one record as a new line at the end of the file. */
    method Append(d: Document)
      modifies this
      ensures records == old(records) + [d]
    {
      records := records + [d];
    }
  }

  /** The script: appends the records of the first `MaxEntries` entries
      after the file's existing records, which are kept. */
  method AppendFeed(entries: seq<Entry>, out: ArticleFile)
    modifies out
    ensures out.records == old(out.records) + FeedDocuments(entries)
  {
    var batch := Take(entries, MaxEntries);
    for i := 0 to |batch|
      invariant out.records == old(out.records) + EntryDocuments(batch[..i])
    {
      assert batch[..i + 1] == batch[..i] + [batch[i]];
      EntryDocumentsSnoc(batch[..i], batch[i]);
      out.Append(EntryDocument(batch[i]));
    }
    assert batch[..|batch|] == batch;
  }
}
