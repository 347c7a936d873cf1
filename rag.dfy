/** The retrieval side of the backend chat (`services/rag_llamaindex.py`):
    turning the pages of a Document AI extraction into index documents, the
    per-document chat-engine cache, and the `sources` list of a chat reply.
    The LlamaIndex, LanceDB and Vertex AI calls are outside the model: a
    chat engine is an opaque object built by a factory, and what it answers
    is a parameter. */
module Rag {
  import opened Wrappers
  import opened Text
  import opened Seqs

  /** A page of the extraction; `text` and `index` may be absent or None. */
  datatype Page = Page(text: Option<string>, index: Option<int>)

  /** The extraction result; `pages` is None when the key is absent. */
  datatype DocAiDocument = DocAiDocument(pages: Option<seq<Page>>)

  datatype PageMetadata = PageMetadata(docId: string, filename: string, page: Option<int>)

  /** A LlamaIndex `Document`: one page's text and its metadata. */
  datatype IndexDocument = IndexDocument(text: string, metadata: PageMetadata)

  /** `doc.get("pages", [])` */
  function PagesOf(doc: DocAiDocument): seq<Page> {
    match doc.pages
    case None => []
    case Some(ps) => ps
  }

  /** `(page.get("text") or "").strip()` */
  function PageText(p: Page): string {
    var raw := match p.text case None => "" case Some(s) => s;
    PyStrip(raw)
  }

  /** The page text is the stripped text of the page, and it is empty
      exactly when the text is absent, None, empty or all whitespace. */
  lemma PageTextSpec(p: Page)
    ensures p.text.None? ==> PageText(p) == []
    ensures p.text.Some? ==> exists lo, hi :: StrippedAt(p.text.value, PageText(p), Py, lo, hi)
    ensures PageText(p) == [] <==>
      p.text.None? || forall i :: 0 <= i < |p.text.value| ==> IsPySpace(p.text.value[i])
  {
    match p.text
    case None =>
    case Some(t) =>
      StripSpec(t, Py);
      StripEmptyIffBlank(t, Py);
      assert PageText(p) == Strip(t, Py);
      var lo, hi :| StrippedAt(t, Strip(t, Py), Py, lo, hi);
      assert StrippedAt(p.text.value, PageText(p), Py, lo, hi);
  }

  /** The document a page would give: its stripped text, the given id and
      file name, and the page's `index` (None when absent). */
  function ToEntry(p: Page, docId: string, filename: string): IndexDocument {
    IndexDocument(PageText(p), PageMetadata(docId, filename, p.index))
  }

  /** One candidate document per page, in page order. */
  function PageEntries(pages: seq<Page>, docId: string, filename: string): seq<IndexDocument> {
    seq(|pages|, k requires 0 <= k < |pages| => ToEntry(pages[k], docId, filename))
  }

  /** The loop keeps a page's document only when its text is not empty. */
  predicate HasText(e: IndexDocument) {
    e.text != []
  }

  /** What `build_documents_from_docai` returns for these pages. */
  function Converted(pages: seq<Page>, docId: string, filename: string): seq<IndexDocument> {
    Filter(PageEntries(pages, docId, filename), HasText)
  }

  /** `build_documents_from_docai`: loops over the pages, skips those whose
      stripped text is empty and appends a document for each of the others. */
  method BuildDocuments(doc: DocAiDocument, docId: string, filename: string)
    returns (documents: seq<IndexDocument>)
    ensures documents == Converted(PagesOf(doc), docId, filename)
  {
    var pages := PagesOf(doc);
    documents := [];
    for i := 0 to |pages|
      invariant documents == Converted(pages[..i], docId, filename)
    {
      var page := pages[i];
      assert PageEntries(pages[..i + 1], docId, filename) ==
        PageEntries(pages[..i], docId, filename) + [ToEntry(page, docId, filename)];
      FilterSnoc(PageEntries(pages[..i], docId, filename), ToEntry(page, docId, filename), HasText);
      var text := PageText(page);
      if text == [] {
        continue;
      }
      var pageIdx := page.index;
      documents := documents + [IndexDocument(text, PageMetadata(docId, filename, pageIdx))];
    }
    assert pages[..|pages|] == pages;
  }

  /** The conversion keeps exactly the non-blank pages: each page with
      non-empty stripped text gives a document, every document comes from
      such a page, and there are never more documents than pages. */
  lemma ConvertedDocuments(pages: seq<Page>, docId: string, filename: string)
    ensures |Converted(pages, docId, filename)| <= |pages|
    ensures forall k :: 0 <= k < |pages| && PageText(pages[k]) != [] ==>
      ToEntry(pages[k], docId, filename) in Converted(pages, docId, filename)
    ensures forall e :: e in Converted(pages, docId, filename) ==>
      e.text != [] && exists k :: 0 <= k < |pages| && e == ToEntry(pages[k], docId, filename)
  {
    var entries := PageEntries(pages, docId, filename);
    FilterContents(entries, HasText);
    forall k | 0 <= k < |pages| && PageText(pages[k]) != []
      ensures ToEntry(pages[k], docId, filename) in Converted(pages, docId, filename)
    {
      assert entries[k] == ToEntry(pages[k], docId, filename);
    }
  }

  /** The conversion keeps page order: converting a concatenation of pages
      gives the documents of the first part followed by those of the second. */
  lemma ConvertedAppend(a: seq<Page>, b: seq<Page>, docId: string, filename: string)
    ensures Converted(a + b, docId, filename) == Converted(a, docId, filename) + Converted(b, docId, filename)
  {
    assert PageEntries(a + b, docId, filename) == PageEntries(a, docId, filename) + PageEntries(b, docId, filename);
    FilterAppend(PageEntries(a, docId, filename), PageEntries(b, docId, filename), HasText);
  }

  /** With no page text at all (no `pages` key, or only blank pages) the
      result is empty. */
  lemma BlankDocumentGivesNothing(doc: DocAiDocument, docId: string, filename: string)
    requires forall k :: 0 <= k < |PagesOf(doc)| ==> PageText(PagesOf(doc)[k]) == []
    ensures Converted(PagesOf(doc), docId, filename) == []
  {
    FilterNone(PageEntries(PagesOf(doc), docId, filename), HasText);
  }

  /** The chat engine of one document (a LlamaIndex `ContextChatEngine`
      over that document's LanceDB table). It is opaque here: only the id
      it was built for is visible. */
  class ChatEngine {
    const docId: string

    constructor (docId: string)
      ensures this.docId == docId
    {
      this.docId := docId;
    }
  }

  /** Metadata of a retrieved node; either key may be missing. */
  datatype NodeMetadata = NodeMetadata(page: Option<int>, docId: Option<string>)

  /** A retrieved node with its (possibly None) similarity score. */
  datatype SourceNode = SourceNode(metadata: Option<NodeMetadata>, score: Option<real>)

  /** What the engine answered: its text and its source nodes (None when
      the attribute is missing or None). */
  datatype EngineResponse = EngineResponse(text: string, sourceNodes: Option<seq<SourceNode>>)

  datatype Source = Source(page: Option<int>, docId: Option<string>, score: Option<real>)

  /** The JSON body of `POST /chat`: the keys `answer` and `sources`. */
  datatype ChatReply = ChatReply(answer: string, sources: seq<Source>)

  /** `getattr(resp, "source_nodes", []) or []` */
  function NodesOf(resp: EngineResponse): seq<SourceNode> {
    match resp.sourceNodes
    case None => []
    case Some(ns) => ns
  }

  /** One `sources` entry: `meta = node.node.metadata or {}`, then the page
      and id from it and the score kept as it is (None stays None). */
  function SourceOf(node: SourceNode): Source {
    match node.metadata
    case None => Source(None, None, node.score)
    case Some(m) => Source(m.page, m.docId, node.score)
  }

  /** The `sources` loop: one entry per source node, in order. */
  method BuildSources(nodes: seq<SourceNode>) returns (sources: seq<Source>)
    ensures |sources| == |nodes|
    ensures forall k :: 0 <= k < |nodes| ==>
      sources[k].score == nodes[k].score &&
      (nodes[k].metadata.None? ==> sources[k].page.None? && sources[k].docId.None?) &&
      (nodes[k].metadata.Some? ==>
         sources[k].page == nodes[k].metadata.value.page &&
         sources[k].docId == nodes[k].metadata.value.docId)
  {
    sources := [];
    for i := 0 to |nodes|
      invariant |sources| == i
      invariant forall k :: 0 <= k < i ==> sources[k] == SourceOf(nodes[k])
    {
      sources := sources + [SourceOf(nodes[i])];
    }
  }

  /** The module-level `_CHAT_ENGINES` dictionary. */
  class ChatEngineCache {
    var engines: map<string, ChatEngine>

    /** Every cached engine was built for the id it is cached under. */
    ghost predicate Valid()
      reads this
    {
      forall id :: id in engines ==> engines[id].docId == id
    }

    constructor ()
      ensures Valid() && engines == map[]
    {
      engines := map[];
    }

    /** `_get_chat_engine_for_doc`: a hit returns the cached engine and
        changes nothing; a miss builds one new engine, caches it under
        `docId` and leaves every other entry as it was. */
    method GetOrCreate(docId: string) returns (engine: ChatEngine)
      requires Valid()
      modifies this
      ensures Valid()
      ensures docId in engines && engines[docId] == engine && engine.docId == docId
      ensures docId in old(engines) ==> engine == old(engines)[docId] && engines == old(engines)
      ensures docId !in old(engines) ==> fresh(engine) && engines == old(engines)[docId := engine]
    {
      if docId in engines {
        return engines[docId];
      }
      engine := new ChatEngine(docId);
      engines := engines[docId := engine];
    }

    /** `chat_with_rag`, given what the engine answers: the reply holds the
        answer text and one source per source node, in order, and the
        engine for `docId` is looked up or created as GetOrCreate does. */
    method ChatWithRag(docId: string, message: string, response: EngineResponse)
      returns (reply: ChatReply)
      requires Valid()
      modifies this
      ensures Valid()
      ensures docId in engines && engines[docId].docId == docId
      ensures docId in old(engines) ==> engines == old(engines)
      ensures docId !in old(engines) ==>
        fresh(engines[docId]) && engines == old(engines)[docId := engines[docId]]
      ensures reply.answer == response.text
      ensures |reply.sources| == |NodesOf(response)|
      ensures forall k :: 0 <= k < |NodesOf(response)| ==>
        reply.sources[k] == SourceOf(NodesOf(response)[k])
    {
      var engine := GetOrCreate(docId);
      var answerText := response.text;
      var sources := BuildSources(NodesOf(response));
      reply := ChatReply(answerText, sources);
    }
  }

  /** Asking the cache twice for the same id gives the same engine, and the
      second request adds nothing. */
  method SecondLookupReuses(cache: ChatEngineCache, docId: string)
    returns (first: ChatEngine, second: ChatEngine)
    requires cache.Valid()
    modifies cache
    ensures cache.Valid()
    ensures first == second && first.docId == docId
    ensures cache.engines == old(cache.engines)[docId := first]
  {
    first := cache.GetOrCreate(docId);
    ghost var afterFirst := cache.engines;
    second := cache.GetOrCreate(docId);
    assert cache.engines == afterFirst;
  }
}
