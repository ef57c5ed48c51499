/** The link-selection rule and the `toc` / `pending` / `error` state of
    `fetchToc` in src/runtime/composables/useContentToc.ts. */
module TocSource {
  import opened Wrappers
  import opened TocTypes
  import opened Normalize

  /** `{ links?: ContentLink[] }`; None stands for a missing or nullish field. */
  datatype TocField = TocField(links: Option<Links>)
  /** `{ toc?: ... }` under `body`. */
  datatype BodyField = BodyField(toc: Option<TocField>)
  /** A content document: links may sit at `body.toc.links` or at `toc.links`. */
  datatype Document = Document(body: Option<BodyField>, toc: Option<TocField>)

  /** Which content API answered the path query: version 3 (`queryCollection`),
      version 2 (`queryContent`), or neither. */
  datatype Provider = V3 | V2 | NoProvider

  /** `content.body?.toc?.links` */
  function BodyLinks(doc: Document): (r: Option<Links>)
    ensures r.Some? <==> doc.body.Some? && doc.body.value.toc.Some? && doc.body.value.toc.value.links.Some?
    ensures r.Some? ==> r == doc.body.value.toc.value.links
  {
    if doc.body.Some? && doc.body.value.toc.Some? then doc.body.value.toc.value.links else None
  }

  /** `content.toc?.links` */
  function TopLinks(doc: Document): (r: Option<Links>)
    ensures r.Some? <==> doc.toc.Some? && doc.toc.value.links.Some?
    ensures r.Some? ==> r == doc.toc.value.links
  {
    if doc.toc.Some? then doc.toc.value.links else None
  }

  const DefaultLevels: seq<int> := [2, 3, 4]

  /** `options.levels || [2, 3, 4]`: any configured array, even an empty one, is used. */
  function EffectiveLevels(configured: Option<seq<int>>): (r: seq<int>)
    ensures configured.None? ==> r == [2, 3, 4]
    ensures configured.Some? ==> r == configured.value
  {
    configured.GetOr(DefaultLevels)
  }

  /** The TOC of a content object passed in directly: `body.toc.links || toc.links`,
      always read with the v3 normaliser; a value that is not an array gives []. */
  function InlineToc(doc: Document, levels: seq<int>): (r: seq<TocItem>)
    ensures AllDepthsIn(r, levels) && Canonical(r)
    ensures BodyLinks(doc).None? && TopLinks(doc).None? ==> r == []
  {
    var links := BodyLinks(doc).OrElse(TopLinks(doc));
    if links.Some? && links.value.Arr? then NormalizeV3(links.value, levels) else []
  }

  /** The TOC computed inside the async handler from what the provider returned. */
  function FetchedToc(provider: Provider, data: Option<Document>, levels: seq<int>): (r: seq<TocItem>)
    ensures AllDepthsIn(r, levels)
    ensures provider.NoProvider? || data.None? ==> r == []
    ensures provider.V2? && data.Some? && BodyLinks(data.value).None? ==> r == []
    ensures data.Some? && BodyLinks(data.value).None? && TopLinks(data.value).None? ==> r == []
    ensures provider.V3? ==> Canonical(r)
  {
    if provider.NoProvider? || data.None? then []
    else
      var content := data.value;
      if provider.V3? then
        if BodyLinks(content).Some? then NormalizeV3(BodyLinks(content).value, levels)
        else if TopLinks(content).Some? then NormalizeV3(TopLinks(content).value, levels)
        else []
      else
        if BodyLinks(content).Some? then NormalizeV2(BodyLinks(content).value, levels)
        else []
  }

  /** A content object passed in directly is read exactly as a fetched v3
      document would be. */
  lemma InlineIsV3Fetch(doc: Document, levels: seq<int>)
    ensures InlineToc(doc, levels) == FetchedToc(V3, Some(doc), levels)
  {
  }

  /** The v2 branch never looks at the top-level `toc.links`. */
  lemma V2IgnoresTopLevelToc(body: Option<BodyField>, t1: Option<TocField>, t2: Option<TocField>, levels: seq<int>)
    ensures FetchedToc(V2, Some(Document(body, t1)), levels) == FetchedToc(V2, Some(Document(body, t2)), levels)
  {
  }

  /** An inline object whose `body.toc.links` is present is read from there
      with the v3 normaliser, whatever the top-level `toc` holds (a present
      non-array, being truthy, gives []). */
  lemma InlineReadsBodyFirst(doc: Document, otherToc: Option<TocField>, levels: seq<int>)
    requires BodyLinks(doc).Some?
    ensures InlineToc(doc, levels) == NormalizeV3(BodyLinks(doc).value, levels)
    ensures InlineToc(doc, levels) == InlineToc(Document(doc.body, otherToc), levels)
  {
  }

  /** Without `body.toc.links`, an inline object is read from `toc.links`
      with the v3 normaliser, or gives [] when that is missing too. */
  lemma InlineFallsBackToTopLevel(doc: Document, levels: seq<int>)
    requires BodyLinks(doc).None?
    ensures InlineToc(doc, levels) == if TopLinks(doc).Some? then NormalizeV3(TopLinks(doc).value, levels) else []
  {
  }

  /** A fetched v3 document: `body.toc.links` when present (whatever the
      top-level `toc` holds), else `toc.links`, else []; always the v3 normaliser. */
  lemma V3ReadsBodyThenTopLevel(doc: Document, otherToc: Option<TocField>, levels: seq<int>)
    ensures BodyLinks(doc).Some? ==> FetchedToc(V3, Some(doc), levels) == NormalizeV3(BodyLinks(doc).value, levels)
    ensures BodyLinks(doc).Some? ==> FetchedToc(V3, Some(doc), levels) == FetchedToc(V3, Some(Document(doc.body, otherToc)), levels)
    ensures BodyLinks(doc).None? ==>
      FetchedToc(V3, Some(doc), levels) == if TopLinks(doc).Some? then NormalizeV3(TopLinks(doc).value, levels) else []
  {
  }

  /** A fetched v2 document is read only from `body.toc.links`, with the v2 normaliser. */
  lemma V2ReadsBodyOnly(doc: Document, levels: seq<int>)
    ensures FetchedToc(V2, Some(doc), levels)
         == if BodyLinks(doc).Some? then NormalizeV2(BodyLinks(doc).value, levels) else []
  {
  }

  /** In the v3 branch and for inline objects, a present `body.toc.links` wins even
      when it is an empty array: the top-level `toc.links` is then not consulted. */
  lemma BodyLinksShadowTopLevel(levels: seq<int>)
    requires 2 in levels
    ensures var top := Some(TocField(Some(Arr([ContentLink("a", Some(2), None, "A", None)]))));
      var doc := Document(Some(BodyField(Some(TocField(Some(Arr([])))))), top);
      && InlineToc(doc, levels) == []
      && FetchedToc(V3, Some(doc), levels) == []
      && InlineToc(Document(None, top), levels) == [TocItem("a", 2, "A", Absent)]
  {
    var ls := [ContentLink("a", Some(2), None, "A", None)];
    assert ls[1..] == [];
  }

  /** The value a `catch` block turns a thrown value into. */
  datatype Thrown = ErrorValue(message: string) | OtherValue

  /** `err instanceof Error ? err : new Error('Failed to fetch TOC')`, by message. */
  function CaughtMessage(t: Thrown): (r: string)
    ensures t.ErrorValue? ==> r == t.message
    ensures t.OtherValue? ==> r == "Failed to fetch TOC"
  {
    match t
    case ErrorValue(m) => m
    case OtherValue => "Failed to fetch TOC"
  }

  /** What locates the content: an object passed in, or a path to fetch. */
  datatype Locator = Inline(doc: Document) | ByPath(path: string)

  /** How the path branch of one `fetchToc` run ends, as decided by the
      environment: the handler ran and the provider answered; the handler
      failed (the failure lands in `useAsyncData`'s error ref and there is no
      data); or a value was thrown out of the `try` block. */
  datatype FetchOutcome =
    | Loaded(provider: Provider, data: Option<Document>)
    | AsyncFailed(message: string)
    | Threw(thrown: Thrown)

  /** The reactive state owned by one `useContentToc` call. */
  class TocState {
    var toc: seq<TocItem>
    var pending: bool
    var error: Option<string>
    const levels: seq<int>

    /** The refs start as `[]`, `true` and `null`. */
    constructor (configuredLevels: Option<seq<int>>)
      ensures toc == [] && pending && error == None
      ensures levels == EffectiveLevels(configuredLevels)
    {
      toc := [];
      pending := true;
      error := None;
      levels := EffectiveLevels(configuredLevels);
    }

    /** The start of every run: pending, and any previous error cleared. */
    method Begin()
      modifies this
      ensures pending && error == None && toc == old(toc)
    {
      pending := true;
      error := None;
    }

    /** One complete run of `fetchToc`. `outcome` is consulted only on the path
        branch; an inline object needs no I/O. Whatever happens, `pending` is
        false at the end, and a failure leaves no stale TOC behind. */
    method FetchToc(locator: Locator, outcome: FetchOutcome)
      modifies this
      ensures !pending
      ensures locator.Inline? ==> toc == InlineToc(locator.doc, levels) && error == None
      ensures locator.ByPath? && outcome.Loaded? ==>
                toc == FetchedToc(outcome.provider, outcome.data, levels) && error == None
      ensures locator.ByPath? && outcome.AsyncFailed? ==> toc == [] && error == Some(outcome.message)
      ensures locator.ByPath? && outcome.Threw? ==> toc == [] && error == Some(CaughtMessage(outcome.thrown))
      ensures error.None? ==> AllDepthsIn(toc, levels)
    {
      Begin();
      if locator.Inline? {
        toc := InlineToc(locator.doc, levels);
      } else {
        match outcome {
          case Loaded(provider, data) =>
            toc := FetchedToc(provider, data, levels);
            pending := false;
            error := None;
          case AsyncFailed(message) =>
            toc := [];
            pending := false;
            error := Some(message);
          case Threw(thrown) =>
            error := Some(CaughtMessage(thrown));
            toc := [];
        }
      }
      pending := false;
    }
  }
}
