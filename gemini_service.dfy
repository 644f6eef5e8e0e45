/**
 * The generative-AI client (services/geminiService.ts). The requests themselves are outside
 * calls; what is modelled is how `findStreamingSources` turns the grounded response into a
 * list of links.
 */
module GeminiService {
  import opened Types

  /** `chunk.web`: a web citation, each field possibly missing. */
  datatype WebSource = WebSource(title: Option<string>, uri: Option<string>)

  datatype GroundingChunk = GroundingChunk(web: Option<WebSource>)

  datatype GroundingMetadata = GroundingMetadata(groundingChunks: Option<seq<GroundingChunk>>)

  datatype Candidate = Candidate(groundingMetadata: Option<GroundingMetadata>)

  /** The part of a generated response the source reads. */
  datatype GenerateResponse = GenerateResponse(text: string, candidates: Option<seq<Candidate>>)

  /** One element after the `map`: a display title and a possibly missing URI. */
  datatype MappedChunk = MappedChunk(title: string, uri: Option<string>)

  /** A link that survives the `filter`. */
  datatype SourceLink = SourceLink(title: string, uri: string)

  /** The record `findStreamingSources` returns. */
  datatype StreamingInfo = StreamingInfo(text: string, sources: seq<SourceLink>)

  const DefaultLinkTitle := "Watch Link"

  /** `web.title || 'Watch Link'`. */
  function LinkTitle(web: WebSource): (title: string)
    ensures Truthy(web.title) ==> title == web.title.value
    ensures !Truthy(web.title) ==> title == DefaultLinkTitle
  {
    if Truthy(web.title) then web.title.value else DefaultLinkTitle
  }

  /** `{ title: chunk.web?.title || 'Watch Link', uri: chunk.web?.uri }`. */
  function MapChunk(chunk: GroundingChunk): (m: MappedChunk)
    ensures chunk.web.Some? && Truthy(chunk.web.value.title) ==> m.title == chunk.web.value.title.value
    ensures !(chunk.web.Some? && Truthy(chunk.web.value.title)) ==> m.title == DefaultLinkTitle
    ensures m.uri == (if chunk.web.Some? then chunk.web.value.uri else None)
  {
    match chunk.web
    case None => MappedChunk(DefaultLinkTitle, None)
    case Some(web) => MappedChunk(LinkTitle(web), web.uri)
  }

  /** `.filter(c => c.uri)`: keeps, in order, the entries whose URI is present and non-empty. */
  function KeepWithUri(ms: seq<MappedChunk>): (links: seq<SourceLink>)
    ensures |links| <= |ms|
    ensures forall l :: l in links ==> l.uri != "" && MappedChunk(l.title, Some(l.uri)) in ms
    ensures (forall i :: 0 <= i < |ms| ==> !Truthy(ms[i].uri)) ==> links == []
  {
    if ms == [] then []
    else if Truthy(ms[0].uri) then [SourceLink(ms[0].title, ms[0].uri.value)] + KeepWithUri(ms[1..])
    else KeepWithUri(ms[1..])
  }

  /** A chunk contributes a link exactly when its `web.uri` is present and non-empty. */
  predicate HasUri(chunk: GroundingChunk) {
    chunk.web.Some? && Truthy(chunk.web.value.uri)
  }

  /** The link a chunk with a URI contributes. */
  function LinkOf(chunk: GroundingChunk): SourceLink
    requires HasUri(chunk)
  {
    SourceLink(LinkTitle(chunk.web.value), chunk.web.value.uri.value)
  }

  /** The link list of a list of grounding chunks: map, then filter. */
  function ExtractSources(chunks: seq<GroundingChunk>): (links: seq<SourceLink>)
    ensures |links| <= |chunks|
    ensures forall l :: l in links ==> l.uri != ""
  {
    KeepWithUri(seq(|chunks|, i requires 0 <= i < |chunks| => MapChunk(chunks[i])))
  }

  /** `response.candidates?.[0]?.groundingMetadata?.groundingChunks`. */
  function FirstCandidateChunks(response: GenerateResponse): (chunks: Option<seq<GroundingChunk>>)
    ensures response.candidates.None? || response.candidates.value == [] ==> chunks.None?
    ensures chunks.Some? ==>
      response.candidates.Some? && response.candidates.value != []
      && response.candidates.value[0].groundingMetadata == Some(GroundingMetadata(chunks))
    ensures response.candidates.Some? && response.candidates.value != []
            && response.candidates.value[0].groundingMetadata.Some? ==>
      chunks == response.candidates.value[0].groundingMetadata.value.groundingChunks
  {
    if response.candidates.Some? && |response.candidates.value| > 0
       && response.candidates.value[0].groundingMetadata.Some?
    then response.candidates.value[0].groundingMetadata.value.groundingChunks
    else None
  }

  /** The record returned by `findStreamingSources`, built from the grounded response. */
  function FindStreamingSources(response: GenerateResponse): (info: StreamingInfo)
    ensures info.text == response.text
    ensures FirstCandidateChunks(response).None? ==> info.sources == []
    ensures FirstCandidateChunks(response).Some? ==> info.sources == ExtractSources(FirstCandidateChunks(response).value)
  {
    var chunks := FirstCandidateChunks(response);
    StreamingInfo(response.text, if chunks.Some? then ExtractSources(chunks.value) else [])
  }

  lemma {:induction false} KeepWithUriAppend(a: seq<MappedChunk>, b: seq<MappedChunk>)
    ensures KeepWithUri(a + b) == KeepWithUri(a) + KeepWithUri(b)
  {
    if a == [] {
      assert a + b == b;
    } else {
      assert (a + b)[0] == a[0] && (a + b)[1..] == a[1..] + b;
      KeepWithUriAppend(a[1..], b);
    }
  }

  /** The links of one chunk: none without a URI, else one, titled `'Watch Link'` when the chunk has no title. */
  lemma SourcesOfOneChunk(chunk: GroundingChunk)
    ensures !HasUri(chunk) ==> ExtractSources([chunk]) == []
    ensures HasUri(chunk) ==>
      ExtractSources([chunk]) == [LinkOf(chunk)]
  {
    var ms := seq(1, i requires 0 <= i < 1 => MapChunk([chunk][i]));
    assert ms == [MapChunk(chunk)];
    assert ms[1..] == [];
  }

  /** Extraction preserves order: the links of a concatenation are the concatenation of the links. */
  lemma SourcesOfConcatenation(a: seq<GroundingChunk>, b: seq<GroundingChunk>)
    ensures ExtractSources(a + b) == ExtractSources(a) + ExtractSources(b)
  {
    var ma := seq(|a|, i requires 0 <= i < |a| => MapChunk(a[i]));
    var mb := seq(|b|, i requires 0 <= i < |b| => MapChunk(b[i]));
    var mab := seq(|a + b|, i requires 0 <= i < |a + b| => MapChunk((a + b)[i]));
    assert mab == ma + mb;
    KeepWithUriAppend(ma, mb);
  }

  /** The number of links is the number of chunks that carry a URI. */
  function CountWithUri(chunks: seq<GroundingChunk>): nat {
    if chunks == [] then 0 else (if HasUri(chunks[0]) then 1 else 0) + CountWithUri(chunks[1..])
  }

  lemma {:induction false} SourcesCount(chunks: seq<GroundingChunk>)
    ensures |ExtractSources(chunks)| == CountWithUri(chunks)
  {
    if chunks != [] {
      assert chunks == [chunks[0]] + chunks[1..];
      SourcesOfConcatenation([chunks[0]], chunks[1..]);
      SourcesOfOneChunk(chunks[0]);
      SourcesCount(chunks[1..]);
    }
  }

  /** Missing `candidates`, an empty candidate list, or missing metadata or chunks give no links. */
  lemma NoChunksNoSources(response: GenerateResponse)
    requires || response.candidates.None?
             || |response.candidates.value| == 0
             || response.candidates.value[0].groundingMetadata.None?
             || response.candidates.value[0].groundingMetadata.value.groundingChunks.None?
    ensures FindStreamingSources(response) == StreamingInfo(response.text, [])
  {
  }

  /** A link is listed exactly when some chunk with a URI contributes it: chunks without a URI are excluded. */
  lemma {:induction false} SourcesMembership(chunks: seq<GroundingChunk>, l: SourceLink)
    ensures l in ExtractSources(chunks) <==>
      exists i :: 0 <= i < |chunks| && HasUri(chunks[i]) && l == LinkOf(chunks[i])
  {
    if chunks != [] {
      var rest := chunks[1..];
      assert chunks == [chunks[0]] + rest;
      SourcesOfConcatenation([chunks[0]], rest);
      SourcesOfOneChunk(chunks[0]);
      SourcesMembership(rest, l);
      if l in ExtractSources(rest) {
        var j :| 0 <= j < |rest| && HasUri(rest[j]) && l == LinkOf(rest[j]);
        assert chunks[j + 1] == rest[j];
      }
      if exists i :: 0 <= i < |chunks| && HasUri(chunks[i]) && l == LinkOf(chunks[i]) {
        var i :| 0 <= i < |chunks| && HasUri(chunks[i]) && l == LinkOf(chunks[i]);
        if i > 0 { assert rest[i - 1] == chunks[i]; }
      }
    }
  }
}
