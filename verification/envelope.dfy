/**
  The part of the provider's `generateContent` reply the relay reads:
  `candidates[0].content.parts[0].text`, every link optional.
 */
module Envelopes {
  import opened Wrappers
  import opened Failures

  datatype Part = Part(text: Option<string>)

  datatype Content = Content(parts: Option<seq<Part>>)

  datatype Candidate = Candidate(content: Option<Content>)

  datatype Envelope = Envelope(candidates: Option<seq<Candidate>>)

  /**
    The optional chain `data.candidates?.[0]?.content?.parts?.[0]?.text`:
    absent as soon as a link is missing or an array is empty.
   */
  function FirstText(data: Envelope): (r: Option<string>)
    ensures data.candidates.None? || data.candidates.value == [] ==> r.None?
    ensures r.Some? ==>
      && data.candidates.Some? && data.candidates.value != []
      && data.candidates.value[0].content.Some?
      && data.candidates.value[0].content.value.parts.Some?
      && data.candidates.value[0].content.value.parts.value != []
      && data.candidates.value[0].content.value.parts.value[0].text == r
  {
    match data.candidates
    case None => None
    case Some(cs) =>
      if |cs| == 0 then None
      else match cs[0].content
        case None => None
        case Some(c) =>
          match c.parts
          case None => None
          case Some(ps) => if |ps| == 0 then None else ps[0].text
  }

  /**
    The text the relay goes on to parse. A missing or empty text is the
    "Empty Gemini response" failure, raised before any parsing.
   */
  function ExtractText(data: Envelope): (r: Result<string, Failure>)
    ensures r.Success? ==> r.value != [] && FirstText(data) == Some(r.value)
    ensures r.Failure? ==> r.error == EmptyResponse && (FirstText(data).None? || FirstText(data) == Some([]))
  {
    match FirstText(data)
    case Some(t) => if t == [] then Failure(EmptyResponse) else Success(t)
    case None => Failure(EmptyResponse)
  }

  /** The reply shape of a single candidate with a single text part. */
  function SingleText(t: string): Envelope {
    Envelope(Some([Candidate(Some(Content(Some([Part(Some(t))]))))]))
  }

  /** Wrapping a text in a reply and extracting it again gives it back, unless it is empty. */
  lemma ExtractSingleText(t: string)
    ensures ExtractText(SingleText(t)) == if t == [] then Failure(EmptyResponse) else Success(t)
  {
  }

  /** Only the first candidate and its first part are read; the rest of the reply is ignored. */
  lemma ExtractReadsFirstOnly(c: Candidate, cs: seq<Candidate>, p: Part, ps: seq<Part>)
    ensures ExtractText(Envelope(Some([c] + cs))) == ExtractText(Envelope(Some([c])))
    ensures ExtractText(Envelope(Some([Candidate(Some(Content(Some([p] + ps))))])))
         == ExtractText(Envelope(Some([Candidate(Some(Content(Some([p]))))])))
  {
  }

  /** A reply that lacks any link of the path, or has an empty array on it, is an empty response. */
  lemma MissingLinkIsEmpty(c: Candidate)
    requires c.content.None? || c.content.value.parts.None? || c.content.value.parts.value == []
    ensures ExtractText(Envelope(None)) == Failure(EmptyResponse)
    ensures ExtractText(Envelope(Some([]))) == Failure(EmptyResponse)
    ensures ExtractText(Envelope(Some([c]))) == Failure(EmptyResponse)
  {
  }
}
