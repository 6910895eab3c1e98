/**
  The `POST /api/diary` handler with the network removed: the provider is
  a function from prompt to reply, and `JSON.parse` is a parameter.
 */
module Relay {
  import opened Wrappers
  import opened Failures
  import Language
  import Prompt
  import opened Envelopes
  import opened Extractor

  /** The request body's two fields, each absent when not sent. */
  datatype Request = Request(content: Option<string>, language: Option<string>)

  /** What the provider call yields: no usable JSON body at all, or the decoded envelope. */
  datatype Reply = Unreachable | Received(data: Envelope)

  /** The provider, seen from the relay: the reply it gives to a prompt. */
  type Provider = string -> Reply

  datatype Body = QuoteBody(quote: string, author: string) | ErrorBody(error: string)

  datatype Response = Response(status: nat, body: Body)

  /** One request's observable effect: the prompt sent to the provider, if any, and the response. */
  datatype Exchange = Exchange(call: Option<string>, response: Response)

  const MissingContent: Response := Response(400, ErrorBody("Missing diary content"))

  const GenerationFailed: Response := Response(500, ErrorBody("AI generation failed"))

  /** `content` is truthy: present and non-empty. */
  predicate HasContent(req: Request): (b: bool)
    ensures !b <==> req.content == None || req.content == Some([])
  {
    req.content.Some? && req.content.value != []
  }

  /** Everything inside the `try`, after the provider has answered. */
  function Generate(reply: Reply, parse: Parser): (r: Result<Quote, Failure>)
    ensures r.Success? ==> r.value.author != []
    ensures reply.Unreachable? ==> r == Failure(TransportFailed)
    ensures reply.Received? && ExtractText(reply.data).Failure? ==> r == Failure(EmptyResponse)
    ensures reply.Received? && ExtractText(reply.data).Success? ==> r == Extract(ExtractText(reply.data).value, parse)
  {
    match reply
    case Unreachable => Failure(TransportFailed)
    case Received(data) =>
      var text :- ExtractText(data);
      Extract(text, parse)
  }

  /** The `catch`: every failure becomes the one 500 response; success is a 200 with the pair. */
  function Respond(r: Result<Quote, Failure>): (resp: Response)
    ensures resp.status == 200 <==> r.Success?
    ensures r.Failure? ==> resp == GenerationFailed
    ensures r.Success? ==> resp.body == QuoteBody(r.value.quote, r.value.author)
  {
    match r
    case Success(q) => Response(200, QuoteBody(q.quote, q.author))
    case Failure(_) => GenerationFailed
  }

  /** The handler. The content check comes before the provider is called. */
  function Handle(req: Request, provider: Provider, parse: Parser): (x: Exchange)
    ensures x.call.None? <==> !HasContent(req)
    ensures !HasContent(req) ==> x.response == MissingContent
    ensures HasContent(req) ==> x.call == Some(Prompt.Build(Language.Resolve(req.language), req.content.value))
    ensures x.response.status in {200, 400, 500}
    ensures x.response.status == 200 <==> x.response.body.QuoteBody?
    ensures x.response.body.QuoteBody? ==> x.response.body.author != []
    ensures x.response.status == 500 ==> x.response == GenerationFailed
    ensures HasContent(req) && x.response.status == 200
        ==> Generate(provider(x.call.value), parse) == Success(Quote(x.response.body.quote, x.response.body.author))
    ensures HasContent(req) && Generate(provider(x.call.value), parse).Failure? ==> x.response == GenerationFailed
  {
    var targetLang := Language.Resolve(req.language);
    if !HasContent(req) then
      Exchange(None, MissingContent)
    else
      var prompt := Prompt.Build(targetLang, req.content.value);
      Exchange(Some(prompt), Respond(Generate(provider(prompt), parse)))
  }

  /** The provider is consulted only on the prompt that was sent. */
  lemma HandleReadsOnlyItsCall(req: Request, p1: Provider, p2: Provider, parse: Parser)
    requires HasContent(req)
    requires var prompt := Handle(req, p1, parse).call.value; p1(prompt) == p2(prompt)
    ensures Handle(req, p1, parse) == Handle(req, p2, parse)
  {
  }

  /** A request succeeds exactly when it has content and generation succeeds on the reply to its prompt. */
  lemma HandleSucceedsIff(req: Request, provider: Provider, parse: Parser)
    ensures var x := Handle(req, provider, parse);
      x.response.status == 200 <==> x.call.Some? && Generate(provider(x.call.value), parse).Success?
  {
  }

  /** The prompt actually sent determines the resolved language name and the diary entry. */
  lemma SentPromptRecovers(req: Request, provider: Provider, parse: Parser)
    requires HasContent(req)
    ensures Prompt.RecoverEntry(Handle(req, provider, parse).call.value)
         == Some((Language.Resolve(req.language), req.content.value))
  {
    Language.ResolvedNameIsOneLine(req.language);
    Prompt.RecoverBuild(Language.Resolve(req.language), req.content.value);
  }

  /** Whatever went wrong upstream, the client sees the same response. */
  lemma FailuresIndistinguishable(req: Request, p1: Provider, p2: Provider, parse: Parser)
    requires HasContent(req)
    requires var x := Handle(req, p1, parse); Generate(p1(x.call.value), parse).Failure?
    requires var x := Handle(req, p2, parse); Generate(p2(x.call.value), parse).Failure?
    ensures Handle(req, p1, parse) == Handle(req, p2, parse)
  {
  }

  /** Empty or absent content is a 400, whatever the language, provider or parser. */
  lemma MissingContentScenario(language: Option<string>, provider: Provider, parse: Parser)
    ensures Handle(Request(None, language), provider, parse) == Exchange(None, MissingContent)
    ensures Handle(Request(Some([]), language), provider, parse) == Exchange(None, MissingContent)
  {
  }

  /** The prompt names the resolved language in its `Respond in` rule. */
  lemma PromptNamesLanguage(req: Request, provider: Provider, parse: Parser)
    requires HasContent(req)
    ensures Prompt.NamesLanguage(Handle(req, provider, parse).call.value, Language.Resolve(req.language))
    ensures Prompt.QuotesEntry(Handle(req, provider, parse).call.value, req.content.value)
  {
    Prompt.BuildMentions(Language.Resolve(req.language), req.content.value);
  }

  /**
    A request whose provider answers with a single text part that parses to
    a complete pair is answered with exactly that pair.
   */
  lemma AnswerScenario(req: Request, provider: Provider, parse: Parser, answer: string, q: Quote)
    requires HasContent(req)
    requires provider(Prompt.Build(Language.Resolve(req.language), req.content.value)) == Received(SingleText(answer))
    requires answer != [] && q.author != []
    requires parse(answer) == Some(AsJson(q))
    ensures Handle(req, provider, parse)
         == Exchange(Some(Prompt.Build(Language.Resolve(req.language), req.content.value)),
                     Response(200, QuoteBody(q.quote, q.author)))
  {
    ExtractSingleText(answer);
    NormalizeRoundTrip(q);
  }

  /**
    The Korean example: "Today I felt lost." with code `ko`, answered by a
    Korean quote attributed to "Sage", gives back exactly that pair.
   */
  lemma KoreanScenario(entry: string, code: string, quote: string, provider: Provider, parse: Parser, answer: string)
    requires entry == "Today I felt lost." && code == "ko"
    requires quote == "길을 잃는 것도 길을 찾는 과정이다."
    requires provider(Prompt.Build(Language.Resolve(Some(code)), entry)) == Received(SingleText(answer))
    requires answer != []
    requires parse(answer) == Some(Value(Some(quote), Some("Sage")))
    ensures Language.Resolve(Some(code)) == "Korean"
    ensures Handle(Request(Some(entry), Some(code)), provider, parse)
         == Exchange(Some(Prompt.Build(Language.Resolve(Some(code)), entry)), Response(200, QuoteBody(quote, "Sage")))
  {
    AnswerScenario(Request(Some(entry), Some(code)), provider, parse, answer, Quote(quote, "Sage"));
  }
}
