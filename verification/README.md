# Diary quote relay — a Dafny model

The relay serves `POST /api/diary`. It takes a diary entry and a language code,
asks a generative model for a one-sentence quote, and returns `{quote, author}`.
This project models that handler as pure functions, with the network and the
framework removed:

- `Language`: the five-entry code table. Unknown or absent codes fall back to `"English"`.
- `Relay.Handle`: the content gate. Absent or empty `content` gets a 400 before any provider call.
- `Prompt`: the prompt template. The exact template literal is reproduced, including its
  leading newline and closing indentation, and `String.prototype.trim` is modelled over
  the ECMAScript white-space set (`Text.Trim`).
- `Envelopes`: reads `candidates[0].content.parts[0].text`. Every link is optional, and a
  missing or empty text is a failure.
- `Extractor`: the two-tier parse. It first runs a strict parse of the whole text. If that
  fails, it parses the greedy regex match `/\{[\s\S]*\}/`, modelled as index arithmetic:
  from the first `{` to the last `}`. Then the fields are defaulted: `quote || ""` and
  `author || "Sage"`.
- `Relay`: collapses every failure into the single 500 `"AI generation failed"` response.

The provider is a parameter `provider: string -> Reply`. `Handle` returns an `Exchange`:
the prompt that was sent (if one was sent) and the response. This makes "no call is made
when content is missing" a statement about the result. `JSON.parse` is also a parameter,
`parse: string -> Option<Json>`, and every property holds for every parser.

Behaviours of the handler worth knowing:

- The brace fallback is greedy, from the first `{` to the last `}`. It is not a
  balanced-brace match.
- The author default applies when the field is absent and also when it is the empty
  string. The same holds for the quote default.
- Model text with no `{` fails only when the strict parse also fails. A text such as `42`
  parses strictly and yields a 200 with an empty quote and author `"Sage"`.
- A text that parses to JSON `null` makes `parsed.quote` throw, so it ends in the 500
  response. This is modelled as the `NullValue` failure.
- index.js declares `const text` twice in one block (lines 72 and 79). As written, that is
  a JavaScript SyntaxError. The model performs the intended single extraction once.
- The provider's HTTP status is never checked. A non-success reply is read like any other
  body: it fails when its body is not JSON or has no text at the expected path.

## Model

| member | source | states |
|---|---|---|
| `Language.Resolve` | index.js:11-21 | the resolved name is one of the table's names; it is "English" exactly when the code is absent, "en", or not in the table; a known code gets its table entry |
| `Language.ResolveTable` | index.js:11-21 | en, ko, ja, fr, es resolve to English, Korean, Japanese, French, Spanish; an absent code and every other code resolve to English |
| `Language.ResolveInjectiveOnKnownCodes` | index.js:11-17 | two known codes give the same name only if they are the same code |
| `Language.ResolvedNameIsOneLine` | index.js:11-21 | every resolved name is non-empty and contains no newline (so it can be read back from the prompt) |
| `Text.IsWhiteSpace` | index.js:61 | the ECMAScript WhiteSpace and LineTerminator code points: newline, space, tab and carriage return are in it; quotes, braces, digits and ASCII letters are not |
| `Text.Trim` | index.js:61 | `trim` leaves a string that neither starts nor ends with ECMAScript white space and is no longer than its input |
| `Text.TrimStripsPadding` | index.js:61 | trimming white space wrapped around a trimmed core returns exactly that core |
| `Text.LeadingWhiteSpace` | index.js:61 | the count of leading white space is maximal: all counted characters are white space and the next one is not |
| `Text.TrailingWhiteSpace` | index.js:61 | the same for trailing white space |
| `Text.IndexOf` | index.js:91 | the first occurrence: the character is at the index and nowhere before it; none exactly when the character is absent |
| `Text.LastIndexOf` | index.js:91 | the last occurrence: the character is at the index and nowhere after it; none exactly when the character is absent |
| `Prompt.Template` | index.js:39-61 | the raw literal starts with a newline and ends with a newline followed by the 18-space closing indentation, around the instructions, name, header and quoted entry |
| `Prompt.Build` | index.js:39-61 | the trimmed template is the instructions, the language name, the entry header and the entry in double quotes; the trim never touches the entry |
| `Prompt.TemplateTrims` | index.js:39-61 | trimming the raw template literal removes only its leading newline and closing indentation |
| `Prompt.BuildMentions` | index.js:57-60 | the prompt carries `Respond in <name>` where the instructions end and finishes with the entry wrapped in double quotes |
| `Prompt.RecoverBuild` | index.js:39-61 | the prompt determines the language name and the entry it was built from (round trip through `RecoverEntry`) |
| `Prompt.BuildInjective` | index.js:39-61 | distinct (language, entry) pairs give distinct prompts |
| `Envelopes.FirstText` | index.js:72-73 | a text is found only by following every link of `candidates[0].content.parts[0].text`; no candidates means no text |
| `Envelopes.ExtractText` | index.js:72-77 | success only with a non-empty text at `candidates[0].content.parts[0].text`; every other reply is the "Empty Gemini response" failure |
| `Envelopes.ExtractSingleText` | index.js:72-77 | a one-candidate, one-part reply gives its text back, unless the text is empty |
| `Envelopes.ExtractReadsFirstOnly` | index.js:72-73 | further candidates and further parts never affect the extracted text |
| `Envelopes.MissingLinkIsEmpty` | index.js:72-77 | a reply with no candidates, an empty candidate list, or a first candidate lacking content or parts is the empty-response failure |
| `Extractor.BraceBounds` | index.js:91 | the regex matches exactly when some `{` precedes some `}`; the match is leftmost in its start and greedy (last `}`) in its end |
| `Extractor.BraceSpan` | index.js:91-95 | the fallback candidate exists exactly when a `{` precedes a `}`; it starts with `{`, ends with `}` and has length at least 2 |
| `Extractor.NoSpanIff` | index.js:91-94 | the fallback fails exactly when there is no `{` or no `}` after the first `{` |
| `Extractor.BraceSpanFrame` | index.js:91-95 | an object with no `{` before it and no `}` after it is exactly the recovered candidate |
| `Extractor.BraceSpanSplits` | index.js:91 | the candidate splits the text into a prefix with no `{`, the candidate, and a suffix with no `}` |
| `Extractor.ParseTiered` | index.js:87-96 | a strict parse of the whole text wins; otherwise success exactly when the brace span parses, and then the value is the span's parse; "Invalid JSON" exactly when neither parses strictly and no span exists |
| `Extractor.StrictTierWins` | index.js:88-90 | when the whole text parses, parsers that agree on it agree on the outcome: the fallback is never consulted |
| `Extractor.FallbackTierDecides` | index.js:90-96 | when the whole text does not parse, the outcome depends only on how the brace span parses |
| `Extractor.OrDefault` | index.js:99-100 | JavaScript `field or default`: the field when present and non-empty, otherwise the default |
| `Extractor.Normalize` | index.js:98-101 | `null` fails; otherwise the quote is the parsed quote or `""`, and the author is the parsed author or "Sage", so it is never empty |
| `Extractor.NormalizeRoundTrip` | index.js:98-101 | an object with both fields and a non-empty author comes back unchanged |
| `Extractor.NormalizeIdempotent` | index.js:98-101 | normalising an already normalised answer changes nothing |
| `Extractor.Extract` | index.js:86-101 | success exactly when the tiered parse yields a non-null value, and then the pair is that value's defaulted fields; a successful result has a non-empty author |
| `Extractor.ExactObjectScenario` | index.js:88-101 | text that parses strictly to quote Q and author A gives `{Q, A}` |
| `Extractor.WrappedObjectScenario` | index.js:88-101 | the same object inside prose is recovered by the brace fallback |
| `Extractor.NoBraceScenario` | index.js:88-94 | text with no `{` that does not parse strictly is the "Invalid JSON" failure |
| `Extractor.AuthorDefaultScenario` | index.js:98-101 | an object without an author gets "Sage" |
| `Relay.Generate` | index.js:70-101 | an unreachable provider, an empty envelope and an unusable text each fail; otherwise the result is the extractor's, with a non-empty author |
| `Relay.Respond` | index.js:98-106 | status 200 exactly on success, carrying the pair; every failure is the same 500 response |
| `Relay.Handle` | index.js:19-107 | no call exactly when content is falsy, and then the 400 response; otherwise the call carries the prompt for the resolved language; statuses are 200, 400 or 500; a failed generation gives the single 500 response; a 200 carries exactly the pair generated from the provider's reply to that prompt, with a non-empty author |
| `Relay.HasContent` | index.js:23 | `!content` is false exactly when content is present and non-empty |
| `Relay.SentPromptRecovers` | index.js:21-61 | the prompt actually sent yields back the resolved language name and the diary entry |
| `Relay.MissingContentScenario` | index.js:23-25 | absent or empty content is the 400 with no call, whatever the language, provider or parser |
| `Relay.HandleReadsOnlyItsCall` | index.js:28-70 | the provider is consulted only on the prompt that was sent |
| `Relay.HandleSucceedsIff` | index.js:19-107 | a 200 exactly when a call was made and generation on its reply succeeded |
| `Relay.FailuresIndistinguishable` | index.js:103-106 | any two failing generations give the client the same response |
| `Relay.PromptNamesLanguage` | index.js:21-60 | the prompt sent names the resolved language and quotes the entry |
| `Relay.AnswerScenario` | index.js:19-106 | a reply with one text part that parses to a complete pair is answered with exactly that pair |
| `Relay.KoreanScenario` | index.js:11-106 | code `ko` resolves to Korean, and "Today I felt lost." answered with a Korean quote by "Sage" gives exactly that pair with status 200 |

## Left out

- Express, CORS and JSON body middleware, `app.listen`, and the `PORT` and `GEMINI_API_KEY` environment reads (index.js:1-9, 109-112). These are framework and process plumbing.
- The outbound `fetch` and `response.json()` (index.js:28-70). These are network I/O. They are replaced by the `provider` parameter. `Reply.Unreachable` stands for a rejected fetch, a body that is not JSON, and a JSON `null` body. All three throw before extraction.
- The internals of `JSON.parse`. It is a foreign library, so it is a parameter: a parser returning `None` where `JSON.parse` throws.
- JavaScript values that are not strings. Non-string `content`, `language` and `text` are not modelled, and neither are non-string truthy `quote` and `author` fields, which would pass through `||` unchanged. Prototype keys such as `"toString"` in the language table are also left out: the table is its five entries.
- `console.error` logging (index.js:104), and with it the messages of the thrown errors. Those messages are never sent to the client.
- Strings are sequences of `char`, one per Unicode scalar value, so indices count code points rather than UTF-16 code units. Lone surrogates, which JavaScript strings and JSON `\ud800` escapes allow, cannot be represented. The substring the brace fallback returns is the same either way.
- No timeout and no cancellation: the source defines neither.
