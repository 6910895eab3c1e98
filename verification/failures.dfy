/** The reasons the generation step can throw; all of them end in the same 500 response. */
module Failures {

  datatype Failure =
    /** `fetch` rejected, or the provider's body was not JSON (or was JSON `null`). */
    | TransportFailed
    /** "Empty Gemini response": no non-empty text at the expected envelope path. */
    | EmptyResponse
    /** "Invalid JSON from Gemini": strict parse failed and no brace span was found. */
    | InvalidJson
    /** The brace span was found but `JSON.parse` rejected it. */
    | JsonSyntax
    /** The text parsed to JSON `null`, so reading `parsed.quote` threw a TypeError. */
    | NullValue
}
