/**
  Recovering `{quote, author}` from the model's text: a strict parse of
  the whole text, then a parse of the greedy brace span `/\{[\s\S]*\}/`,
  then defaulting of the two fields.
 */
module Extractor {
  import opened Wrappers
  import opened Text
  import opened Failures

  /**
    What `JSON.parse` hands back, as far as the relay can tell: `null`, on
    which reading a field throws, or any other value, on which each of
    the two fields is a string or absent. Non-object values read as
    having neither field.
   */
  datatype Json = Null | Value(quote: Option<string>, author: Option<string>)

  /** The strict parser, `JSON.parse`: `None` where it throws a SyntaxError. */
  type Parser = string -> Option<Json>

  /** The 200 response body. */
  datatype Quote = Quote(quote: string, author: string)

  /** The author used when the model gives none. */
  const DefaultAuthor: string := "Sage"

  /** `{` at `i` and `}` at `j`, with `i` before `j`: a place the regex can match. */
  predicate IsBracePair(s: string, i: int, j: int) {
    0 <= i < j < |s| && s[i] == '{' && s[j] == '}'
  }

  /**
    The bounds of the match of `/\{[\s\S]*\}/`: the leftmost `{` that has
    a `}` after it, and the greedy (last) `}` after that.
   */
  function BraceBounds(s: string): (r: Option<(nat, nat)>)
    ensures r.None? <==> forall i, j :: !IsBracePair(s, i, j)
    ensures r.Some? ==> IsBracePair(s, r.value.0, r.value.1)
    ensures r.Some? ==> forall i, j :: IsBracePair(s, i, j) ==> r.value.0 <= i && j <= r.value.1
  {
    match IndexOf(s, '{')
    case None => None
    case Some(i) =>
      match LastIndexOf(s, '}')
      case None => None
      case Some(j) =>
        if i < j then
          assert IsBracePair(s, i, j);
          Some((i, j))
        else
          assert forall i', j' :: IsBracePair(s, i', j') ==> i <= i' && j' <= j;
          None
  }

  /** The substring the regex matches, `match[0]`, if it matches at all. */
  function BraceSpan(s: string): (r: Option<string>)
    ensures r.None? <==> forall i, j :: !IsBracePair(s, i, j)
    ensures r.Some? ==> |r.value| >= 2 && r.value[0] == '{' && r.value[|r.value| - 1] == '}'
  {
    match BraceBounds(s)
    case None => None
    case Some((i, j)) => Some(s[i..j + 1])
  }

  /** The fallback fails exactly when no `}` occurs after the first `{`. */
  lemma NoSpanIff(s: string)
    ensures BraceSpan(s).None? <==> IndexOf(s, '{').None? || '}' !in s[IndexOf(s, '{').value..]
  {
    match IndexOf(s, '{')
    case None =>
    case Some(i) =>
      if '}' in s[i..] {
        var k :| 0 <= k < |s[i..]| && s[i..][k] == '}';
        assert IsBracePair(s, i, i + k);
      } else {
        assert forall j' :: i <= j' < |s| ==> s[i..][j' - i] == s[j'];
      }
  }

  /**
    An object whose surroundings hold no `{` before it and no `}` after it
    is exactly what the fallback recovers.
   */
  lemma {:induction false} BraceSpanFrame(prefix: string, obj: string, suffix: string)
    requires '{' !in prefix && '}' !in suffix
    requires |obj| >= 2 && obj[0] == '{' && obj[|obj| - 1] == '}'
    ensures BraceSpan(prefix + obj + suffix) == Some(obj)
  {
    var s := prefix + obj + suffix;
    var a, b := |prefix|, |prefix| + |obj| - 1;
    assert s[..a] == prefix;
    assert s[b + 1..] == suffix;
    assert s[a..b + 1] == obj;
    assert IsBracePair(s, a, b);
    NoneBefore(s, a, '{');
    NoneAfter(s, b + 1, '}');
  }

  lemma NoneBefore(s: string, n: nat, c: char)
    requires n <= |s| && c !in s[..n]
    ensures forall k :: 0 <= k < n ==> s[k] != c
  {
    assert forall k :: 0 <= k < n ==> s[..n][k] == s[k];
  }

  lemma NoneAfter(s: string, n: nat, c: char)
    requires n <= |s| && c !in s[n..]
    ensures forall k :: n <= k < |s| ==> s[k] != c
  {
    assert forall k :: n <= k < |s| ==> s[n..][k - n] == s[k];
  }

  /**
    Conversely, the recovered span splits the text into a prefix with no
    `{`, the span, and a suffix with no `}`.
   */
  lemma BraceSpanSplits(s: string)
    requires BraceSpan(s).Some?
    ensures var (i, j) := BraceBounds(s).value;
      && s == s[..i] + BraceSpan(s).value + s[j + 1..]
      && '{' !in s[..i] && '}' !in s[j + 1..]
  {
    var (i, j) := BraceBounds(s).value;
    assert s == s[..i] + s[i..j + 1] + s[j + 1..];
    assert '{' !in s[..i] by {
      forall k | 0 <= k < i ensures s[..i][k] != '{' {
        assert IsBracePair(s, k, j) ==> i <= k;
      }
    }
    assert '}' !in s[j + 1..] by {
      var tail := s[j + 1..];
      forall k | 0 <= k < |tail| ensures tail[k] != '}' {
        assert IsBracePair(s, i, j + 1 + k) ==> j + 1 + k <= j;
      }
    }
  }

  /**
    The two-tier parse. The whole text is tried first; only when that
    throws is the brace span tried, and a missing span is the
    "Invalid JSON from Gemini" failure.
   */
  function ParseTiered(text: string, parse: Parser): (r: Result<Json, Failure>)
    ensures parse(text).Some? ==> r == Success(parse(text).value)
    ensures r.Success? <==> parse(text).Some? || (BraceSpan(text).Some? && parse(BraceSpan(text).value).Some?)
    ensures r == Failure(InvalidJson) <==> parse(text).None? && BraceSpan(text).None?
    ensures r.Failure? ==> r.error == InvalidJson || r.error == JsonSyntax
    ensures parse(text).None? && BraceSpan(text).Some? && parse(BraceSpan(text).value).Some?
        ==> r == Success(parse(BraceSpan(text).value).value)
  {
    match parse(text)
    case Some(v) => Success(v)
    case None =>
      match BraceSpan(text)
      case None => Failure(InvalidJson)
      case Some(m) =>
        match parse(m)
        case Some(v) => Success(v)
        case None => Failure(JsonSyntax)
  }

  /**
    When the whole text parses, the fallback is never consulted: any two
    parsers that agree on the whole text give the same outcome.
   */
  lemma StrictTierWins(text: string, p1: Parser, p2: Parser)
    requires p1(text).Some? && p1(text) == p2(text)
    ensures ParseTiered(text, p1) == ParseTiered(text, p2) == Success(p1(text).value)
  {
  }

  /**
    When the whole text does not parse, the outcome depends only on how the
    brace span parses.
   */
  lemma FallbackTierDecides(text: string, p1: Parser, p2: Parser)
    requires p1(text).None? && p2(text).None?
    requires BraceSpan(text).Some? ==> p1(BraceSpan(text).value) == p2(BraceSpan(text).value)
    ensures ParseTiered(text, p1) == ParseTiered(text, p2)
  {
  }

  /** JavaScript's `field || default` for a string field: the field when it is present and non-empty. */
  function OrDefault(field: Option<string>, default: string): (r: string)
    ensures field.Some? && field.value != [] ==> r == field.value
    ensures field.None? || field.value == [] ==> r == default
  {
    match field
    case Some(v) => if v != [] then v else default
    case None => default
  }

  /**
    The response body for a parsed value: the quote or `""`, the author or
    "Sage". Reading a field of `null` throws.
   */
  function Normalize(v: Json): (r: Result<Quote, Failure>)
    ensures r.Failure? <==> v.Null?
    ensures r.Failure? ==> r.error == NullValue
    ensures r.Success? ==> r.value.author != []
    ensures r.Success? ==> (r.value.quote == [] <==> v.quote.None? || v.quote.value == [])
    ensures r.Success? && v.quote.Some? && v.quote.value != [] ==> r.value.quote == v.quote.value
    ensures r.Success? && v.author.Some? && v.author.value != [] ==> r.value.author == v.author.value
    ensures r.Success? && (v.author.None? || v.author.value == []) ==> r.value.author == DefaultAuthor
  {
    match v
    case Null => Failure(NullValue)
    case Value(q, a) => Success(Quote(OrDefault(q, []), OrDefault(a, DefaultAuthor)))
  }

  /** The JSON object a well-formed model answer denotes. */
  function AsJson(q: Quote): Json {
    Value(Some(q.quote), Some(q.author))
  }

  /** Normalising a complete answer gives it back unchanged whenever it names an author. */
  lemma NormalizeRoundTrip(q: Quote)
    requires q.author != []
    ensures Normalize(AsJson(q)) == Success(q)
  {
  }

  /** Normalising is idempotent: its output, read back as JSON, normalises to itself. */
  lemma NormalizeIdempotent(v: Json)
    requires v.Value?
    ensures Normalize(AsJson(Normalize(v).value)) == Normalize(v)
  {
    NormalizeRoundTrip(Normalize(v).value);
  }

  /** The whole extractor: two-tier parse, then normalisation. */
  function Extract(text: string, parse: Parser): (r: Result<Quote, Failure>)
    ensures r.Success? ==> r.value.author != []
    ensures r.Success? <==> ParseTiered(text, parse).Success? && ParseTiered(text, parse).value.Value?
    ensures r.Success? ==> r == Normalize(ParseTiered(text, parse).value)
  {
    var v :- ParseTiered(text, parse);
    Normalize(v)
  }

  /** A text that is exactly `{"quote":"Q","author":"A"}` comes back as that pair (first tier). */
  lemma ExactObjectScenario(text: string, parse: Parser)
    requires parse(text) == Some(Value(Some("Q"), Some("A")))
    ensures Extract(text, parse) == Success(Quote("Q", "A"))
  {
  }

  /** The same object wrapped in prose is still recovered (second tier). */
  lemma WrappedObjectScenario(parse: Parser)
    requires var text := "Here you go:\n" + "{\"quote\":\"Q\",\"author\":\"A\"}" + "\nEnjoy.";
      parse(text).None?
    requires parse("{\"quote\":\"Q\",\"author\":\"A\"}") == Some(Value(Some("Q"), Some("A")))
    ensures Extract("Here you go:\n" + "{\"quote\":\"Q\",\"author\":\"A\"}" + "\nEnjoy.", parse)
         == Success(Quote("Q", "A"))
  {
    var obj := "{\"quote\":\"Q\",\"author\":\"A\"}";
    assert '{' !in "Here you go:\n";
    assert '}' !in "\nEnjoy.";
    BraceSpanFrame("Here you go:\n", obj, "\nEnjoy.");
  }

  /** Prose with no `{` that the strict parser rejects is the "Invalid JSON" failure. */
  lemma NoBraceScenario(text: string, parse: Parser)
    requires '{' !in text && parse(text).None?
    ensures Extract(text, parse) == Failure(InvalidJson)
  {
    NoSpanIff(text);
  }

  /** An object without an author gets "Sage". */
  lemma AuthorDefaultScenario(text: string, parse: Parser)
    requires parse(text) == Some(Value(Some("Q"), None))
    ensures Extract(text, parse) == Success(Quote("Q", DefaultAuthor))
  {
  }
}
