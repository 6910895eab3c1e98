/**
  The instruction block sent to the model: a fixed template with the
  target-language name and the diary content spliced in, then trimmed.
 */
module Prompt {
  import opened Wrappers
  import opened Text

  /** The template text up to the target-language slot (after its leading newline). */
  const Instructions: string := "You" + Persona + Goal + OutputFormat + Rules + RespondIn

  const Persona: string := " are an AI model used through a thin backend relay server.\n\n"

  const Goal: string := "GOAL:\nGenerate ONE short philosophical quote reflecting the diary entry.\n\n"

  /** The output contract: an object with string fields `quote` and `author`. */
  const OutputFormat: string :=
    "OUTPUT FORMAT (JSON ONLY):\n{\n  \"quote\": \"string\",\n  \"author\": \"string\"\n}\n\n"

  /** The rule list, up to the rule that names the target language. */
  const Rules: string :=
    "RULES:\n- One sentence only\n- Calm, reflective, philosophical\n- No explanation\n"
    + "- No markdown\n- Use \"Sage\" if original\n- "

  /** The template text between the target-language slot and the content slot. */
  const EntryHeader: string := "\n\nDiary entry:\n\""

  /** The rule line that carries the target language. */
  const RespondIn: string := "Respond in "

  /** The indentation of the template literal's closing line. */
  const ClosingIndent: string := "                  "

  /** The two facts about the instructions the proofs need: how they start and how they end. */
  lemma InstructionsShape()
    ensures |Instructions| > |RespondIn| && Instructions[0] == 'Y'
    ensures Instructions[|Instructions| - |RespondIn|..] == RespondIn
  {
  }

  /** The template literal as written, before `trim` is applied. */
  function Template(targetLang: string, content: string): (t: string)
    ensures |t| == |Instructions| + |targetLang| + |EntryHeader| + |content| + 3 + |ClosingIndent|
    ensures t[0] == '\n' && t[|t| - |ClosingIndent| - 1] == '\n'
    ensures t[|t| - |ClosingIndent|..] == ClosingIndent
  {
    var t := "\n" + Instructions + targetLang + EntryHeader + content + "\"\n" + ClosingIndent;
    PaddedShape(Instructions + targetLang + EntryHeader + content + "\"", ClosingIndent);
    t
  }

  lemma PaddedShape(core: string, indent: string)
    ensures var t := "\n" + core + "\n" + indent;
      && |t| == |core| + 2 + |indent|
      && t[0] == '\n' && t[|t| - |indent| - 1] == '\n'
      && t[|t| - |indent|..] == indent
  {
  }

  /**
    The prompt for a resolved language name and a diary entry. Trimming
    removes only the template's own surrounding white space: the content
    sits inside double quotes, so its own white space is kept.
   */
  function Build(targetLang: string, content: string): (p: string)
    ensures p == Instructions + targetLang + EntryHeader + content + "\""
  {
    TemplateTrims(targetLang, content);
    Trim(Template(targetLang, content))
  }

  /** `p` holds `Respond in <targetLang>` where the instructions end. */
  predicate NamesLanguage(p: string, targetLang: string) {
    && |Instructions| + |targetLang| <= |p|
    && p[|Instructions| - |RespondIn|..|Instructions| + |targetLang|] == RespondIn + targetLang
  }

  /** `p` ends with the entry wrapped in double quotes. */
  predicate QuotesEntry(p: string, content: string) {
    |content| + 2 <= |p| && p[|p| - |content| - 2..] == "\"" + content + "\""
  }

  /**
    The prompt carries the rule `Respond in <targetLang>` right where the
    instructions end, and closes with the diary entry in double quotes.
   */
  lemma BuildMentions(targetLang: string, content: string)
    ensures NamesLanguage(Build(targetLang, content), targetLang)
    ensures QuotesEntry(Build(targetLang, content), content)
  {
    InstructionsShape();
    SplicedSlices(Instructions, RespondIn, targetLang, EntryHeader, content);
  }

  /** Trimming the template leaves the instructions, the name, the header, and the quoted entry. */
  lemma TemplateTrims(targetLang: string, content: string)
    ensures Trim(Template(targetLang, content)) == Instructions + targetLang + EntryHeader + content + "\""
  {
    InstructionsShape();
    TrimmedTemplate(Instructions, targetLang, EntryHeader, content, ClosingIndent);
  }

  /**
    Reads the language name and the diary entry back out of a prompt:
    the name runs to the first newline after the instructions, the entry
    sits between the entry header and the closing quote.
   */
  function RecoverEntry(p: string): (r: Option<(string, string)>)
    ensures r.Some? ==> Build(r.value.0, r.value.1) == p
  {
    var r := Split(p, Instructions, EntryHeader);
    if r.Some? then
      assert Build(r.value.0, r.value.1) == p;
      r
    else r
  }

  /**
    Splits `pre + lang + hdr + content + "\""` into `lang` (up to the first
    newline after `pre`) and `content`.
   */
  function Split(p: string, pre: string, hdr: string): (r: Option<(string, string)>)
    ensures r.Some? ==> p == pre + r.value.0 + hdr + r.value.1 + "\""
  {
    if |p| < |pre| + 1 || p[..|pre|] != pre || p[|p| - 1] != '"' then None
    else
      var rest := p[|pre|..|p| - 1];
      match IndexOf(rest, '\n')
      case None => None
      case Some(k) =>
        if |rest| - k < |hdr| || rest[k..k + |hdr|] != hdr then None
        else
          SplitPieces(p, pre, hdr, k);
          Some((rest[..k], rest[k + |hdr|..]))
  }

  /** The pieces `Split` cuts out glue back to its input. */
  lemma SplitPieces(p: string, pre: string, hdr: string, k: nat)
    requires |pre| + 1 <= |p| && p[..|pre|] == pre && p[|p| - 1] == '"'
    requires k + |hdr| <= |p| - 1 - |pre| && p[|pre|..|p| - 1][k..k + |hdr|] == hdr
    ensures var rest := p[|pre|..|p| - 1];
      p == pre + rest[..k] + hdr + rest[k + |hdr|..] + "\""
  {
    Reassemble(p, |pre|, k, |hdr|);
  }

  /** Cutting `p` at the given offsets and gluing the pieces back gives `p`. */
  lemma Reassemble(p: string, n: nat, k: nat, h: nat)
    requires n < |p| && k + h <= |p| - 1 - n
    ensures p == p[..n] + p[n..|p| - 1][..k] + p[n..|p| - 1][k..k + h] + p[n..|p| - 1][k + h..] + [p[|p| - 1]]
  {
    var rest := p[n..|p| - 1];
    ThreeWay(rest, k, k + h);
    ThreeWay(p, n, |p| - 1);
    assert p[|p| - 1..] == [p[|p| - 1]];
  }

  /** A sequence is the concatenation of its pieces cut at `i` and `j`. */
  lemma ThreeWay(s: string, i: nat, j: nat)
    requires i <= j <= |s|
    ensures s == s[..i] + s[i..j] + s[j..]
  {
    assert s[..j] == s[..i] + s[i..j];
  }

  lemma {:induction false} SplitJoin(pre: string, lang: string, hdr: string, content: string)
    requires '\n' !in lang
    requires hdr != [] && hdr[0] == '\n'
    ensures Split(pre + lang + hdr + content + "\"", pre, hdr) == Some((lang, content))
  {
    var p := pre + lang + hdr + content + "\"";
    var rest := lang + hdr + content;
    assert p == pre + rest + "\"";
    assert p[..|pre|] == pre;
    assert p[|pre|..|p| - 1] == rest;
    assert rest[|lang|] == '\n';
    assert rest[..|lang|] == lang;
    assert IndexOf(rest, '\n') == Some(|lang|);
    assert rest[|lang|..|lang| + |hdr|] == hdr;
    assert rest[|lang| + |hdr|..] == content;
  }

  lemma TrimmedTemplate(pre: string, lang: string, hdr: string, content: string, indent: string)
    requires pre != [] && !IsWhiteSpace(pre[0])
    requires AllWhiteSpace(indent)
    ensures Trim("\n" + pre + lang + hdr + content + "\"\n" + indent) == pre + lang + hdr + content + "\""
  {
    var core := pre + lang + hdr + content + "\"";
    assert core[0] == pre[0];
    assert "\n" + pre + lang + hdr + content + "\"\n" + indent == "\n" + core + ("\n" + indent);
    assert AllWhiteSpace("\n");
    assert AllWhiteSpace("\n" + indent);
    TrimStripsPadding("\n", core, "\n" + indent);
  }

  lemma SplicedSlices(pre: string, tag: string, lang: string, hdr: string, content: string)
    requires |tag| <= |pre| && pre[|pre| - |tag|..] == tag
    requires hdr != [] && hdr[|hdr| - 1] == '"'
    ensures var p := pre + lang + hdr + content + "\"";
      && p[|pre| - |tag|..|pre| + |lang|] == tag + lang
      && p[|p| - |content| - 2..] == "\"" + content + "\""
  {
    var p := pre + lang + hdr + content + "\"";
    assert p[|pre| - |tag|..|pre| + |lang|] == pre[|pre| - |tag|..] + lang;
    assert p[|p| - |content| - 2..] == hdr[|hdr| - 1..] + content + "\"";
  }

  /**
    For any language name on one line, the prompt determines the name and
    the entry it was built from.
   */
  lemma RecoverBuild(targetLang: string, content: string)
    requires '\n' !in targetLang
    ensures RecoverEntry(Build(targetLang, content)) == Some((targetLang, content))
  {
    SplitJoin(Instructions, targetLang, EntryHeader, content);
  }

  /** Distinct (language, entry) pairs give distinct prompts. */
  lemma BuildInjective(l1: string, c1: string, l2: string, c2: string)
    requires '\n' !in l1 && '\n' !in l2
    requires Build(l1, c1) == Build(l2, c2)
    ensures l1 == l2 && c1 == c2
  {
    RecoverBuild(l1, c1);
    RecoverBuild(l2, c2);
  }
}
