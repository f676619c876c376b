/**
 * The per-page part of extrator.py (`extrair_lancamentos_pagina`): the user
 * message sent with the page image, the cleanup of the model's reply into the
 * text handed to the JSON parser, the brace-span fallback, and the error
 * raised when neither yields JSON. `json.loads` is the parameter `parse`: a
 * value, or the text of the JSONDecodeError it raises.
 */
module Reply {
  import opened Wrappers
  import opened Strings
  import opened Statement

  /** The opening and closing marker of a fenced code block. */
  const FENCE := "```"

  /** How much of the cleaned reply the error message quotes. */
  const EXCERPT_LENGTH := 200

  const HINT_PREFIX := "\nA última data da página anterior foi: "

  function BaseMessage(page: nat): string {
    "Analise esta página " + NatToString(page) + " do extrato bancário e extraia todos os lançamentos."
  }

  /** The user message of extrator.py:73-75. */
  function UserMessage(page: nat, dataAnterior: string): string {
    if dataAnterior != "" then
      BaseMessage(page) + HINT_PREFIX + dataAnterior + ". Use-a para lançamentos sem data explícita."
    else BaseMessage(page)
  }

  /** The date hint is added exactly when a date is carried, and then it quotes that date. */
  lemma DateHintIffCarried(page: nat, dataAnterior: string)
    ensures UserMessage(page, dataAnterior) == BaseMessage(page) <==> dataAnterior == ""
    ensures dataAnterior != "" ==>
      var m, k := UserMessage(page, dataAnterior), |BaseMessage(page)| + |HINT_PREFIX|;
      && StartsWith(m, BaseMessage(page))
      && k + |dataAnterior| <= |m|
      && m[k..k + |dataAnterior|] == dataAnterior
  {
    if dataAnterior != "" {
      var m := UserMessage(page, dataAnterior);
      assert |m| > |BaseMessage(page)|;
      assert m[..|BaseMessage(page)|] == BaseMessage(page);
      var k := |BaseMessage(page)| + |HINT_PREFIX|;
      assert m[k..k + |dataAnterior|] == dataAnterior;
    }
  }

  /** extrator.py:104-107 on a reply that starts with the fence. */
  function Unfence(c: string): (r: string)
    requires StartsWith(c, FENCE)
    ensures IsSliceOf(r, c)
  {
    var from := if '\n' in c then Find(c, '\n') + 1 else |FENCE|;
    var rest := c[from..];
    var inner := DropClosingFence(rest);
    var r := Strip(inner);
    SliceIs(c, from, |c|);
    SliceIs(rest, 0, |inner|);
    SliceOfSlice(inner, rest, c);
    StripIsSlice(inner);
    SliceOfSlice(r, inner, c);
    r
  }

  /** The text before a closing fence, when it ends with one. */
  function DropClosingFence(m: string): (r: string)
    ensures |r| <= |m| && r == m[..|r|]
    ensures EndsWith(m, FENCE) ==> r + FENCE == m
    ensures !EndsWith(m, FENCE) ==> r == m
  {
    if EndsWith(m, FENCE) then m[..|m| - |FENCE|] else m
  }

  /**
   * extrator.py:100-107: the stripped reply, with a leading fenced-code-block
   * wrapper taken off. The result is always a piece of the reply.
   */
  function CleanReply(raw: string): (c: string)
    ensures IsSliceOf(c, raw)
    ensures !StartsWith(Strip(raw), FENCE) ==> c == Strip(raw)
    ensures StartsWith(Strip(raw), FENCE) ==> c == Unfence(Strip(raw))
  {
    var t := Strip(raw);
    StripIsSlice(raw);
    if StartsWith(t, FENCE) then
      var c := Unfence(t);
      SliceOfSlice(c, t, raw);
      c
    else t
  }

  /**
   * extrator.py:113-115: the text from the first '{' to the last '}',
   * inclusive, present exactly when some '}' follows some '{'.
   */
  function FallbackCandidate(c: string): (r: Option<string>)
    ensures r.Some? <==> HasBraceSpan(c)
    ensures r.Some? ==>
      && 0 <= Find(c, '{') < RFind(c, '}')
      && r.value == c[Find(c, '{')..RFind(c, '}') + 1]
  {
    var inicio := Find(c, '{');
    var fim := RFind(c, '}') + 1;
    BraceSpanExists(c);
    if inicio != -1 && fim > inicio then Some(c[inicio..fim]) else None
  }

  /** Some '}' follows some '{' in `c`. */
  ghost predicate HasBraceSpan(c: string) {
    exists i, j :: 0 <= i < j < |c| && c[i] == '{' && c[j] == '}'
  }

  /** Some '}' follows some '{' exactly when the last '}' follows the first '{'. */
  lemma BraceSpanExists(c: string)
    ensures HasBraceSpan(c) <==> Find(c, '{') != -1 && RFind(c, '}') > Find(c, '{')
  {
    if HasBraceSpan(c) {
      var i, j :| 0 <= i < j < |c| && c[i] == '{' && c[j] == '}';
      FindAtMost(c, '{', i);
      RFindAtLeast(c, '}', j);
    }
  }

  /** Why a page's reply could not be turned into a value. */
  datatype ReplyError =
    | NotJson(page: nat, excerpt: string)  // the ValueError of extrator.py:118
    | DecodeError(message: string)         // json.loads failing on the fallback candidate

  /** `str(e)` for the error. */
  function ErrorText(e: ReplyError): string {
    match e
    case NotJson(page, excerpt) => "Página " + NatToString(page) + ": Resposta não é JSON válido: " + excerpt
    case DecodeError(message) => message
  }

  function Min(a: int, b: int): int {
    if a < b then a else b
  }

  /**
   * extrator.py:100-120: parse the cleaned reply; only when that fails, parse
   * the brace span; with no brace span, fail with the page number and the
   * first 200 characters of the cleaned reply.
   */
  function ParseReply<V>(raw: string, page: nat, parse: string -> Result<V, string>): (r: Result<V, ReplyError>)
    ensures var c := CleanReply(raw);
      && (parse(c).Ok? ==> r == Ok(parse(c).value))
      && (r.Err? && r.error.NotJson? <==> parse(c).Err? && FallbackCandidate(c).None?)
      && (r.Err? && r.error.NotJson? ==>
            r.error.page == page && |r.error.excerpt| == Min(|c|, EXCERPT_LENGTH) && StartsWith(c, r.error.excerpt))
      && (parse(c).Err? && FallbackCandidate(c).Some? ==>
            r == match parse(FallbackCandidate(c).value)
                 case Ok(v) => Ok(v)
                 case Err(m) => Err(DecodeError(m)))
  {
    var conteudo := CleanReply(raw);
    match parse(conteudo)
    case Ok(dados) => Ok(dados)
    case Err(_) =>
      match FallbackCandidate(conteudo)
      case Some(candidato) =>
        (match parse(candidato)
         case Ok(dados) => Ok(dados)
         case Err(m) => Err(DecodeError(m)))
      case None => Err(NotJson(page, conteudo[..Min(|conteudo|, EXCERPT_LENGTH)]))
  }

  /**
   * A fenced reply, with any whitespace before and after it, is unwrapped as
   * the fenced text alone: the whitespace goes with the first strip.
   */
  lemma CleanFencedReply(before: string, fenced: string, after: string)
    requires AllSpace(before) && AllSpace(after)
    requires StartsWith(fenced, FENCE) && !IsSpace(fenced[|fenced| - 1])
    ensures CleanReply(before + fenced + after) == Unfence(fenced)
  {
    assert fenced[0] == '`';
    StripPadded(before, fenced, after);
  }

  /**
   * A fenced reply with a first line: everything up to the first newline (the
   * fence and any language tag) goes, then a closing fence if the rest ends with one.
   */
  lemma UnfenceAfterFirstLine(l: string, m: string)
    requires '\n' !in l
    ensures Unfence(FENCE + l + "\n" + m) == Strip(DropClosingFence(m))
  {
    var c := FENCE + l + "\n" + m;
    FirstLineEnds(l, m);
  }

  /** The first line of a fenced reply ends right after the fence and the tag. */
  lemma FirstLineEnds(l: string, m: string)
    requires '\n' !in l
    ensures var c, k := FENCE + l + "\n" + m, |FENCE| + |l|;
      StartsWith(c, FENCE) && '\n' in c && Find(c, '\n') == k && c[k + 1..] == m
  {
    var c := FENCE + l + "\n" + m;
    var k := |FENCE| + |l|;
    assert c[..|FENCE|] == FENCE;
    assert c[..k] == FENCE + l && c[k] == '\n';
    FindIs(c, '\n', k);
    assert c[k + 1..] == m;
  }

  /** A fenced reply on one line: the three backticks go, then a closing fence if there is one. */
  lemma UnfenceOneLine(m: string)
    requires '\n' !in m
    ensures Unfence(FENCE + m) == Strip(DropClosingFence(m))
  {
    var c := FENCE + m;
    assert c[..|FENCE|] == FENCE;
    assert '\n' !in c;
    assert c[|FENCE|..] == m;
  }

  /** Where `Unfence` cuts a fenced block with a language tag: around its body and final newline. */
  lemma TaggedFenceCuts(tag: string, payload: string)
    requires '\n' !in tag
    ensures var raw, k := FENCE + tag + "\n" + payload + "\n" + FENCE, |FENCE| + |tag|;
      && StartsWith(raw, FENCE)
      && '\n' in raw && Find(raw, '\n') == k
      && EndsWith(raw[k + 1..], FENCE)
      && raw[k + 1..|raw| - |FENCE|] == payload + ['\n']
  {
    var head := FENCE + tag;
    var tail := payload + "\n" + FENCE;
    var raw := head + "\n" + tail;
    assert raw == FENCE + tag + "\n" + payload + "\n" + FENCE;
    assert raw[..|FENCE|] == FENCE;
    var k := |head|;
    assert raw[..k] == head && raw[k] == '\n';
    assert '\n' !in head;
    FindIs(raw, '\n', k);
    assert raw[k + 1..] == tail;
    assert EndsWith(tail, FENCE);
    assert raw[k + 1..|raw| - |FENCE|] == payload + ['\n'];
  }

  /** The body of a fenced block with a language tag, stripped. */
  lemma TaggedFenceUnfences(tag: string, payload: string)
    requires '\n' !in tag
    ensures Unfence(FENCE + tag + "\n" + payload + "\n" + FENCE) == Strip(payload)
  {
    var raw := FENCE + tag + "\n" + payload + "\n" + FENCE;
    var m := payload + "\n" + FENCE;
    assert raw == FENCE + tag + "\n" + m;
    assert m[..|m| - |FENCE|] == payload + "\n";
    UnfenceAfterFirstLine(tag, m);
    StripTrailingSpace(payload, '\n');
  }

  /**
   * A fenced block with a language tag, with any whitespace around it, is
   * cleaned to the strip of its body.
   */
  lemma TaggedFenceStrips(before: string, tag: string, payload: string, after: string)
    requires AllSpace(before) && AllSpace(after) && '\n' !in tag
    ensures CleanReply(before + FENCE + tag + "\n" + payload + "\n" + FENCE + after) == Strip(payload)
  {
    var fenced := FENCE + tag + "\n" + payload + "\n" + FENCE;
    FenceEnds(tag + "\n" + payload + "\n");
    assert FENCE + (tag + "\n" + payload + "\n") + FENCE == fenced;
    assert before + fenced + after == before + FENCE + tag + "\n" + payload + "\n" + FENCE + after;
    CleanFencedReply(before, fenced, after);
    TaggedFenceUnfences(tag, payload);
  }

  /**
   * A reply wrapped in a fenced block with a language tag ("```json\n...\n```"),
   * with any whitespace around it, is cleaned to the same text as the bare
   * payload, so it parses identically.
   */
  lemma FencedReplyParsesAsPlain<V>(before: string, tag: string, payload: string, after: string,
                                    page: nat, parse: string -> Result<V, string>)
    requires AllSpace(before) && AllSpace(after) && '\n' !in tag
    requires !StartsWith(Strip(payload), FENCE)
    ensures var raw := before + FENCE + tag + "\n" + payload + "\n" + FENCE + after;
      && CleanReply(raw) == CleanReply(payload)
      && ParseReply(raw, page, parse) == ParseReply(payload, page, parse)
  {
    TaggedFenceStrips(before, tag, payload, after);
  }

  /** The inside of a one-line fenced reply, stripped. */
  lemma InlineFenceUnfences(payload: string)
    requires '\n' !in payload
    ensures Unfence(FENCE + payload + FENCE) == Strip(payload)
  {
    var m := payload + FENCE;
    assert FENCE + payload + FENCE == FENCE + m;
    assert m[..|m| - |FENCE|] == payload;
    UnfenceOneLine(m);
  }

  /** A one-line fenced reply, with any whitespace around it, is cleaned to the strip of its inside. */
  lemma InlineFenceStrips(before: string, payload: string, after: string)
    requires AllSpace(before) && AllSpace(after) && '\n' !in payload
    ensures CleanReply(before + FENCE + payload + FENCE + after) == Strip(payload)
  {
    var fenced := FENCE + payload + FENCE;
    FenceEnds(payload);
    assert before + fenced + after == before + FENCE + payload + FENCE + after;
    CleanFencedReply(before, fenced, after);
    InlineFenceUnfences(payload);
  }

  lemma FenceEnds(payload: string)
    ensures StartsWith(FENCE + payload + FENCE, FENCE)
    ensures !IsSpace((FENCE + payload + FENCE)[|FENCE + payload + FENCE| - 1])
  {
    var raw := FENCE + payload + FENCE;
    assert raw[..|FENCE|] == FENCE && raw[|raw| - 1] == '`';
  }

  /**
   * A one-line reply fenced on both sides ("```{...}```"), with any whitespace
   * around it, is cleaned like its inside alone.
   */
  lemma InlineFencedReply(before: string, payload: string, after: string)
    requires AllSpace(before) && AllSpace(after) && '\n' !in payload
    requires !StartsWith(Strip(payload), FENCE)
    ensures CleanReply(before + FENCE + payload + FENCE + after) == CleanReply(payload)
  {
    InlineFenceStrips(before, payload, after);
  }

  /** Around one braced object, with no '{' before it and no '}' after it, the brace span is that object. */
  lemma BracesAroundObject(a: string, obj: string, b: string)
    requires |obj| >= 2 && obj[0] == '{' && obj[|obj| - 1] == '}'
    requires '{' !in a && '}' !in b
    ensures FallbackCandidate(a + obj + b) == Some(obj)
  {
    var c := a + obj + b;
    assert c[..|a|] == a && c[|a|] == '{';
    FindIs(c, '{', |a|);
    var last := |a| + |obj| - 1;
    assert c[last + 1..] == b && c[last] == '}';
    RFindIs(c, '}', last);
    assert c[|a|..last + 1] == obj;
  }

  /** Prose around one braced object, with no fence: the brace span of the cleaned reply is the object. */
  lemma ProseCandidate(pre: string, obj: string, post: string)
    requires |obj| >= 2 && obj[0] == '{' && obj[|obj| - 1] == '}'
    requires '{' !in pre && '}' !in post
    requires !StartsWith(Strip(pre + obj + post), FENCE)
    ensures FallbackCandidate(CleanReply(pre + obj + post)) == Some(obj)
  {
    var a, b := TrimStart(pre), TrimEnd(post);
    StripAround(pre, obj, post);
    TrimStartIsSuffix(pre);
    TrimEndIsPrefix(post);
    SliceIs(pre, |pre| - |a|, |pre|);
    NotInSlice(a, pre, '{');
    SliceIs(post, 0, |b|);
    NotInSlice(b, post, '}');
    BracesAroundObject(a, obj, b);
  }

  /**
   * Prose before and after one JSON object ("Here you go:\n{...}\nThanks"):
   * when the whole text does not parse, the object itself is what gets parsed.
   */
  lemma ProseAroundObject<V>(pre: string, obj: string, post: string, page: nat, parse: string -> Result<V, string>)
    requires |obj| >= 2 && obj[0] == '{' && obj[|obj| - 1] == '}'
    requires '{' !in pre && '}' !in post
    requires !StartsWith(Strip(pre + obj + post), FENCE)
    requires parse(CleanReply(pre + obj + post)).Err?
    ensures ParseReply(pre + obj + post, page, parse)
            == match parse(obj) case Ok(v) => Ok(v) case Err(m) => Err(DecodeError(m))
  {
    ProseCandidate(pre, obj, post);
  }

  /** The parsed reply: a JSON object with its two optional keys, or some other JSON value. */
  datatype PageJson =
    | JsonObject(lancamentos: Option<seq<Record>>, observacoes: Option<string>)
    | JsonOther(typeName: string)

  /**
   * One page from reply text to outcome: the parse of extrator.py:100-120,
   * then the `get` calls of extrator.py:157 and 175. Every exception becomes
   * a failed page.
   */
  function ExtractPage(raw: string, page: nat, parse: string -> Result<PageJson, string>): (o: PageOutcome)
    ensures o.Extracted? <==> ParseReply(raw, page, parse).Ok? && ParseReply(raw, page, parse).value.JsonObject?
    ensures o.Extracted? ==>
      var v := ParseReply(raw, page, parse).value;
      o.records == v.lancamentos.GetOr([]) && o.notes == v.observacoes.GetOr("Sem lançamentos")
    ensures ParseReply(raw, page, parse).Err? ==> o == Failed(ErrorText(ParseReply(raw, page, parse).error))
    ensures ParseReply(raw, page, parse).Ok? && ParseReply(raw, page, parse).value.JsonOther? ==>
      o == Failed("'" + ParseReply(raw, page, parse).value.typeName + "' object has no attribute 'get'")
  {
    var r: Result<PageJson, ReplyError> := ParseReply(raw, page, parse);
    match r
    case Err(e) => Failed(ErrorText(e))
    case Ok(dados) =>
      match dados
      case JsonObject(lancamentos, observacoes) =>
        Extracted(lancamentos.GetOr([]), observacoes.GetOr("Sem lançamentos"))
      case JsonOther(typeName) => Failed("'" + typeName + "' object has no attribute 'get'")
  }

  /**
   * The page extractor the loop of extrator.py:149-181 calls: the model's
   * reply to page `n` with the user message built from the carried date.
   */
  function PageExtractor(model: (nat, string) -> string, parse: string -> Result<PageJson, string>)
    : (nat, string) -> PageOutcome
  {
    (n: nat, dataAnterior: string) => ExtractPage(model(n, UserMessage(n, dataAnterior)), n, parse)
  }

  /** A reply with no '{' that does not parse fails with the not-JSON error, which names the page and quotes the reply. */
  lemma BracelessReplyFails(raw: string, page: nat, parse: string -> Result<PageJson, string>)
    requires '{' !in raw && parse(CleanReply(raw)).Err?
    ensures var c := CleanReply(raw);
      ExtractPage(raw, page, parse) == Failed(ErrorText(NotJson(page, c[..Min(|c|, EXCERPT_LENGTH)])))
    ensures StartsWith(ExtractPage(raw, page, parse).reason, "Página " + NatToString(page) + ": Resposta não é JSON válido: ")
  {
    var c := CleanReply(raw);
    NotInSlice(c, raw, '{');
    assert FallbackCandidate(c).None?;
    NotJsonNamesPage(page, c[..Min(|c|, EXCERPT_LENGTH)]);
  }

  /**
   * A page whose reply has no '{' at all and does not parse contributes no
   * records, leaves the carried date alone, and fails with the not-JSON error
   * that names the page; the loop goes on to the next page.
   */
  lemma UnparseablePageIsSkipped(model: (nat, string) -> string, parse: string -> Result<PageJson, string>, k: nat)
    requires k >= 1
    requires var raw := model(k, UserMessage(k, CarriedDate(PageExtractor(model, parse), k - 1)));
      '{' !in raw && parse(CleanReply(raw)).Err?
    ensures var extract := PageExtractor(model, parse);
      && PageOutcomeAt(extract, k).Failed?
      && StartsWith(PageOutcomeAt(extract, k).reason, "Página " + NatToString(k) + ": Resposta não é JSON válido: ")
      && Accumulated(extract, k) == Accumulated(extract, k - 1)
      && CarriedDate(extract, k) == CarriedDate(extract, k - 1)
  {
    var extract := PageExtractor(model, parse);
    var raw := model(k, UserMessage(k, CarriedDate(extract, k - 1)));
    assert PageOutcomeAt(extract, k) == ExtractPage(raw, k, parse);
    BracelessReplyFails(raw, k, parse);
    SkippedPageChangesNothing(extract, k);
  }

  /** The not-JSON error text starts by naming the page. */
  lemma NotJsonNamesPage(page: nat, excerpt: string)
    ensures StartsWith(ErrorText(NotJson(page, excerpt)), "Página " + NatToString(page) + ": Resposta não é JSON válido: ")
  {
    PrefixOfConcat("Página " + NatToString(page) + ": Resposta não é JSON válido: ", excerpt);
  }
}
