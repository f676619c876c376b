/**
 * The request logic of app.py: loading `.env.local` into the process
 * environment, the checks and defaults of the `/processar` form, and the
 * stream of events `gerar_eventos` yields while a statement is processed.
 * The PDF rasteriser, the page extractor, the job id and the outcome of
 * saving the document are parameters.
 */
module WebApp {
  import opened Wrappers
  import opened Strings
  import opened Statement
  import opened Layout

  // ---------------------------------------------------------------------------
  // `carregar_env`

  /**
   * The assignment on a line with an '=': the stripped text before the first
   * '=' (which therefore holds none) and the stripped text after it.
   */
  function SplitAssignment(linha: string): (kv: (string, string))
    requires '=' in linha
    ensures '=' !in kv.0 && Trimmed(kv.0) && Trimmed(kv.1)
  {
    var k := Find(linha, '=');
    StripIsSlice(linha[..k]);
    NotInSlice(Strip(linha[..k]), linha[..k], '=');
    (Strip(linha[..k]), Strip(linha[k + 1..]))
  }

  /**
   * One line of `.env.local`: ignored when, stripped, it is empty, a comment
   * or has no '='; otherwise the assignment it holds.
   */
  function ParseEnvLine(line: string): (r: Option<(string, string)>)
    ensures r.Some? <==> Strip(line) != "" && !StartsWith(Strip(line), "#") && '=' in Strip(line)
  {
    var linha := Strip(line);
    if linha != "" && !StartsWith(linha, "#") && '=' in linha then Some(SplitAssignment(linha)) else None
  }

  /** Where `key=value` splits when the key holds no '='. */
  lemma SplitsAt(line: string, key: string, value: string)
    requires line == key + "=" + value && '=' !in key
    ensures '=' in line && Find(line, '=') == |key| && line[..|key|] == key && line[|key| + 1..] == value
  {
    assert line[..|key|] == key && line[|key|] == '=';
    FindIs(line, '=', |key|);
  }

  /** `key=value` with no '=' in the key assigns the stripped key the stripped value. */
  lemma SplitAssignmentOf(key: string, value: string)
    requires '=' !in key
    ensures SplitAssignment(key + "=" + value) == (Strip(key), Strip(value))
  {
    var line := key + "=" + value;
    SplitsAt(line, key, value);
  }

  /** The assignment of `key=value` is that key and value when neither has surrounding whitespace. */
  lemma SplitAssignmentAt(key: string, value: string)
    requires Trimmed(key) && Trimmed(value) && '=' !in key
    ensures SplitAssignment(key + "=" + value) == (key, value)
  {
    SplitAssignmentOf(key, value);
    StripUnchanged(key);
    StripUnchanged(value);
  }

  /**
   * A line that strips to `key=value`, with no '=' in the key and not a
   * comment, is read as the stripped key and the stripped value.
   */
  lemma EnvLineOf(line: string, key: string, value: string)
    requires Strip(line) == key + "=" + value && '=' !in key && !StartsWith(Strip(line), "#")
    ensures ParseEnvLine(line) == Some((Strip(key), Strip(value)))
  {
    SplitsAt(Strip(line), key, value);
    SplitAssignmentOf(key, value);
  }

  /** `key=value` starts where the key starts (or with the '=') and ends where the value ends (or with the '='). */
  lemma AssignmentEnds(line: string, key: string, value: string)
    requires line == key + "=" + value
    ensures line != [] && line[0] == (if key == [] then '=' else key[0])
    ensures line[|line| - 1] == if value == [] then '=' else value[|value| - 1]
  {
  }

  /** A `key=value` line, written with its newline, strips to itself and is no comment. */
  lemma AssignmentUnstripped(key: string, value: string)
    requires Trimmed(key) && Trimmed(value) && !StartsWith(key, "#")
    ensures Strip(key + "=" + value + "\n") == key + "=" + value
    ensures !StartsWith(key + "=" + value, "#")
  {
    var line := key + "=" + value;
    AssignmentEnds(line, key, value);
    StripUnchanged(line);
    StripTrailingSpace(line, '\n');
  }

  /** A `KEY=value` line, as written to the file with its newline, is read back as that key and value. */
  lemma EnvLineRoundTrip(key: string, value: string)
    requires Trimmed(key) && Trimmed(value)
    requires '=' !in key && !StartsWith(key, "#")
    ensures ParseEnvLine(key + "=" + value + "\n") == Some((key, value))
  {
    AssignmentUnstripped(key, value);
    SplitAssignmentAt(key, value);
    assert '=' in key + "=" + value by {
      assert (key + "=" + value)[|key|] == '=';
    }
  }

  /** `os.environ[key] = value` succeeds for a non-empty key and no NUL character. */
  predicate Settable(key: string, value: string) {
    key != "" && '\0' !in key && '\0' !in value
  }

  /** What one line of the file contributes: nothing, or a key and a value. */
  type Entry = Option<(string, string)>

  /** The lines of `.env.local`, each read by `ParseEnvLine`. */
  function Parsed(lines: seq<string>): (entries: seq<Entry>)
    ensures |entries| == |lines|
  {
    if lines == [] then [] else [ParseEnvLine(lines[0])] + Parsed(lines[1..])
  }

  lemma {:induction false} ParsedAt(lines: seq<string>, i: nat)
    requires i < |lines|
    ensures Parsed(lines)[i] == ParseEnvLine(lines[i])
  {
    if i > 0 {
      ParsedAt(lines[1..], i - 1);
    }
  }

  /** An assignment `os.environ` rejects. */
  predicate Refused(e: Entry) {
    e.Some? && !Settable(e.value.0, e.value.1)
  }

  /** The environment after one accepted entry. */
  function Apply(env: map<string, string>, e: Entry): map<string, string> {
    if e.Some? then env[e.value.0 := e.value.1] else env
  }

  /**
   * The environment after the entries, applied in order; the first assignment
   * `os.environ` rejects stops the loading with the assignments made so far.
   */
  function Loaded(env: map<string, string>, entries: seq<Entry>): map<string, string>
    decreases |entries|
  {
    if entries == [] || Refused(entries[0]) then env else Loaded(Apply(env, entries[0]), entries[1..])
  }

  /** The index of the assignment that stops the loading, if any. */
  function Rejected(entries: seq<Entry>): Option<nat>
    decreases |entries|
  {
    if entries == [] then None
    else if Refused(entries[0]) then Some(0)
    else OffsetBy(Rejected(entries[1..]), 1)
  }

  function OffsetBy(r: Option<nat>, i: nat): Option<nat> {
    match r
    case None => None
    case Some(j) => Some(j + i)
  }

  /** The loading stops at the first rejected assignment, and only if there is one. */
  lemma {:induction false} RejectedIsFirst(entries: seq<Entry>)
    ensures Rejected(entries).None? <==> forall i :: 0 <= i < |entries| ==> !Refused(entries[i])
    ensures Rejected(entries).Some? ==>
      var k := Rejected(entries).value;
      k < |entries| && Refused(entries[k]) && forall i :: 0 <= i < k ==> !Refused(entries[i])
    decreases |entries|
  {
    if entries != [] && !Refused(entries[0]) {
      var rest := entries[1..];
      RejectedIsFirst(rest);
      assert forall i :: 0 < i < |entries| ==> entries[i] == rest[i - 1];
    }
  }

  /** Only what the entries assign is touched: a key none of them assigns keeps its old value (or absence). */
  lemma {:induction false} LoadedKeepsOthers(env: map<string, string>, entries: seq<Entry>, key: string)
    requires forall i :: 0 <= i < |entries| ==> entries[i].None? || entries[i].value.0 != key
    ensures key in Loaded(env, entries) <==> key in env
    ensures key in env ==> Loaded(env, entries)[key] == env[key]
    decreases |entries|
  {
    if entries != [] && !Refused(entries[0]) {
      var rest := entries[1..];
      assert forall i :: 0 <= i < |rest| ==> rest[i] == entries[i + 1];
      LoadedKeepsOthers(Apply(env, entries[0]), rest, key);
    }
  }

  /**
   * Later lines overwrite earlier ones: when nothing is rejected, a key takes
   * the value of the last entry that assigns it.
   */
  lemma {:induction false} LastAssignmentWins(env: map<string, string>, entries: seq<Entry>, j: nat)
    requires j < |entries| && entries[j].Some?
    requires Rejected(entries).None?
    requires forall i :: j < i < |entries| ==> entries[i].None? || entries[i].value.0 != entries[j].value.0
    ensures entries[j].value.0 in Loaded(env, entries)
    ensures Loaded(env, entries)[entries[j].value.0] == entries[j].value.1
    decreases |entries|
  {
    var rest := entries[1..];
    assert forall i :: 0 <= i < |rest| ==> rest[i] == entries[i + 1];
    assert !Refused(entries[0]);
    if j == 0 {
      LoadedKeepsOthers(Apply(env, entries[0]), rest, entries[0].value.0);
    } else {
      LastAssignmentWins(Apply(env, entries[0]), rest, j - 1);
    }
  }

  /** The process environment, a dictionary `carregar_env` writes into. */
  class Environ {
    var vars: map<string, string>

    constructor(initial: map<string, string>)
      ensures vars == initial
    {
      vars := initial;
    }

    /**
     * The body of `carregar_env`'s loop for line `i`: the line's assignment,
     * if it has one, is made; `refused` when `os.environ` rejects it.
     */
    method AssignLine(lines: seq<string>, i: nat) returns (refused: bool)
      requires i < |lines|
      modifies this
      ensures refused == Refused(Parsed(lines)[i])
      ensures vars == if refused then old(vars) else Apply(old(vars), Parsed(lines)[i])
    {
      ParsedAt(lines, i);
      var linha := ParseEnvLine(lines[i]);
      refused := false;
      if linha.Some? {
        var (chave, valor) := linha.value;
        if !Settable(chave, valor) {
          refused := true;
          return;
        }
        vars := vars[chave := valor];
      }
    }

    /**
     * `carregar_env` over the lines of `.env.local` (none when the file does
     * not exist); on a rejected assignment it reports that line's index.
     */
    method LoadEnv(lines: seq<string>) returns (rejected: Option<nat>)
      modifies this
      ensures vars == Loaded(old(vars), Parsed(lines))
      ensures rejected == Rejected(Parsed(lines))
    {
      ghost var entries := Parsed(lines);
      var i := 0;
      rejected := None;
      while i < |lines|
        invariant 0 <= i <= |lines|
        invariant Loaded(old(vars), entries) == Loaded(vars, entries[i..])
        invariant Rejected(entries) == OffsetBy(Rejected(entries[i..]), i)
        decreases |lines| - i
      {
        assert entries[i..][1..] == entries[i + 1..];
        assert entries[i..][0] == entries[i];
        var refused := AssignLine(lines, i);
        if refused {
          rejected := Some(i);
          return;
        }
        assert Rejected(entries[i..]) == OffsetBy(Rejected(entries[i + 1..]), 1);
        i := i + 1;
      }
    }

    /** `os.environ.get(key, "")`. */
    function Get(key: string): (r: string)
      reads this
      ensures key in vars ==> r == vars[key]
      ensures key !in vars ==> r == ""
    {
      if key in vars then vars[key] else ""
    }
  }

  /** The variable holding the server's OpenAI key. */
  const API_KEY_VAR := "OPENAI_API_KEY"

  /**
   * Module start-up, app.py:26-28: `carregar_env` on the process environment,
   * then the server's key read from it. A refused assignment raises during
   * the import, so the application never starts and there is no key.
   */
  method Startup(initial: map<string, string>, lines: seq<string>) returns (env: Environ, serverKey: Option<string>)
    ensures fresh(env)
    ensures env.vars == Loaded(initial, Parsed(lines))
    ensures serverKey.None? <==> Rejected(Parsed(lines)).Some?
    ensures serverKey.Some? ==> serverKey.value == env.Get(API_KEY_VAR)
  {
    env := new Environ(initial);
    var rejected := env.LoadEnv(lines);
    if rejected.Some? {
      serverKey := None;
    } else {
      serverKey := Some(env.Get(API_KEY_VAR));
    }
  }

  // ---------------------------------------------------------------------------
  // `processar`: the form

  const MISSING_INPUT := "PDF e chave API são obrigatórios"

  /** `request.form.get(name, default).strip()`. */
  function FormField(form: map<string, string>, name: string, default: string): (r: string)
    ensures name in form ==> r == Strip(form[name])
    ensures name !in form ==> r == Strip(default)
  {
    Strip(if name in form then form[name] else default)
  }

  /** The form's key, stripped, when it is not blank; the server's key otherwise. */
  function ApiKey(form: map<string, string>, serverKey: string): (r: string)
    ensures FormField(form, "api_key", "") != "" ==> r == FormField(form, "api_key", "")
    ensures FormField(form, "api_key", "") == "" ==> r == serverKey
  {
    var k := FormField(form, "api_key", "");
    if k != "" then k else serverKey
  }

  /** An uploaded file counts only when it has a file name. */
  predicate PdfPresent(pdfName: Option<string>) {
    pdfName.Some? && pdfName.value != ""
  }

  // ---------------------------------------------------------------------------
  // `gerar_eventos`: the event stream

  /** One server-sent event: `progresso`, `erro` or `concluido`. */
  datatype Event =
    | Progresso(page: nat, total: nat, message: string)
    | Erro(message: string)
    | Concluido(message: string, file: string, count: nat)

  /** What rasterising the uploaded PDF gave: its page count, or the text of the exception. */
  datatype Rasterized = Pages(count: nat) | Unreadable(reason: string)

  /** The document `gerar_docx` was asked to write. */
  datatype Document = Document(fileName: string, records: seq<Record>, sections: seq<Section>)

  const STARTING := Progresso(0, 0, "Iniciando processamento...")
  const CONVERTING := Progresso(0, 0, "Convertendo PDF em imagens de alta resolução...")
  const NO_RECORDS := Erro("Nenhum lançamento encontrado no PDF.")

  function GeneralError(reason: string): Event {
    Erro("Erro geral: " + reason)
  }

  function SentMessage(total: nat): string {
    "PDF tem " + NatToString(total) + " páginas. Enviando para análise da IA..."
  }

  function VisionMessage(n: nat, total: nat): string {
    "Analisando página " + NatToString(n) + " de " + NatToString(total) + " com GPT-4o Vision..."
  }

  /** The event reporting page `n`'s outcome (app.py words a failure "ERRO página n"). */
  function OutcomeMessage(n: nat, o: PageOutcome): string {
    match o
    case Extracted(recs, notes) =>
      if recs != [] then "Página " + NatToString(n) + ": " + NatToString(|recs|) + " lançamentos extraídos."
      else "Página " + NatToString(n) + ": " + notes
    case Failed(reason) => "ERRO página " + NatToString(n) + ": " + reason
  }

  function GeneratingMessage(count: nat): string {
    "Gerando documento DOCX com " + NatToString(count) + " lançamentos..."
  }

  function DoneMessage(count: nat): string {
    "Concluído! " + NatToString(count) + " lançamentos processados."
  }

  function FileName(jobId: string): string {
    "movimentacao_" + jobId + ".docx"
  }

  /** The events of pages 1..k, two per page: the announcement and then the page's outcome. */
  ghost predicate PagesReported(events: seq<Event>, extract: (nat, string) -> PageOutcome, total: nat, k: nat)
    requires |events| >= 2 * k
  {
    forall n :: 1 <= n <= k ==>
      && events[2 * n - 2] == Progresso(n, total, VisionMessage(n, total))
      && events[2 * n - 1] == Progresso(n, total, OutcomeMessage(n, PageOutcomeAt(extract, n)))
  }

  /** Every event is a progress event. */
  ghost predicate AllProgress(events: seq<Event>) {
    forall i :: 0 <= i < |events| ==> events[i].Progresso?
  }

  /** Every event but the last is a progress event; the last is not. */
  ghost predicate EndsOnce(events: seq<Event>) {
    && |events| >= 1
    && (forall i :: 0 <= i < |events| - 1 ==> events[i].Progresso?)
    && !events[|events| - 1].Progresso?
  }

  /**
   * The page loop of `gerar_eventos`: each page is announced, handed to the
   * extractor with the last date carried from the pages before it, and its
   * outcome reported; the records of all pages are collected in order.
   */
  method ReadPages(extract: (nat, string) -> PageOutcome, total: nat)
    returns (events: seq<Event>, lancamentos: seq<Record>)
    ensures |events| == 2 * total && PagesReported(events, extract, total, total)
    ensures AllProgress(events)
    ensures lancamentos == Accumulated(extract, total)
  {
    events := [];
    var dataAnterior := "";
    lancamentos := [];
    for i := 0 to total
      invariant dataAnterior == CarriedDate(extract, i)
      invariant lancamentos == Accumulated(extract, i)
      invariant |events| == 2 * i
      invariant PagesReported(events, extract, total, i)
      invariant AllProgress(events)
    {
      var resultado;
      resultado, dataAnterior, lancamentos := NextPage(extract, i, dataAnterior, lancamentos);
      PagesReportedStep(events, extract, total, i);
      events := events + [Progresso(i + 1, total, VisionMessage(i + 1, total)),
                          Progresso(i + 1, total, OutcomeMessage(i + 1, resultado))];
    }
  }

  /** Reporting page `k + 1` extends the report of the pages before it and adds only progress events. */
  lemma PagesReportedStep(events: seq<Event>, extract: (nat, string) -> PageOutcome, total: nat, k: nat)
    requires |events| == 2 * k && PagesReported(events, extract, total, k) && AllProgress(events)
    ensures var next := events + [Progresso(k + 1, total, VisionMessage(k + 1, total)),
                                  Progresso(k + 1, total, OutcomeMessage(k + 1, PageOutcomeAt(extract, k + 1)))];
      PagesReported(next, extract, total, k + 1) && AllProgress(next)
  {
  }

  /**
   * The events after the pages, for `count` gathered records: the no-records
   * error; or the generating event, then the save error or the completion.
   */
  function ClosingEvents(count: nat, total: nat, jobId: string, saveError: Option<string>): (tail: seq<Event>)
    ensures EndsOnce(tail)
    ensures count == 0 <==> tail == [NO_RECORDS]
    ensures count > 0 ==> |tail| == 2 && tail[0] == Progresso(total, total, GeneratingMessage(count))
    ensures count > 0 && saveError.None? ==> tail[1] == Concluido(DoneMessage(count), FileName(jobId), count)
    ensures count > 0 && saveError.Some? ==> tail[1] == GeneralError(saveError.value)
  {
    if count == 0 then [NO_RECORDS]
    else
      [Progresso(total, total, GeneratingMessage(count)),
       if saveError.Some? then GeneralError(saveError.value)
       else Concluido(DoneMessage(count), FileName(jobId), count)]
  }

  /**
   * The end of the stream after the pages: its events, and a document exactly
   * when there were records and saving succeeded, holding the back-filled
   * records laid out by month.
   */
  ghost predicate Closing(tail: seq<Event>, document: Option<Document>, recs: seq<Record>, total: nat,
                          jobId: string, banco: string, agencia: string, conta: string, saveError: Option<string>)
  {
    && tail == ClosingEvents(|recs|, total, jobId, saveError)
    && (document.Some? <==> recs != [] && saveError.None?)
    && (document.Some? ==> Produced(document.value, recs, jobId, banco, agencia, conta))
  }

  /** The saved document: named after the job, holding the back-filled records laid out by month. */
  ghost predicate Produced(document: Document, recs: seq<Record>, jobId: string, banco: string, agencia: string, conta: string) {
    && document.fileName == FileName(jobId)
    && document.records == BackFill(recs)
    && LaidOut(document.sections, document.records, agencia, conta, banco)
  }

  /** The fill pass of app.py:126-131 and `gerar_docx` on the filled records. */
  method MakeDocument(recs: seq<Record>, jobId: string, banco: string, agencia: string, conta: string)
    returns (document: Document)
    ensures Produced(document, recs, jobId, banco, agencia, conta)
  {
    var lancamentos := FillDates(recs);
    var sections := BuildLayout(lancamentos, agencia, conta, banco);
    document := Document(FileName(jobId), lancamentos, sections);
  }

  /** What `gerar_eventos` does with the records of all pages (app.py:121-143). */
  method Close(recs: seq<Record>, total: nat, jobId: string, banco: string, agencia: string, conta: string,
               saveError: Option<string>)
    returns (tail: seq<Event>, document: Option<Document>)
    ensures Closing(tail, document, recs, total, jobId, banco, agencia, conta, saveError)
  {
    document := None;
    if recs == [] {
      tail := [NO_RECORDS];
      return;
    }
    var gerando := Progresso(total, total, GeneratingMessage(|recs|));
    var doc := MakeDocument(recs, jobId, banco, agencia, conta);
    if saveError.Some? {
      tail := [gerando, GeneralError(saveError.value)];
      return;
    }
    document := Some(doc);
    tail := [gerando, Concluido(DoneMessage(|recs|), FileName(jobId), |recs|)];
  }

  /** The opening events once the PDF has `total` pages. */
  function Opening(total: nat): seq<Event> {
    [STARTING, CONVERTING, Progresso(0, total, SentMessage(total))]
  }

  /**
   * The stream of `gerar_eventos` for a PDF that rasterises to `total` pages:
   * the opening events, two per page, then the closing events.
   */
  ghost predicate StreamOfPages(events: seq<Event>, document: Option<Document>,
                                extract: (nat, string) -> PageOutcome, total: nat, jobId: string,
                                banco: string, agencia: string, conta: string, saveError: Option<string>)
  {
    && |events| >= 2 * total + 3
    && events[..3] == Opening(total)
    && PagesReported(events[3..2 * total + 3], extract, total, total)
    && Closing(events[2 * total + 3..], document, Accumulated(extract, total), total,
               jobId, banco, agencia, conta, saveError)
  }

  /** Progress events followed by a stream that ends once still end once. */
  lemma EndsOnceAfter(head: seq<Event>, tail: seq<Event>)
    requires AllProgress(head) && EndsOnce(tail)
    ensures EndsOnce(head + tail)
  {
    var s := head + tail;
    assert s[|s| - 1] == tail[|tail| - 1];
    assert forall i :: |head| <= i < |s| ==> s[i] == tail[i - |head|];
  }

  /**
   * `gerar_eventos` for a PDF already saved under `jobId`. A rasteriser
   * failure ends the stream with a general error after the two opening events.
   */
  method GenerateEvents(rasterized: Rasterized, extract: (nat, string) -> PageOutcome, jobId: string,
                        banco: string, agencia: string, conta: string, saveError: Option<string>)
    returns (events: seq<Event>, document: Option<Document>)
    ensures EndsOnce(events)
    ensures rasterized.Unreadable? ==>
      events == [STARTING, CONVERTING, GeneralError(rasterized.reason)] && document.None?
    ensures rasterized.Pages? ==>
      StreamOfPages(events, document, extract, rasterized.count, jobId, banco, agencia, conta, saveError)
  {
    if rasterized.Unreadable? {
      events := [STARTING, CONVERTING, GeneralError(rasterized.reason)];
      document := None;
      assert events[..2] == [STARTING, CONVERTING];
      return;
    }
    var total := rasterized.count;
    var pages, lancamentos := ReadPages(extract, total);
    var tail;
    tail, document := Close(lancamentos, total, jobId, banco, agencia, conta, saveError);
    var head := Opening(total) + pages;
    events := head + tail;
    EndsOnceAfter(head, tail);
    assert events[..3] == Opening(total);
    assert events[3..2 * total + 3] == pages;
    assert events[2 * total + 3..] == tail;
  }

  /**
   * `processar`: without a named PDF or with no API key (neither in the form
   * nor on the server) the answer is the single error event; otherwise the
   * stream of `gerar_eventos` with the form's bank, branch and account.
   */
  method Process(form: map<string, string>, pdfName: Option<string>, serverKey: string, jobId: string,
                 rasterized: Rasterized, extract: (nat, string) -> PageOutcome, saveError: Option<string>)
    returns (events: seq<Event>, document: Option<Document>)
    ensures !PdfPresent(pdfName) || ApiKey(form, serverKey) == "" ==>
      events == [Erro(MISSING_INPUT)] && document.None?
    ensures PdfPresent(pdfName) && ApiKey(form, serverKey) != "" ==>
      && EndsOnce(events)
      && (rasterized.Unreadable? ==>
            events == [STARTING, CONVERTING, GeneralError(rasterized.reason)] && document.None?)
      && (rasterized.Pages? ==>
            StreamOfPages(events, document, extract, rasterized.count, jobId,
                          FormField(form, "banco", DEFAULT_BANCO), FormField(form, "agencia", DEFAULT_AGENCIA),
                          FormField(form, "conta", DEFAULT_CONTA), saveError))
  {
    var apiKey := ApiKey(form, serverKey);
    var banco := FormField(form, "banco", DEFAULT_BANCO);
    var agencia := FormField(form, "agencia", DEFAULT_AGENCIA);
    var conta := FormField(form, "conta", DEFAULT_CONTA);
    if !PdfPresent(pdfName) || apiKey == "" {
      events := [Erro(MISSING_INPUT)];
      document := None;
      return;
    }
    events, document := GenerateEvents(rasterized, extract, jobId, banco, agencia, conta, saveError);
  }
}
