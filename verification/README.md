# Bank statement extraction and DOCX layout (trabalho-mae)

This is a Dafny model of the core of a small Flask application. The
application reads a PDF bank statement page by page with a vision model. It
collects the statement's entries (`lançamentos`: date, debit/credit type,
description, amount) and lays them out as a Word document with one table per
month.

The model covers three source files:

- **extrator.py**:
  - the user message sent for each page;
  - cleaning of the model's reply (surrounding whitespace, a Markdown code fence);
  - parsing the reply as JSON, with the fallback to the outermost `{…}` span;
  - the page loop of `extrair_extrato_completo`: the date carried to the next
    page, the records gathered, and the progress callback calls;
  - the final pass that gives each undated entry the last date seen.
- **gerador_docx.py**:
  - the year taken from the first entry;
  - grouping by the month field of `dd/mm/yyyy`, and the ascending month order;
  - month names;
  - the title, subtitle, table header and rows;
  - the credit test with its bold cells;
  - a page break before every month except the first.
- **app.py**:
  - `carregar_env`, where the process environment is a class with a mutable map;
  - the form defaults and the API-key fallback of `/processar`;
  - the exact sequence of server-sent events that `gerar_eventos` yields,
    including the no-records error, the general error and the completion event.

Modules:

| file | module | models |
|---|---|---|
| wrappers.dfy | `Wrappers` | `Option` and `Result` |
| strings.dfy | `Strings` | the Python `str` operations the core uses |
| statement.dfy | `Statement` | records, the per-page loop and the date fill of extrator.py |
| reply.dfy | `Reply` | the user message, reply cleaning and JSON fallback of extrator.py |
| layout.dfy | `Layout` | gerador_docx.py without python-docx |
| webapp.dfy | `WebApp` | app.py: environment, form, event stream |

External effects are parameters of the model:

- The vision model: `model(page, userMessage)` returns the raw reply text.
- `json.loads`: `parse(text)` returns a decoded value or an error.
- Rasterisation: `Rasterized` is either `Pages(count)` or `Unreadable(reason)`.
- The job id.
- The outcome of saving the document: `saveError`.
- The lines of `.env.local`.

The page loops (`Statement.ExtractPages`, `Statement.ExtractStatement`,
`WebApp.ReadPages`, `WebApp.GenerateEvents`, `WebApp.Process`) take an
arbitrary page extractor `extract(page, carriedDate)` that returns a page
outcome. An arbitrary extractor also covers failures of the provider call
itself (network errors, refusals), which a `model` returning text cannot
express. `Reply.PageExtractor(model, parse)` is the extractor built from the
reply cleaning and parsing of extrator.py. `Reply.UnparseablePageIsSkipped`
states a property of the page loop for that extractor.

The docstring of `extrair_extrato_completo` (extrator.py:133) says the
entries come back sorted by date. The code does not sort; it returns them in
page order, and so does the model.

## Model

| member | source | states |
|---|---|---|
| Strings.TrimStart | extrator.py:100 | `lstrip()`: only leading whitespace is removed, and the result does not start with whitespace |
| Strings.TrimEnd | extrator.py:100 | `rstrip()`: only trailing whitespace is removed, and the result does not end with whitespace |
| Strings.Strip | extrator.py:100 | `str.strip()`: the result has no whitespace character (Python's `isspace`) at either end |
| Strings.StripPadded | extrator.py:100 | whitespace on either side of a text with non-space ends is exactly what `strip` removes |
| Strings.StripRemovesOnlySpace | extrator.py:100 | what `strip` keeps is a contiguous piece with only whitespace before and after it in the input |
| Strings.StripIsSlice | extrator.py:100 | what `strip` returns is a contiguous piece of its input |
| Strings.StripUnchanged | extrator.py:107 | a string without surrounding whitespace is its own strip |
| Strings.StripIdempotent | extrator.py:100-107 | stripping the already stripped reply again changes nothing |
| Strings.Find | extrator.py:113 | `find` gives -1 exactly when the character is absent, otherwise an index holding it with no earlier occurrence |
| Strings.RFind | extrator.py:114 | `rfind` gives -1 exactly when the character is absent, otherwise an index holding it with no later occurrence |
| Strings.Split | gerador_docx.py:62 | `split(sep)` yields at least one piece and no piece contains the separator |
| Strings.JoinSplit | gerador_docx.py:62 | joining the pieces of `split(sep)` with the separator gives the original string back |
| Strings.SplitJoin | gerador_docx.py:62 | splitting separator-free pieces joined by the separator gives those pieces back |
| Strings.Upper | gerador_docx.py:180 | `upper()` keeps the length and maps each character to its upper case |
| Strings.NatToString | extrator.py:171 | `str(n)` is a non-empty run of decimal digits whose value is n, with no leading zero unless n is 0 |
| Statement.LastDate | extrator.py:161-164 | definition of the date carried past a run of entries; its properties are the lemmas below |
| Statement.LastDateIsLastDated | extrator.py:161-164 | the reversed scan yields the date of the last entry that has one |
| Statement.LastDateFound | extrator.py:161-164 | when any entry is dated, the scan yields a non-empty date |
| Statement.LastDateOfUndated | extrator.py:161-164 | when no entry is dated, the carried date stays as it was |
| Statement.LastDateAppend | extrator.py:159-166 | the last date of two pages in a row is the last date of the second, starting from the last date of the first |
| Statement.FindLastDate | extrator.py:159-164 | the reversed loop with `break` returns exactly the last non-empty date, or the previous date when there is none |
| Statement.CarriedDate | extrator.py:147-166 | definition of the date carried into page k+1; `CarriedDateIsLastDate` states what it is |
| Statement.Accumulated | extrator.py:146-166 | definition of the entries gathered after k pages; `AccumulatedGrows` and `PageInAccumulated` state their shape |
| Statement.CarriedDateIsLastDate | extrator.py:147-166 | the date sent with page k+1 is the last date among all entries gathered from pages 1..k |
| Statement.SkippedPageChangesNothing | extrator.py:173-181 | a page that fails or has no entries leaves the gathered entries and the carried date unchanged |
| Statement.AccumulatedGrows | extrator.py:166 | the gathered list only grows: the entries after k pages are a prefix of those after any later page |
| Statement.BackFill | extrator.py:184-189 | the fill pass keeps the number of entries |
| Statement.BackFillAt | extrator.py:184-189 | entry i after the fill is entry i with the last date among entries 0..i |
| Statement.BackFillSpec | extrator.py:184-189 | the fill keeps every other field and every dated entry, and gives each undated entry the last date before it (or "" when there is none) |
| Statement.FirstDatePropagates | extrator.py:184-189 | once any entry is dated, no later entry is left without a date |
| Statement.LastDateOfBackFill | extrator.py:184-189 | the fill does not change the statement's last date |
| Statement.BackFillIdempotent | extrator.py:184-189 | filling an already filled list changes nothing |
| Statement.PageInAccumulated | extrator.py:166 | the entries of page k sit in the final list right after those of pages 1..k-1, in order |
| Statement.UndatedHeadKeepsDate | extrator.py:161-164 | undated entries appended after others do not change the last date |
| Statement.FilledFromBefore | extrator.py:184-189 | an entry preceded on its page only by undated entries is filled with the last date of the earlier entries |
| Statement.CarryForwardAcrossPages | extrator.py:159-189 | such an entry on page k is filled with the same date that was sent to the model with page k |
| Statement.FillDates | extrator.py:184-189 | the in-place loop over the entries produces exactly the fill pass |
| Statement.PageMessage | extrator.py:168-180 | definition of the per-page callback text: the count extracted, the notes, or "ERRO na página n: " and the error |
| Statement.NextPage | extrator.py:150-181 | one iteration of the page loop moves the carried date and the gathered entries from page k to page k+1 |
| Statement.ExtractPages | extrator.py:149-181 | the page loop gathers the entries of every extracted page in page order, and calls the callback twice per page: "Analisando página" and then the page's outcome |
| Statement.ExtractStatement | extrator.py:123-194 | `extrair_extrato_completo` returns the gathered entries after the fill, with the two opening callbacks, two per page, and the final count |
| Reply.UserMessage | extrator.py:73-75 | definition of the user message; `DateHintIffCarried` states its properties |
| Reply.DateHintIffCarried | extrator.py:73-75 | the date hint is added exactly when a previous date is carried, and quotes that date |
| Reply.Unfence | extrator.py:103-107 | unwrapping a fenced reply yields a contiguous piece of it; `UnfenceAfterFirstLine` and `UnfenceOneLine` state the cut |
| Reply.DropClosingFence | extrator.py:105-106 | the text before a trailing fence: the whole text when there is none, otherwise that text followed by the fence is the input |
| Reply.CleanReply | extrator.py:100-107 | the reply is stripped first: the cleaned reply is a piece of the raw reply, it is the strip when that does not open with a fence, and otherwise the unfenced strip |
| Reply.FirstLineEnds | extrator.py:104 | in a fenced reply whose first line is the fence and a tag, the first newline is right after the tag and what follows it is the rest |
| Reply.UnfenceAfterFirstLine | extrator.py:103-107 | for any fenced reply with a newline, the result is the rest after the first line, without a closing fence if it ends with one, stripped; this covers replies cut short with no closing fence |
| Reply.UnfenceOneLine | extrator.py:103-107 | for a fenced reply without a newline, the result is the text after the three backticks, without a closing fence if there is one, stripped |
| Reply.TaggedFenceCuts | extrator.py:103-106 | in a fence with a language tag, the first line ends at the tag and the closing fence is found |
| Reply.TaggedFenceUnfences | extrator.py:103-107 | unwrapping a fence with a tag line yields the stripped payload |
| Reply.TaggedFenceStrips | extrator.py:100-107 | cleaning a tagged fenced reply, with any whitespace around it (such as a final newline), yields the stripped payload |
| Reply.CleanFencedReply | extrator.py:100-107 | a fenced reply with any whitespace before and after it cleans to the unfenced text of the fence alone |
| Reply.FencedReplyParsesAsPlain | extrator.py:100-120 | wrapping a payload in a tagged code fence, with any whitespace around it, changes neither its cleaning nor the parse result |
| Reply.InlineFenceUnfences | extrator.py:103-107 | a one-line fenced reply unwraps to its stripped payload |
| Reply.InlineFenceStrips | extrator.py:100-107 | cleaning a one-line fenced reply, with any whitespace around it, yields the stripped payload |
| Reply.InlineFencedReply | extrator.py:100-107 | a one-line fence, with any whitespace around it, cleans exactly as its payload does |
| Reply.ErrorText | extrator.py:111-118 | definition of `str(e)` for a reply error; `NotJsonNamesPage` states its prefix |
| Reply.BraceSpanExists | extrator.py:113-115 | the fallback's guard holds exactly when some '{' comes before some '}' |
| Reply.FallbackCandidate | extrator.py:113-116 | there is a fallback candidate exactly when some '{' precedes some '}', and it runs from the first '{' to the last '}' |
| Reply.ParseReply | extrator.py:109-120 | the cleaned reply is decoded; if that fails, the first-'{'-to-last-'}' span is decoded and its failure is reported as a decode error; without a span, the error names the page and quotes at most 200 characters |
| Reply.BracesAroundObject | extrator.py:113-116 | with no '{' before and no '}' after an object, the fallback finds exactly that object |
| Reply.ProseCandidate | extrator.py:100-116 | prose around a JSON object survives cleaning and the fallback picks out the object |
| Reply.ProseAroundObject | extrator.py:109-116 | when the reply has prose around the object, the parse result is the object's parse |
| Reply.ExtractPage | extrator.py:155-157 | a page yields entries exactly when its reply decodes to a JSON object, with missing `lancamentos` as no entries and missing `observacoes` as "Sem lançamentos"; otherwise the page fails with `str(e)` of the parse error, or with the `AttributeError` text "'<type>' object has no attribute 'get'" for JSON that is not an object |
| Reply.PageExtractor | extrator.py:156 | definition of the page extractor: the model's reply to the user message built from the carried date, turned into an outcome by `ExtractPage` |
| Reply.NotJsonNamesPage | extrator.py:118 | the not-JSON error begins "Página n: Resposta não é JSON válido: " |
| Reply.BracelessReplyFails | extrator.py:113-118 | a reply with no '{' that does not decode fails with the page number and the first 200 characters of the cleaned reply |
| Reply.UnparseablePageIsSkipped | extrator.py:155-181 | such a page contributes nothing and the carried date goes on unchanged |
| Layout.StatementInfo | gerador_docx.py:56-65 | the year and month come from the first entry's date; no entries, or a first date without three parts, gives year "2022" and no month |
| Layout.SplitDate | gerador_docx.py:62-63 | a `d/m/y` date with slash-free parts splits into exactly those three parts |
| Layout.StatementInfoOfDate | gerador_docx.py:56-65 | a first entry dated `d/m/y` gives year y and month m |
| Layout.MonthKey | gerador_docx.py:106-111 | a month key holds no '/', and is "00" unless the date has three parts |
| Layout.MonthKeyOfDate | gerador_docx.py:106-111 | an entry dated `d/m/y` is grouped under m |
| Layout.UndatedRecordKey | gerador_docx.py:106-111 | an undated entry is grouped under "00" |
| Layout.MonthName | gerador_docx.py:122 | definition of `MESES.get(mes, f"MÊS {mes}")`; `MonthNameShape` and `MonthNameInjective` state its properties |
| Layout.MonthNameShape | gerador_docx.py:68-72 | a heading taken from the month table never has "Ê" as its second letter and the "MÊS key" fallback always does, so the two kinds cannot collide |
| Layout.MonthNameInjective | gerador_docx.py:122 | different month keys get different headings |
| Layout.Less | gerador_docx.py:117 | definition of Python's `<` on strings, code point by code point; the three lemmas below make it a strict total order |
| Layout.LessIrreflexive | gerador_docx.py:117 | the string order used by `sorted` is irreflexive |
| Layout.LessTransitive | gerador_docx.py:117 | the string order used by `sorted` is transitive |
| Layout.LessTotal | gerador_docx.py:117 | the string order used by `sorted` is total |
| Layout.Insert | gerador_docx.py:117 | inserting a key into an ascending list keeps it ascending and adds exactly that key |
| Layout.SortKeys | gerador_docx.py:117 | the month keys come out strictly ascending, with the same keys |
| Layout.IsCredit | gerador_docx.py:180-185 | definition of the credit test on the upper-cased type; `CreditIgnoresCase`, `CreditSpellings` and `DebitSpellings` state its properties |
| Layout.UpperIdempotent | gerador_docx.py:180 | upper-casing twice is upper-casing once |
| Layout.CreditIgnoresCase | gerador_docx.py:180-185 | the credit test gives the same answer for a type and its upper case |
| Layout.CreditSpellings | gerador_docx.py:185 | "C", "c", "Crédito" and "credito" are credits |
| Layout.DebitSpellings | gerador_docx.py:185-187 | an empty type, "D" and "DEBITO" are debits |
| Layout.DataRow | gerador_docx.py:175-195 | a row has date, CRED/DEB, description and amount, centred, centred, left and right; it reads CRED and all its cells are bold exactly for a credit |
| Layout.Table | gerador_docx.py:157-195 | a month's table has the header row and then one row per entry, in order |
| Layout.Group | gerador_docx.py:104-114 | definition of a month's list of entries, in input order; `GroupMembership`, `GroupNonEmpty` and `GroupsPartition` state its properties |
| Layout.GroupAppend | gerador_docx.py:112-114 | appending an entry adds it at the end of its month's group only |
| Layout.GroupMembership | gerador_docx.py:104-114 | an entry is in a month's group exactly when it is an entry with that month key |
| Layout.GroupNonEmpty | gerador_docx.py:104-114 | a month has a group exactly when some entry has that key |
| Layout.RegroupedAppend | gerador_docx.py:104-114 | regrouping after one more entry adds exactly that entry |
| Layout.GroupsPartition | gerador_docx.py:104-117 | the groups, taken in key order, hold every entry exactly once (a permutation) |
| Layout.Title | gerador_docx.py:131 | definition of the title text "MOVIMENTAÇÃO BANCÁRIA ANO " and the year |
| Layout.Subtitle | gerador_docx.py:140 | definition of the subtitle text: bank, "  AG.", branch, "    C/C ", account |
| Layout.BuildTable | gerador_docx.py:167-195 | the row loop builds exactly the month's table |
| Layout.GroupByMonth | gerador_docx.py:104-114 | the dictionary has a key exactly for each month present, and under it that month's entries in their original order |
| Layout.RenderMonths | gerador_docx.py:119-195 | each section has a page break except the first, the year title, the bank subtitle, the month heading and the table of that month's group |
| Layout.SortedKeysCover | gerador_docx.py:104-117 | every sorted month key holds a non-empty group, every entry's key is among them, and there are none exactly when there are no entries |
| Layout.BuildLayout | gerador_docx.py:100-195 | one section per month present, in ascending key order; no sections for no entries; each rendered from its group with the first entry's year |
| WebApp.SplitAssignment | app.py:22-23 | the key holds no '=' and neither part has surrounding whitespace; `SplitAssignmentOf` states what they are |
| WebApp.SplitAssignmentOf | app.py:22-23 | `key=value` with no '=' in the key assigns the stripped key the stripped value |
| WebApp.ParseEnvLine | app.py:20-23 | a line is used exactly when, stripped, it is non-empty, not a `#` comment and holds '=' |
| WebApp.SplitAssignmentAt | app.py:22-23 | `key=value` splits into that key and value when they are stripped and the key has no '=' |
| WebApp.AssignmentUnstripped | app.py:20-21 | a written `key=value` line with its newline strips to itself and is no comment |
| WebApp.EnvLineOf | app.py:20-23 | any line that strips to `key=value`, with no '=' in the key and no leading `#`, is read as the stripped key and value, e.g. "  KEY = value \n" |
| WebApp.EnvLineRoundTrip | app.py:19-23 | a `KEY=value` line written to `.env.local` is read back as that key and value |
| WebApp.Parsed | app.py:19-23 | each line gives one entry |
| WebApp.ParsedAt | app.py:19-23 | the i-th entry is what the i-th line parses to |
| WebApp.RejectedIsFirst | app.py:19-23 | the loading stops exactly when some assignment is refused by `os.environ`, and at the first one |
| WebApp.LoadedKeepsOthers | app.py:19-23 | a variable no line assigns keeps its value, or stays absent |
| WebApp.LastAssignmentWins | app.py:19-23 | without a refusal, a variable ends with the value of the last line that assigns it |
| WebApp.Environ.AssignLine | app.py:20-23 | one line either changes nothing, assigns its key, or is refused without changing anything |
| WebApp.Environ.LoadEnv | app.py:14-23 | the environment ends as the lines' assignments applied in order up to the first refused one, which is reported |
| WebApp.Environ.Get | app.py:28 | `os.environ.get(key, "")` |
| WebApp.Startup | app.py:14-28 | start-up loads the file into the environment, and the server's key is its `OPENAI_API_KEY` (or ""); a refused assignment stops start-up, with no key |
| WebApp.FormField | app.py:48-50 | a form field is the stripped submitted value, or the stripped default |
| WebApp.ApiKey | app.py:47 | the key is the stripped form key when not blank, otherwise the server's key |
| WebApp.ClosingEvents | app.py:121-143 | after the pages, the stream ends with exactly one non-progress event: the no-records error exactly when there are no entries; otherwise the generating event, then the completion with the count and file name, or the general error of a failed save |
| WebApp.MakeDocument | app.py:125-138 | the document is named after the job and holds the filled entries laid out by month |
| WebApp.Close | app.py:121-143 | no entries give the single no-records error; otherwise the generating event, then the completion with the count and file name, or a general error if saving fails; a document exists exactly in the completed case |
| WebApp.OutcomeMessage | app.py:113-119 | definition of the per-page event text: the count extracted, the notes, or "ERRO página n: " and the error |
| WebApp.ReadPages | app.py:95-119 | two progress events per page ("Analisando página" and the outcome, with "ERRO página" on failure), and the entries of every extracted page in page order |
| WebApp.EndsOnceAfter | app.py:77-143 | progress events followed by a stream ending once still end once |
| WebApp.GenerateEvents | app.py:63-143 | the stream is the three opening events, two per page, and the closing events; it always ends with exactly one error or completion event, and an unreadable PDF ends it with a general error after the conversion notice |
| WebApp.Process | app.py:45-61 | a missing PDF or a blank key (in the form and on the server) answers with the single error event; otherwise it is the stream with the form's bank, branch and account, defaulted as in the form, and no document for an unreadable PDF |

## Left out

- Rasterising the PDF (`pdf_para_imagens`, PyMuPDF): in the web stream it becomes the `Rasterized` parameter of `WebApp.Process`. A readable PDF is its page count; an unreadable one is the error text it raises. `Statement.ExtractStatement` takes the page count `total` instead and has no failure case: when rasterising fails at extrator.py:140, after the first progress call, the exception leaves `extrair_extrato_completo`, and that path is not modelled there.
- The OpenAI call: the system prompt, base64 encoding, model settings and `response.usage`. The reply text is the `model(page, userMessage)` parameter.
- The internals of `json.loads`: it is the `parse` parameter. The model also does not capture JSON `null` values, or `lancamentos` items that are not objects, since `Record` always has four string fields. Nor does it capture a `lancamentos` value that is a number or a boolean: a true one (a non-zero number, or `true`) fails with a TypeError when extrator.py:161 iterates over it, and a false one counts as no entries. `PageJson` holds `lancamentos` as an `Option<seq<Record>>`, which cannot express either.
- Reply.ParseReply: on a failing fallback decode the model reports the decoder's message, not Python's `JSONDecodeError` object, whose text is not modelled.
- Creating the OpenAI client (app.py:86), which could raise a general error before the conversion notice: it is not modelled.
- python-docx formatting (fonts, sizes, colours, column widths, borders, margins) and `doc.save`: the document is modelled as its sections and cell texts, bold flags and alignments. A failed save is the `saveError` parameter.
- Flask routing, the SSE `data:` framing and JSON encoding of the events, the upload save, the removal of the temporary PDF, and the `/download` route: events are values of `Event`.
- `uuid.uuid4()` for the job id: it is a parameter.
- Reading `.env.local` from disk: its lines are a parameter, and a missing file is no lines. Python's line iteration keeps the newline; `strip` removes it, as the model shows.
- Strings.Upper: Python's full Unicode case mapping is reduced to the ASCII and Latin-1 letters (including "ÿ" to "Ÿ" and "µ" to "Μ") and the dotless i. "ß", whose upper case is two letters, and letters outside Latin-1 (Greek, Cyrillic and others) are left unchanged.
- Settable: `os.environ` refuses a key that is empty or contains NUL, or a value containing NUL. Platform-specific refusals, such as '=' in a key on some systems, are not modelled.
- The optional progress callback of `extrair_extrato_completo`: the model records every call, as when a callback is given.
- The sort order of `sorted` is modelled on sequences of Unicode scalar values, which matches Python's code-point order.
