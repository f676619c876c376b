/**
 * The statement assembler of extrator.py (`extrair_extrato_completo`): the page
 * loop that threads the last known date (`data_anterior`) from page to page and
 * concatenates the pages' records, and the final pass that fills empty dates.
 */
module Statement {
  import opened Strings

  /** One transaction as the language model returns it; a missing field reads as "". */
  datatype Record = Record(data: string, tipo: string, descricao: string, valor: string)

  /** What one page's extraction produced: its records and note, or the text of the exception it raised. */
  datatype PageOutcome = Extracted(records: seq<Record>, notes: string) | Failed(reason: string)

  /** One call of the progress callback: (page, total pages, message). */
  datatype Progress = Progress(page: nat, total: nat, message: string)

  /** `i` is the position of the last record of `recs` that has a date. */
  ghost predicate IsLastDated(recs: seq<Record>, i: int) {
    0 <= i < |recs| && recs[i].data != "" && forall j :: i < j < |recs| ==> recs[j].data == ""
  }

  /** The scan of extrator.py:161-164 as a function: the last non-empty date, or `prev`. */
  function LastDate(recs: seq<Record>, prev: string): string
  {
    if recs == [] then prev
    else if recs[|recs| - 1].data != "" then recs[|recs| - 1].data
    else LastDate(recs[..|recs| - 1], prev)
  }

  /** `LastDate` is the date of the last record that has one. */
  lemma {:induction false} LastDateIsLastDated(recs: seq<Record>, prev: string, i: int)
    requires IsLastDated(recs, i)
    ensures LastDate(recs, prev) == recs[i].data
  {
    var n := |recs| - 1;
    if i < n {
      var init := recs[..n];
      assert IsLastDated(init, i) by {
        assert forall j :: i < j < n ==> init[j] == recs[j];
      }
      LastDateIsLastDated(init, prev, i);
    }
  }

  /** Once some record has a date, `LastDate` is never empty, whatever `prev` is. */
  lemma {:induction false} LastDateFound(recs: seq<Record>, prev: string, i: int)
    requires 0 <= i < |recs| && recs[i].data != ""
    ensures LastDate(recs, prev) != ""
  {
    var n := |recs| - 1;
    if recs[n].data == "" {
      var init := recs[..n];
      assert init[i] == recs[i];
      LastDateFound(init, prev, i);
    }
  }

  /** Records without dates leave the carried date as it was. */
  lemma {:induction false} LastDateOfUndated(recs: seq<Record>, prev: string)
    requires forall i :: 0 <= i < |recs| ==> recs[i].data == ""
    ensures LastDate(recs, prev) == prev
  {
    if recs != [] {
      LastDateOfUndated(recs[..|recs| - 1], prev);
    }
  }

  /** Scanning a concatenation for its last date is scanning the tail, starting from the head's answer. */
  lemma {:induction false} LastDateAppend(a: seq<Record>, b: seq<Record>, prev: string)
    ensures LastDate(a + b, prev) == LastDate(b, LastDate(a, prev))
  {
    if b == [] {
      assert a + b == a;
    } else {
      var n := |b| - 1;
      assert (a + b)[|a + b| - 1] == b[n];
      assert (a + b)[..|a + b| - 1] == a + b[..n];
      if b[n].data == "" {
        LastDateAppend(a, b[..n], prev);
      }
    }
  }

  /**
   * The reversed scan of extrator.py:161-164: walk the page's records from the
   * last one back and stop at the first that has a date.
   */
  method FindLastDate(lancamentos: seq<Record>, dataAnterior: string) returns (d: string)
    ensures d == LastDate(lancamentos, dataAnterior)
  {
    d := dataAnterior;
    var i := |lancamentos|;
    assert lancamentos[..i] == lancamentos;
    while i > 0
      invariant 0 <= i <= |lancamentos|
      invariant LastDate(lancamentos, dataAnterior) == LastDate(lancamentos[..i], dataAnterior)
    {
      i := i - 1;
      assert lancamentos[..i + 1][..i] == lancamentos[..i];
      if lancamentos[i].data != "" {
        d := lancamentos[i].data;
        return;
      }
    }
  }

  /** The records a page adds to the statement: all of a successful page's, none of a failed one's. */
  function Contribution(o: PageOutcome): seq<Record> {
    if o.Extracted? then o.records else []
  }

  /**
   * `data_anterior` after the first `k` pages. Page `n` is extracted as
   * `extract(n, data_anterior)`: the extractor sees the carried date.
   */
  function CarriedDate(extract: (nat, string) -> PageOutcome, k: nat): string
  {
    if k == 0 then ""
    else
      var prev := CarriedDate(extract, k - 1);
      match extract(k, prev)
      case Extracted(recs, _) => if recs != [] then LastDate(recs, prev) else prev
      case Failed(_) => prev
  }

  /** The outcome of page `n` (1-based) when the loop reaches it. */
  function PageOutcomeAt(extract: (nat, string) -> PageOutcome, n: nat): PageOutcome
    requires n >= 1
  {
    extract(n, CarriedDate(extract, n - 1))
  }

  /** `todos_lancamentos` after the first `k` pages: the successful pages' records, in page order. */
  function Accumulated(extract: (nat, string) -> PageOutcome, k: nat): seq<Record>
  {
    if k == 0 then [] else Accumulated(extract, k - 1) + Contribution(PageOutcomeAt(extract, k))
  }

  /** The date carried into page `k + 1` is the last date among all records gathered so far ("" if none). */
  lemma {:induction false} CarriedDateIsLastDate(extract: (nat, string) -> PageOutcome, k: nat)
    ensures CarriedDate(extract, k) == LastDate(Accumulated(extract, k), "")
  {
    if k > 0 {
      CarriedDateIsLastDate(extract, k - 1);
      LastDateAppend(Accumulated(extract, k - 1), Contribution(PageOutcomeAt(extract, k)), "");
    }
  }

  /** A page that fails or yields no records changes neither the accumulator nor the carried date. */
  lemma SkippedPageChangesNothing(extract: (nat, string) -> PageOutcome, k: nat)
    requires k >= 1
    requires PageOutcomeAt(extract, k).Failed? || PageOutcomeAt(extract, k).records == []
    ensures Accumulated(extract, k) == Accumulated(extract, k - 1)
    ensures CarriedDate(extract, k) == CarriedDate(extract, k - 1)
  {
  }

  /** What has been gathered after `j` pages stays, unchanged, at the front of what is gathered later. */
  lemma {:induction false} AccumulatedGrows(extract: (nat, string) -> PageOutcome, j: nat, k: nat)
    requires j <= k
    ensures |Accumulated(extract, j)| <= |Accumulated(extract, k)|
    ensures Accumulated(extract, k)[..|Accumulated(extract, j)|] == Accumulated(extract, j)
  {
    if j < k {
      AccumulatedGrows(extract, j, k - 1);
      var a := Accumulated(extract, k - 1);
      assert (a + Contribution(PageOutcomeAt(extract, k)))[..|a|] == a;
    }
  }

  /** The fill pass: an empty date takes the most recent non-empty date before it ("" if none). */
  function BackFill(recs: seq<Record>): (r: seq<Record>)
    ensures |r| == |recs|
  {
    if recs == [] then []
    else
      var init := recs[..|recs| - 1];
      var last := recs[|recs| - 1];
      BackFill(init) + [if last.data != "" then last else last.(data := LastDate(init, ""))]
  }

  /** Each filled record is the original with its date replaced by the last date up to and including it. */
  lemma {:induction false} BackFillAt(recs: seq<Record>, i: nat)
    requires i < |recs|
    ensures BackFill(recs)[i] == recs[i].(data := LastDate(recs[..i + 1], ""))
  {
    var n := |recs| - 1;
    var init := recs[..n];
    if i == n {
      assert recs[..i + 1] == recs;
    } else {
      BackFillAt(init, i);
      assert init[..i + 1] == recs[..i + 1];
    }
  }

  /**
   * The fill pass keeps the length, every other field and every non-empty
   * date; an empty date becomes the nearest non-empty date before it, or ""
   * when there is none.
   */
  lemma BackFillSpec(recs: seq<Record>)
    ensures |BackFill(recs)| == |recs|
    ensures forall i :: 0 <= i < |recs| ==>
      BackFill(recs)[i].tipo == recs[i].tipo
      && BackFill(recs)[i].descricao == recs[i].descricao
      && BackFill(recs)[i].valor == recs[i].valor
    ensures forall i :: 0 <= i < |recs| && recs[i].data != "" ==> BackFill(recs)[i] == recs[i]
    ensures forall i :: 0 <= i < |recs| && recs[i].data == "" ==> BackFill(recs)[i].data == LastDate(recs[..i], "")
  {
    forall i | 0 <= i < |recs|
      ensures BackFill(recs)[i] == recs[i].(data := LastDate(recs[..i], "")) || recs[i].data != ""
      ensures recs[i].data != "" ==> BackFill(recs)[i] == recs[i]
    {
      BackFillAt(recs, i);
      assert recs[..i + 1][..i] == recs[..i];
    }
  }

  /** Once a date has been seen, no record from there on is left without one. */
  lemma FirstDatePropagates(recs: seq<Record>, j: nat, i: nat)
    requires j <= i < |recs|
    requires recs[j].data != ""
    ensures BackFill(recs)[i].data != ""
  {
    BackFillAt(recs, i);
    assert recs[..i + 1][j] == recs[j];
    LastDateFound(recs[..i + 1], "", j);
  }

  /** Filling does not change which date is last. */
  lemma {:induction false} LastDateOfBackFill(recs: seq<Record>)
    ensures LastDate(BackFill(recs), "") == LastDate(recs, "")
  {
    if recs != [] {
      var n := |recs| - 1;
      var init := recs[..n];
      LastDateOfBackFill(init);
      assert BackFill(recs)[..n] == BackFill(init);
    }
  }

  /** Filling twice is filling once. */
  lemma {:induction false} BackFillIdempotent(recs: seq<Record>)
    ensures BackFill(BackFill(recs)) == BackFill(recs)
  {
    if recs != [] {
      var n := |recs| - 1;
      var init := recs[..n];
      var f := BackFill(recs);
      assert f[..n] == BackFill(init);
      BackFillIdempotent(init);
      LastDateOfBackFill(init);
    }
  }

  /**
   * Carry-forward across a page boundary: records at the top of page `k` that
   * have no date end up, after the fill pass over the whole statement, with the
   * date carried in from the earlier pages, the same one page `k`'s extractor
   * was given as a hint.
   */
  lemma CarryForwardAcrossPages(extract: (nat, string) -> PageOutcome, k: nat, total: nat, t: nat)
    requires 1 <= k <= total
    requires PageOutcomeAt(extract, k).Extracted?
    requires t < |PageOutcomeAt(extract, k).records|
    requires forall s :: 0 <= s <= t ==> PageOutcomeAt(extract, k).records[s].data == ""
    ensures |Accumulated(extract, k - 1)| + t < |Accumulated(extract, total)|
    ensures BackFill(Accumulated(extract, total))[|Accumulated(extract, k - 1)| + t].data
            == CarriedDate(extract, k - 1)
  {
    var before := Accumulated(extract, k - 1);
    var page := PageOutcomeAt(extract, k).records;
    var all := Accumulated(extract, total);
    var idx := |before| + t;
    PageInAccumulated(extract, k, total, t);
    FilledFromBefore(all, before, page, t);
    CarriedDateIsLastDate(extract, k - 1);
  }

  /** The first `t + 1` records of page `k` follow, in the final list, what the earlier pages gathered. */
  lemma PageInAccumulated(extract: (nat, string) -> PageOutcome, k: nat, total: nat, t: nat)
    requires 1 <= k <= total
    requires PageOutcomeAt(extract, k).Extracted?
    requires t < |PageOutcomeAt(extract, k).records|
    ensures |Accumulated(extract, k - 1)| + t < |Accumulated(extract, total)|
    ensures Accumulated(extract, total)[..|Accumulated(extract, k - 1)| + t + 1]
            == Accumulated(extract, k - 1) + PageOutcomeAt(extract, k).records[..t + 1]
  {
    var before := Accumulated(extract, k - 1);
    var page := PageOutcomeAt(extract, k).records;
    AccumulatedGrows(extract, k, total);
    assert Accumulated(extract, k) == before + page;
    assert (before + page)[..|before| + t + 1] == before + page[..t + 1];
  }

  /** A run of undated records right after `before` is filled with the last date of `before`. */
  lemma FilledFromBefore(all: seq<Record>, before: seq<Record>, page: seq<Record>, t: nat)
    requires t < |page| && |before| + t < |all| && all[..|before| + t + 1] == before + page[..t + 1]
    requires forall s :: 0 <= s <= t ==> page[s].data == ""
    ensures BackFill(all)[|before| + t].data == LastDate(before, "")
  {
    var idx := |before| + t;
    var head := page[..t + 1];
    BackFillAt(all, idx);
    assert forall s :: 0 <= s < |head| ==> head[s] == page[s];
    UndatedHeadKeepsDate(before, head);
    assert LastDate(all[..idx + 1], "") == LastDate(before, "");
    assert all[idx].data == "" by {
      assert all[idx] == (before + head)[idx] == head[t];
    }
  }

  /** Undated records after `before` leave the last date where `before` put it. */
  lemma UndatedHeadKeepsDate(before: seq<Record>, head: seq<Record>)
    requires forall s :: 0 <= s < |head| ==> head[s].data == ""
    ensures LastDate(before + head, "") == LastDate(before, "")
  {
    LastDateAppend(before, head, "");
    LastDateOfUndated(head, LastDate(before, ""));
  }

  /**
   * The fill loop of extrator.py:184-189 (repeated at app.py:126-131): a
   * running `ultima_data`, written into every record whose date is empty.
   */
  method FillDates(lancamentos: seq<Record>) returns (filled: seq<Record>)
    ensures filled == BackFill(lancamentos)
  {
    filled := lancamentos;
    var ultimaData := "";
    for i := 0 to |filled|
      invariant |filled| == |lancamentos|
      invariant filled[..i] == BackFill(lancamentos[..i])
      invariant filled[i..] == lancamentos[i..]
      invariant ultimaData == LastDate(lancamentos[..i], "")
    {
      assert lancamentos[..i + 1][..i] == lancamentos[..i];
      assert filled[i] == lancamentos[i];
      if filled[i].data != "" {
        ultimaData := filled[i].data;
      } else {
        filled := filled[i := filled[i].(data := ultimaData)];
      }
      assert filled[..i + 1] == filled[..i] + [filled[i]];
    }
    assert lancamentos[..|lancamentos|] == lancamentos;
  }

  function AnalyzingMessage(n: nat, total: nat): string {
    "Analisando página " + NatToString(n) + " de " + NatToString(total) + "..."
  }

  /** The progress message that reports page `n`'s outcome. */
  function PageMessage(n: nat, o: PageOutcome): string {
    match o
    case Extracted(recs, notes) =>
      if recs != [] then "Página " + NatToString(n) + ": " + NatToString(|recs|) + " lançamentos extraídos."
      else "Página " + NatToString(n) + ": " + notes
    case Failed(reason) => "ERRO na página " + NatToString(n) + ": " + reason
  }

  /** The callback calls for pages 1..k: each page's "analysing" message, then its outcome. */
  predicate PagesProgress(progress: seq<Progress>, extract: (nat, string) -> PageOutcome, total: nat, k: nat)
    requires |progress| >= 2 * k
  {
    forall n :: 1 <= n <= k ==>
      && progress[2 * n - 2] == Progress(n, total, AnalyzingMessage(n, total))
      && progress[2 * n - 1] == Progress(n, total, PageMessage(n, PageOutcomeAt(extract, n)))
  }

  /** Reporting page `k + 1` extends the report of the pages before it. */
  lemma PagesProgressStep(progress: seq<Progress>, extract: (nat, string) -> PageOutcome, total: nat, k: nat)
    requires |progress| == 2 * k && PagesProgress(progress, extract, total, k)
    ensures PagesProgress(progress + [Progress(k + 1, total, AnalyzingMessage(k + 1, total)),
                                      Progress(k + 1, total, PageMessage(k + 1, PageOutcomeAt(extract, k + 1)))],
                          extract, total, k + 1)
  {
  }

  /**
   * One turn of the page loop (extrator.py:149-181, app.py:97-119): page
   * `k + 1` is extracted with the carried date; a page with records moves the
   * carried date to its last date and adds its records, any other outcome
   * leaves both as they were.
   */
  method NextPage(extract: (nat, string) -> PageOutcome, k: nat, dataAnterior: string, todos: seq<Record>)
    returns (resultado: PageOutcome, data: string, acumulado: seq<Record>)
    requires dataAnterior == CarriedDate(extract, k) && todos == Accumulated(extract, k)
    ensures resultado == PageOutcomeAt(extract, k + 1)
    ensures data == CarriedDate(extract, k + 1) && acumulado == Accumulated(extract, k + 1)
  {
    resultado := extract(k + 1, dataAnterior);
    data, acumulado := dataAnterior, todos;
    match resultado {
      case Extracted(lancs, _) =>
        if lancs != [] {
          data := FindLastDate(lancs, dataAnterior);
          acumulado := todos + lancs;
        }
      case Failed(_) =>
    }
  }

  /**
   * The page loop of extrator.py:149-181: pages 1..total in order, each
   * extracted with the carried date and reported twice; a failing page is
   * reported and skipped.
   */
  method ExtractPages(extract: (nat, string) -> PageOutcome, total: nat)
    returns (todos: seq<Record>, progress: seq<Progress>)
    ensures todos == Accumulated(extract, total)
    ensures |progress| == 2 * total && PagesProgress(progress, extract, total, total)
  {
    progress := [];
    todos := [];
    var dataAnterior := "";
    for i := 0 to total
      invariant dataAnterior == CarriedDate(extract, i)
      invariant todos == Accumulated(extract, i)
      invariant |progress| == 2 * i && PagesProgress(progress, extract, total, i)
    {
      var resultado;
      resultado, dataAnterior, todos := NextPage(extract, i, dataAnterior, todos);
      PagesProgressStep(progress, extract, total, i);
      progress := progress + [Progress(i + 1, total, AnalyzingMessage(i + 1, total)),
                              Progress(i + 1, total, PageMessage(i + 1, resultado))];
    }
  }

  /** The two callback calls before the first page: converting, then the page count. */
  function StartProgress(total: nat): seq<Progress> {
    [Progress(0, 0, "Convertendo PDF em imagens..."),
     Progress(0, total, "PDF tem " + NatToString(total) + " páginas. Iniciando extração...")]
  }

  /** The callback call after the fill pass, with the number of records. */
  function DoneProgress(total: nat, count: nat): Progress {
    Progress(total, total, "Extração completa! " + NatToString(count) + " lançamentos encontrados.")
  }

  /**
   * `extrair_extrato_completo` after rasterization: the opening calls, the
   * page loop, the fill pass over everything gathered, and the closing call.
   * The progress list is the sequence of callback calls.
   */
  method ExtractStatement(extract: (nat, string) -> PageOutcome, total: nat)
    returns (lancamentos: seq<Record>, progress: seq<Progress>)
    ensures lancamentos == BackFill(Accumulated(extract, total))
    ensures |progress| == 2 * total + 3
    ensures progress[..2] == StartProgress(total)
    ensures PagesProgress(progress[2..2 * total + 2], extract, total, total)
    ensures progress[2 * total + 2] == DoneProgress(total, |lancamentos|)
  {
    var todos, pages := ExtractPages(extract, total);
    lancamentos := FillDates(todos);
    progress := StartProgress(total) + pages + [DoneProgress(total, |lancamentos|)];
    assert progress[2..2 * total + 2] == pages;
  }
}
