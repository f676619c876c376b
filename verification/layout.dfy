/**
 * The document plan of gerador_docx.py (`gerar_docx`) as an abstract layout:
 * the records grouped by month, the groups in ascending key order, and for
 * each group a section with a page break before it (except the first), the
 * title with the statement's year, the bank line, the month name and a table
 * whose rows carry text, bold flag and alignment.
 */
module Layout {
  import opened Strings
  import opened Statement

  // ---------------------------------------------------------------------------
  // Year and month of the statement (`_extrair_info_extrato`)

  datatype Info = Info(ano: string, mes: string)

  const DEFAULT_YEAR := "2022"

  /** The year and month of the first record's "dd/mm/yyyy" date, or year 2022 and no month. */
  function StatementInfo(lancamentos: seq<Record>): (info: Info)
    ensures lancamentos == [] ==> info == Info(DEFAULT_YEAR, "")
    ensures lancamentos != [] && |Split(lancamentos[0].data, '/')| != 3 ==> info == Info(DEFAULT_YEAR, "")
    ensures info.mes == "" || (lancamentos != [] && info.mes == MonthKey(lancamentos[0].data))
    ensures '/' !in info.mes && (info.ano == DEFAULT_YEAR || '/' !in info.ano)
  {
    if lancamentos == [] then Info(DEFAULT_YEAR, "")
    else
      var partes := Split(lancamentos[0].data, '/');
      if |partes| == 3 then Info(partes[2], partes[1]) else Info(DEFAULT_YEAR, "")
  }

  /** The date `d/m/y` written as day, month and year fields with no '/' inside. */
  function DateText(d: string, m: string, y: string): string {
    d + "/" + m + "/" + y
  }

  /** Splitting a `d/m/y` date at '/' gives its three fields back. */
  lemma SplitDate(d: string, m: string, y: string)
    requires '/' !in d && '/' !in m && '/' !in y
    ensures Split(DateText(d, m, y), '/') == [d, m, y]
  {
    var parts := [d, m, y];
    assert parts[1..] == [m, y] && parts[1..][1..] == [y];
    assert Join(parts[1..], '/') == m + "/" + y;
    assert d + "/" + (m + "/" + y) == DateText(d, m, y);
    SplitJoin(parts, '/');
  }

  /** A statement whose first record is dated `d/m/y` is headed with year `y` and month `m`. */
  lemma StatementInfoOfDate(r: Record, rest: seq<Record>, d: string, m: string, y: string)
    requires '/' !in d && '/' !in m && '/' !in y
    requires r.data == DateText(d, m, y)
    ensures StatementInfo([r] + rest) == Info(y, m)
  {
    SplitDate(d, m, y);
  }

  // ---------------------------------------------------------------------------
  // Month keys and names

  /** The group key of a date: its middle field when it has exactly three '/'-fields, else "00". */
  function MonthKey(data: string): (k: string)
    ensures '/' !in k
    ensures k == "00" || |Split(data, '/')| == 3
  {
    var partes := Split(data, '/');
    if |partes| == 3 then partes[1] else "00"
  }

  /** A `d/m/y` date falls in month `m`. */
  lemma MonthKeyOfDate(d: string, m: string, y: string)
    requires '/' !in d && '/' !in m && '/' !in y
    ensures MonthKey(DateText(d, m, y)) == m
  {
    SplitDate(d, m, y);
  }

  /** An empty date (a record the fill pass could not date) lands in the "00" group. */
  lemma UndatedRecordKey()
    ensures MonthKey("") == "00"
  {
    assert Split("", '/') == [""];
  }

  const MONTHS: map<string, string> := map[
    "01" := "JANEIRO", "02" := "FEVEREIRO", "03" := "MARÇO", "04" := "ABRIL",
    "05" := "MAIO", "06" := "JUNHO", "07" := "JULHO", "08" := "AGOSTO",
    "09" := "SETEMBRO", "10" := "OUTUBRO", "11" := "NOVEMBRO", "12" := "DEZEMBRO"]

  const UNKNOWN_MONTH := "MÊS "

  /** `MESES.get(mes, f"MÊS {mes}")`. */
  function MonthName(mes: string): string {
    if mes in MONTHS then MONTHS[mes] else UNKNOWN_MONTH + mes
  }

  /** The fallback heading has 'Ê' as its second character; no table name does. */
  lemma MonthNameShape(mes: string)
    ensures |MonthName(mes)| >= 2
    ensures MonthName(mes)[1] == 'Ê' <==> mes !in MONTHS
  {
  }

  /** Different keys get different headings, so no two sections carry the same month name. */
  lemma MonthNameInjective(a: string, b: string)
    requires MonthName(a) == MonthName(b)
    ensures a == b
  {
    MonthNameShape(a);
    MonthNameShape(b);
    if a !in MONTHS {
      assert a == MonthName(a)[|UNKNOWN_MONTH|..];
      assert b == MonthName(b)[|UNKNOWN_MONTH|..];
    }
  }

  // ---------------------------------------------------------------------------
  // Key order: Python's `<` on str, code point by code point

  predicate Less(a: string, b: string) {
    if a == [] then b != []
    else if b == [] then false
    else if a[0] != b[0] then a[0] < b[0]
    else Less(a[1..], b[1..])
  }

  lemma {:induction false} LessIrreflexive(a: string)
    ensures !Less(a, a)
  {
    if a != [] {
      LessIrreflexive(a[1..]);
    }
  }

  lemma {:induction false} LessTransitive(a: string, b: string, c: string)
    requires Less(a, b) && Less(b, c)
    ensures Less(a, c)
  {
    if a != [] && a[0] == b[0] && b[0] == c[0] {
      LessTransitive(a[1..], b[1..], c[1..]);
    }
  }

  lemma {:induction false} LessTotal(a: string, b: string)
    requires a != b
    ensures Less(a, b) || Less(b, a)
  {
    if a != [] && b != [] && a[0] == b[0] {
      assert a == [a[0]] + a[1..] && b == [b[0]] + b[1..];
      LessTotal(a[1..], b[1..]);
    }
  }

  /** Strictly ascending, hence free of duplicates. */
  ghost predicate Ascending(s: seq<string>) {
    forall i, j :: 0 <= i < j < |s| ==> Less(s[i], s[j])
  }

  /** `k` put into place in an ascending sequence, if it is not there already. */
  function Insert(s: seq<string>, k: string): (r: seq<string>)
    requires Ascending(s)
    ensures Ascending(r)
    ensures forall x :: x in r <==> x in s || x == k
  {
    if s == [] then [k]
    else if k == s[0] then s
    else if Less(k, s[0]) then
      assert forall j :: 0 < j < |s| ==> Less(k, s[j]) by {
        forall j | 0 < j < |s| {
          LessTransitive(k, s[0], s[j]);
        }
      }
      [k] + s
    else
      LessTotal(k, s[0]);
      var rest := Insert(s[1..], k);
      assert forall x :: x in s[1..] ==> Less(s[0], x);
      [s[0]] + rest
  }

  /** `sorted(keys)` for keys without repeats: ascending, with the same elements. */
  function SortKeys(keys: seq<string>): (r: seq<string>)
    ensures Ascending(r)
    ensures forall x :: x in r <==> x in keys
  {
    if keys == [] then []
    else Insert(SortKeys(keys[..|keys| - 1]), keys[|keys| - 1])
  }

  // ---------------------------------------------------------------------------
  // Cells and rows

  datatype Align = Left | Center | Right

  datatype Cell = Cell(text: string, bold: bool, align: Align)

  /** The table's first row. */
  const HEADER: seq<Cell> := [
    Cell("DATA", true, Center), Cell("DEB/CRED", true, Center),
    Cell("DESCRIÇÃO", true, Center), Cell("VALOR", true, Center)]

  /** The credit test of gerador_docx.py:180-185 on the upper-cased type. */
  predicate IsCredit(tipo: string) {
    var u := Upper(tipo);
    u == "C" || u == "CREDITO" || u == "CRÉDITO"
  }

  lemma {:induction false} UpperIdempotent(s: string)
    ensures Upper(Upper(s)) == Upper(s)
  {
    assert forall i :: 0 <= i < |s| ==> UpperChar(UpperChar(s[i])) == UpperChar(s[i]);
  }

  /** The credit test ignores case: a type and its upper case are classified alike. */
  lemma CreditIgnoresCase(tipo: string)
    ensures IsCredit(tipo) <==> IsCredit(Upper(tipo))
  {
    UpperIdempotent(tipo);
  }

  /** Spellings the credit test accepts, in any case. */
  lemma CreditSpellings()
    ensures IsCredit("C") && IsCredit("c") && IsCredit("Crédito") && IsCredit("credito")
  {
    assert Upper("c") == "C";
    UpperWord("Crédito", "CRÉDITO");
    UpperWord("credito", "CREDITO");
  }

  /** A word upper-cases to a given text when it does so character by character. */
  lemma UpperWord(w: string, u: string)
    requires |w| == |u| && forall i :: 0 <= i < |w| ==> UpperChar(w[i]) == u[i]
    ensures Upper(w) == u
  {
  }

  /** A missing type is a debit, and so is any other word. */
  lemma DebitSpellings()
    ensures !IsCredit("") && !IsCredit("D") && !IsCredit("DEBITO")
  {
    assert Upper("D") == "D";
    assert |Upper("DEBITO")| == 6;
  }

  /**
   * One data row: date and type centred, description left, value right; the
   * type reads CRED exactly for credits, and then every cell is bold.
   */
  function DataRow(r: Record): (row: seq<Cell>)
    ensures |row| == 4
    ensures row[1].text == "CRED" <==> IsCredit(r.tipo)
    ensures row[1].text in {"CRED", "DEB"}
    ensures forall c :: c in row ==> (c.bold <==> row[1].text == "CRED")
    ensures row[0].text == r.data && row[2].text == r.descricao && row[3].text == r.valor
    ensures row[0].align == Center && row[1].align == Center && row[2].align == Left && row[3].align == Right
  {
    var credito := IsCredit(r.tipo);
    [ Cell(r.data, credito, Center),
      Cell(if credito then "CRED" else "DEB", credito, Center),
      Cell(r.descricao, credito, Left),
      Cell(r.valor, credito, Right) ]
  }

  /** A group's table: the header, then one row per record, in order. */
  function Table(group: seq<Record>): (t: seq<seq<Cell>>)
    ensures |t| == |group| + 1 && t[0] == HEADER
    ensures forall i :: 0 <= i < |group| ==> t[i + 1] == DataRow(group[i])
  {
    if group == [] then [HEADER] else Table(group[..|group| - 1]) + [DataRow(group[|group| - 1])]
  }

  // ---------------------------------------------------------------------------
  // Grouping by month

  /** The records of month `k`, in their original order. */
  function Group(recs: seq<Record>, k: string): seq<Record> {
    if recs == [] then []
    else
      var last := recs[|recs| - 1];
      Group(recs[..|recs| - 1], k) + (if MonthKey(last.data) == k then [last] else [])
  }

  /** One more record extends its own group and no other. */
  lemma GroupAppend(recs: seq<Record>, i: nat, k: string)
    requires i < |recs|
    ensures Group(recs[..i + 1], k)
            == Group(recs[..i], k) + (if MonthKey(recs[i].data) == k then [recs[i]] else [])
  {
    assert recs[..i + 1][..i] == recs[..i];
  }

  /** A record is in group `k` exactly when it is in the input and its key is `k`. */
  lemma {:induction false} GroupMembership(recs: seq<Record>, k: string, r: Record)
    ensures r in Group(recs, k) <==> r in recs && MonthKey(r.data) == k
  {
    if recs != [] {
      var init, last := recs[..|recs| - 1], recs[|recs| - 1];
      assert recs == init + [last];
      GroupMembership(init, k, r);
      var tail := if MonthKey(last.data) == k then [last] else [];
      assert Group(recs, k) == Group(init, k) + tail;
      assert r in Group(recs, k) <==> r in Group(init, k) || r in tail;
      assert r in recs <==> r in init || r == last;
    }
  }

  /** A group is non-empty exactly when some record has its key. */
  lemma GroupNonEmpty(recs: seq<Record>, k: string)
    ensures Group(recs, k) != [] <==> exists i :: 0 <= i < |recs| && MonthKey(recs[i].data) == k
  {
    if Group(recs, k) != [] {
      GroupMembership(recs, k, Group(recs, k)[0]);
    }
    if i :| 0 <= i < |recs| && MonthKey(recs[i].data) == k {
      GroupMembership(recs, k, recs[i]);
    }
  }

  /** The groups of `keys`, one after the other. */
  function Regrouped(recs: seq<Record>, keys: seq<string>): seq<Record> {
    if keys == [] then [] else Regrouped(recs, keys[..|keys| - 1]) + Group(recs, keys[|keys| - 1])
  }

  /** Adding one record to the input adds it to the regrouping once if its key is listed, else not at all. */
  lemma {:induction false} RegroupedAppend(recs: seq<Record>, r: Record, keys: seq<string>)
    requires Ascending(keys)
    ensures multiset(Regrouped(recs + [r], keys))
            == multiset(Regrouped(recs, keys)) + (if MonthKey(r.data) in keys then multiset{r} else multiset{})
  {
    if keys != [] {
      var init := keys[..|keys| - 1];
      var k := keys[|keys| - 1];
      assert Ascending(init);
      RegroupedAppend(recs, r, init);
      assert (recs + [r])[..|recs + [r]| - 1] == recs;
      assert MonthKey(r.data) in keys <==> MonthKey(r.data) in init || MonthKey(r.data) == k;
      if MonthKey(r.data) == k {
        LessIrreflexive(k);
        assert k !in init;
      }
    }
  }

  /**
   * Every record falls in exactly one group: the groups of all keys, taken
   * in ascending order, are a permutation of the input.
   */
  lemma {:induction false} GroupsPartition(recs: seq<Record>, keys: seq<string>)
    requires Ascending(keys)
    requires forall i :: 0 <= i < |recs| ==> MonthKey(recs[i].data) in keys
    ensures multiset(Regrouped(recs, keys)) == multiset(recs)
  {
    if recs == [] {
      RegroupedOfNothing(keys);
    } else {
      var init := recs[..|recs| - 1];
      var r := recs[|recs| - 1];
      GroupsPartition(init, keys);
      assert init + [r] == recs;
      RegroupedAppend(init, r, keys);
    }
  }

  lemma {:induction false} RegroupedOfNothing(keys: seq<string>)
    ensures Regrouped([], keys) == []
  {
    if keys != [] {
      RegroupedOfNothing(keys[..|keys| - 1]);
    }
  }

  // ---------------------------------------------------------------------------
  // The document

  const DEFAULT_AGENCIA := "3050"
  const DEFAULT_CONTA := "7223-0"
  const DEFAULT_BANCO := "BRADESCO"

  /** One month of the document; `month` is the group key it renders. */
  datatype Section = Section(
    pageBreakBefore: bool, title: string, subtitle: string,
    month: string, monthName: string, rows: seq<seq<Cell>>)

  function Title(ano: string): string {
    "MOVIMENTAÇÃO BANCÁRIA ANO " + ano
  }

  function Subtitle(banco: string, agencia: string, conta: string): string {
    banco + "  AG." + agencia + "    C/C " + conta
  }

  /** The months of a document, in order. */
  function Months(doc: seq<Section>): (ms: seq<string>)
    ensures |ms| == |doc| && forall t :: 0 <= t < |doc| ==> ms[t] == doc[t].month
  {
    if doc == [] then [] else Months(doc[..|doc| - 1]) + [doc[|doc| - 1].month]
  }

  /** Section number `t` laid out as gerador_docx.py:119-195 lays out a month with these records. */
  ghost predicate Rendered(sec: Section, t: nat, ano: string, banco: string, agencia: string, conta: string,
                           group: seq<Record>) {
    && sec.pageBreakBefore == (t > 0)
    && sec.title == Title(ano)
    && sec.subtitle == Subtitle(banco, agencia, conta)
    && sec.monthName == MonthName(sec.month)
    && sec.rows == Table(group)
  }

  /** The rows of a group's table, built one record at a time. */
  method BuildTable(lancs: seq<Record>) returns (rows: seq<seq<Cell>>)
    ensures rows == Table(lancs)
  {
    rows := [HEADER];
    for i := 0 to |lancs|
      invariant rows == Table(lancs[..i])
    {
      assert lancs[..i + 1][..i] == lancs[..i];
      rows := rows + [DataRow(lancs[i])];
    }
    assert lancs[..|lancs|] == lancs;
  }

  /**
   * The grouping loop of gerador_docx.py:104-114: a dictionary from month key
   * to that month's records, and its keys in insertion order.
   */
  method GroupByMonth(lancamentos: seq<Record>) returns (porMes: map<string, seq<Record>>, chaves: seq<string>)
    ensures forall k :: k in porMes <==> k in chaves
    ensures forall k :: Group(lancamentos, k) == (if k in porMes then porMes[k] else [])
    ensures forall k :: k in porMes ==> porMes[k] != []
  {
    porMes := map[];
    chaves := [];
    for i := 0 to |lancamentos|
      invariant forall k :: k in porMes <==> k in chaves
      invariant forall k :: Group(lancamentos[..i], k) == (if k in porMes then porMes[k] else [])
      invariant forall k :: k in porMes ==> porMes[k] != []
    {
      var lanc := lancamentos[i];
      var mes := MonthKey(lanc.data);
      ghost var before := porMes;
      if mes !in porMes {
        porMes := porMes[mes := []];
        chaves := chaves + [mes];
      }
      ghost var withKey := porMes;
      porMes := porMes[mes := porMes[mes] + [lanc]];
      GroupStep(lancamentos, i, before, withKey, porMes);
    }
    assert lancamentos[..|lancamentos|] == lancamentos;
  }

  /** Appending record i to its month's list keeps the dictionary equal to the groups of the records so far. */
  lemma GroupStep(lancamentos: seq<Record>, i: nat, before: map<string, seq<Record>>,
                  withKey: map<string, seq<Record>>, after: map<string, seq<Record>>)
    requires i < |lancamentos|
    requires forall k :: Group(lancamentos[..i], k) == (if k in before then before[k] else [])
    requires var mes := MonthKey(lancamentos[i].data);
      && withKey == (if mes in before then before else before[mes := []])
      && after == withKey[mes := withKey[mes] + [lancamentos[i]]]
    ensures forall k :: Group(lancamentos[..i + 1], k) == (if k in after then after[k] else [])
  {
    forall k
      ensures Group(lancamentos[..i + 1], k) == (if k in after then after[k] else [])
    {
      GroupAppend(lancamentos, i, k);
    }
  }

  /**
   * The document for the records: its sections' months ascend, each month
   * has records and every record's month has a section (none at all for no
   * records), and each section is rendered from its month's group with the
   * statement's year.
   */
  ghost predicate LaidOut(doc: seq<Section>, lancamentos: seq<Record>, agencia: string, conta: string, banco: string) {
    && Ascending(Months(doc))
    && (forall t :: 0 <= t < |doc| ==> Group(lancamentos, doc[t].month) != [])
    && (forall i :: 0 <= i < |lancamentos| ==> MonthKey(lancamentos[i].data) in Months(doc))
    && (lancamentos == [] <==> doc == [])
    && (forall t :: 0 <= t < |doc| ==>
          Rendered(doc[t], t, StatementInfo(lancamentos).ano, banco, agencia, conta, Group(lancamentos, doc[t].month)))
  }

  /**
   * `gerar_docx` without the file: one section per month key in ascending
   * order, each with its group's table, all titled with the first record's year.
   */
  method BuildLayout(lancamentos: seq<Record>, agencia: string, conta: string, banco: string)
    returns (doc: seq<Section>)
    ensures LaidOut(doc, lancamentos, agencia, conta, banco)
  {
    var info := StatementInfo(lancamentos);
    var ano := info.ano;
    var porMes, chaves := GroupByMonth(lancamentos);
    var meses := SortKeys(chaves);
    SortedKeysCover(lancamentos, porMes, chaves, meses);
    doc := RenderMonths(ano, porMes, meses, agencia, conta, banco);
    assert Months(doc) == meses;
    forall t | 0 <= t < |doc|
      ensures Group(lancamentos, doc[t].month) == porMes[doc[t].month] != []
    {
      assert doc[t].month in meses;
    }
  }

  /**
   * The sorted keys of the month dictionary: each names a non-empty group
   * held under it, every record's key is among them, and there are none
   * exactly when there are no records.
   */
  lemma SortedKeysCover(lancamentos: seq<Record>, porMes: map<string, seq<Record>>, chaves: seq<string>,
                        meses: seq<string>)
    requires forall k :: k in porMes <==> k in chaves
    requires forall k :: Group(lancamentos, k) == (if k in porMes then porMes[k] else [])
    requires forall k :: k in porMes ==> porMes[k] != []
    requires forall x :: x in meses <==> x in chaves
    ensures forall k :: k in meses ==> k in porMes && Group(lancamentos, k) == porMes[k] != []
    ensures forall i :: 0 <= i < |lancamentos| ==> MonthKey(lancamentos[i].data) in meses
    ensures lancamentos == [] <==> meses == []
  {
    assert meses == [] || meses[0] in chaves;
    forall i | 0 <= i < |lancamentos|
      ensures MonthKey(lancamentos[i].data) in meses
    {
      GroupNonEmpty(lancamentos, MonthKey(lancamentos[i].data));
    }
    if lancamentos == [] {
      assert forall k :: k !in porMes;
    } else {
      assert MonthKey(lancamentos[0].data) in meses;
    }
  }

  /**
   * The section loop of gerador_docx.py:119-195 over the sorted keys: the
   * `primeiro_mes` flag puts a page break before every section but the first.
   */
  method RenderMonths(ano: string, porMes: map<string, seq<Record>>, meses: seq<string>,
                      agencia: string, conta: string, banco: string)
    returns (doc: seq<Section>)
    requires forall k :: k in meses ==> k in porMes
    ensures |doc| == |meses|
    ensures forall t :: 0 <= t < |doc| ==> doc[t].month == meses[t]
    ensures forall t :: 0 <= t < |doc| ==> Rendered(doc[t], t, ano, banco, agencia, conta, porMes[meses[t]])
  {
    doc := [];
    var primeiroMes := true;
    for j := 0 to |meses|
      invariant |doc| == j && (primeiroMes <==> j == 0)
      invariant forall t :: 0 <= t < j ==> doc[t].month == meses[t]
      invariant forall t :: 0 <= t < j ==> Rendered(doc[t], t, ano, banco, agencia, conta, porMes[meses[t]])
    {
      var mes := meses[j];
      var lancsMes := porMes[mes];
      var nomeMes := MonthName(mes);
      var quebra := !primeiroMes;
      primeiroMes := false;
      var rows := BuildTable(lancsMes);
      var secao := Section(quebra, Title(ano), Subtitle(banco, agencia, conta), mes, nomeMes, rows);
      assert Rendered(secao, j, ano, banco, agencia, conta, lancsMes);
      doc := doc + [secao];
    }
  }
}
