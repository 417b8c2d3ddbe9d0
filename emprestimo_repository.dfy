/** The loan queries: the derived finders (filters and one ordered filter) and the three
    monthly SUM aggregates, each over the loan table given as a sequence of rows in
    storage order. */
module EmprestimoRepository {
  import opened Common
  import opened Utils
  import opened Query
  import opened Model

  /** `YEAR(t) = year AND MONTH(t) = month`. */
  predicate InMonth(t: LocalDateTime, year: int, month: int) {
    t.date.year == year && t.date.month == month
  }

  /** `t BETWEEN lo AND hi`, both ends included. */
  predicate Between(t: LocalDateTime, lo: LocalDateTime, hi: LocalDateTime) {
    NotAfter(lo, t) && NotAfter(t, hi)
  }

  function LentIn(year: int, month: int): Emprestimo -> bool {
    (e: Emprestimo) => InMonth(e.dataEmprestimo, year, month)
  }

  /** The filter of the two receivable aggregates: due in the month and not settled. */
  function DueUnsettledIn(year: int, month: int): Emprestimo -> bool {
    (e: Emprestimo) => InMonth(e.dataPagamento, year, month) && !e.quitado
  }

  function SettledIs(quitado: bool): Emprestimo -> bool {
    (e: Emprestimo) => e.quitado == quitado
  }

  function Principal(e: Emprestimo): real {
    e.valorEmprestimo
  }

  /** `(porcentagem / 100) * valorEmprestimo`: the interest on a loan. */
  function Gross(e: Emprestimo): real {
    (e.porcentagem / 100.0) * e.valorEmprestimo
  }

  /** `valorEmprestimo + (porcentagem / 100) * valorEmprestimo`: principal plus interest. */
  function Net(e: Emprestimo): real {
    e.valorEmprestimo + (e.porcentagem / 100.0) * e.valorEmprestimo
  }

  function DataPagamento(e: Emprestimo): LocalDateTime {
    e.dataPagamento
  }

  // ---------------------------------------------------------------------------
  // Finders
  // ---------------------------------------------------------------------------

  function FindByDataEmprestimoBetween(rows: seq<Emprestimo>, dataInicial: LocalDateTime, dataFinal: LocalDateTime): (r: seq<Emprestimo>)
    ensures forall e :: e in r <==> e in rows && Between(e.dataEmprestimo, dataInicial, dataFinal)
  {
    Where(rows, (e: Emprestimo) => Between(e.dataEmprestimo, dataInicial, dataFinal))
  }

  function FindByDataPagamentoBetween(rows: seq<Emprestimo>, dataInicial: LocalDateTime, dataFinal: LocalDateTime): (r: seq<Emprestimo>)
    ensures forall e :: e in r <==> e in rows && Between(e.dataPagamento, dataInicial, dataFinal)
  {
    Where(rows, (e: Emprestimo) => Between(e.dataPagamento, dataInicial, dataFinal))
  }

  /** The loans of one borrower; a null borrower (`IS NULL`) matches no loan, as every
      loan has one. */
  function FindByBeneficiario(rows: seq<Emprestimo>, beneficiario: Option<Beneficiario>): (r: seq<Emprestimo>)
    ensures beneficiario.None? ==> r == []
    ensures forall e :: e in r <==> e in rows && beneficiario.Some? && e.beneficiarioId == beneficiario.value.id
  {
    match beneficiario
    case None => []
    case Some(b) => Where(rows, (e: Emprestimo) => e.beneficiarioId == b.id)
  }

  /** Loans due strictly before `date` whose settled flag is `quitado`. */
  function FindByDataPagamentoBeforeAndQuitado(rows: seq<Emprestimo>, date: LocalDateTime, quitado: bool): (r: seq<Emprestimo>)
    ensures forall e :: e in r <==> e in rows && IsBefore(e.dataPagamento, date) && e.quitado == quitado
  {
    Where(rows, (e: Emprestimo) => IsBefore(e.dataPagamento, date) && e.quitado == quitado)
  }

  /** The loans whose settled flag is `quitado`, earliest due date first. */
  function FindByQuitadoOrderByDataPagamentoAsc(rows: seq<Emprestimo>, quitado: bool): (r: seq<Emprestimo>)
    ensures SortedBy(r, DataPagamento)
    ensures forall e :: e in r <==> e in rows && e.quitado == quitado
    ensures multiset(r) == multiset(Where(rows, SettledIs(quitado)))
  {
    SortedFilter(rows, SettledIs(quitado), DataPagamento);
    SortBy(Where(rows, SettledIs(quitado)), DataPagamento)
  }

  /** `MONTH(dataPagamento) = :month`, whatever the year; a null month compares unknown
      and matches nothing. */
  function FindByDataPagamentoMonth(rows: seq<Emprestimo>, month: Option<int>): (r: seq<Emprestimo>)
    ensures month.None? ==> r == []
    ensures forall e :: e in r <==> e in rows && month.Some? && e.dataPagamento.date.month == month.value
  {
    match month
    case None => []
    case Some(m) => Where(rows, (e: Emprestimo) => e.dataPagamento.date.month == m)
  }

  // ---------------------------------------------------------------------------
  // Monthly aggregates
  // ---------------------------------------------------------------------------

  /** The total lent in a month, by the date the loan was made (the query filters on
      `dataEmprestimo`); NULL when nothing was lent. */
  function ValorTotalEmprestadoPorMes(rows: seq<Emprestimo>, year: int, month: int): (r: Option<real>)
    ensures r.None? <==> forall e :: e in rows ==> !InMonth(e.dataEmprestimo, year, month)
  {
    Sum(rows, LentIn(year, month), Principal)
  }

  /** The principal still to be received in a month: the common part of the two
      receivable aggregates. */
  function PrincipalAReceberPorMes(rows: seq<Emprestimo>, year: int, month: int): (r: Option<real>)
    ensures r.None? <==> forall e :: e in rows ==> !(InMonth(e.dataPagamento, year, month) && !e.quitado)
  {
    Sum(rows, DueUnsettledIn(year, month), Principal)
  }

  /** Principal plus interest of the unsettled loans due in a month; NULL when there are none. */
  function ValorTotalLiquidoAReceberPorMes(rows: seq<Emprestimo>, year: int, month: int): (r: Option<real>)
    ensures r.None? <==> forall e :: e in rows ==> !(InMonth(e.dataPagamento, year, month) && !e.quitado)
  {
    Sum(rows, DueUnsettledIn(year, month), Net)
  }

  /** Interest of the unsettled loans due in a month; NULL when there are none. */
  function ValorTotalBrutoAReceberPorMes(rows: seq<Emprestimo>, year: int, month: int): (r: Option<real>)
    ensures r.None? <==> forall e :: e in rows ==> !(InMonth(e.dataPagamento, year, month) && !e.quitado)
  {
    Sum(rows, DueUnsettledIn(year, month), Gross)
  }

  /** Net and gross are NULL together, and net is the principal due plus gross. */
  lemma NetIsPrincipalPlusGross(rows: seq<Emprestimo>, year: int, month: int)
    ensures ValorTotalLiquidoAReceberPorMes(rows, year, month).None? <==> ValorTotalBrutoAReceberPorMes(rows, year, month).None?
    ensures ValorTotalLiquidoAReceberPorMes(rows, year, month).Some? ==>
      ValorTotalLiquidoAReceberPorMes(rows, year, month).value
        == PrincipalAReceberPorMes(rows, year, month).value + ValorTotalBrutoAReceberPorMes(rows, year, month).value
  {
    SumOfAdd(Where(rows, DueUnsettledIn(year, month)), Principal, Gross, Net);
  }

  /** A settled loan never changes either receivable aggregate, whatever its dates. */
  lemma SettledLoanIgnored(rows: seq<Emprestimo>, e: Emprestimo, year: int, month: int)
    requires e.quitado
    ensures ValorTotalLiquidoAReceberPorMes(rows + [e], year, month) == ValorTotalLiquidoAReceberPorMes(rows, year, month)
    ensures ValorTotalBrutoAReceberPorMes(rows + [e], year, month) == ValorTotalBrutoAReceberPorMes(rows, year, month)
  {
    SumSnoc(rows, e, DueUnsettledIn(year, month), Net);
    SumSnoc(rows, e, DueUnsettledIn(year, month), Gross);
  }

  /** An unsettled loan due in the month adds its interest to gross and its principal
      plus interest to net. */
  lemma UnsettledLoanCounted(rows: seq<Emprestimo>, e: Emprestimo, year: int, month: int)
    requires !e.quitado && InMonth(e.dataPagamento, year, month)
    ensures ValorTotalBrutoAReceberPorMes(rows + [e], year, month)
      == Some(match ValorTotalBrutoAReceberPorMes(rows, year, month) case None => Gross(e) case Some(g) => g + Gross(e))
    ensures ValorTotalLiquidoAReceberPorMes(rows + [e], year, month)
      == Some(match ValorTotalLiquidoAReceberPorMes(rows, year, month) case None => Net(e) case Some(n) => n + Net(e))
  {
    SumSnoc(rows, e, DueUnsettledIn(year, month), Net);
    SumSnoc(rows, e, DueUnsettledIn(year, month), Gross);
  }

  /** Over loans meeting the entity constraints no aggregate is negative, and a total
      lent or a net total, when present, is positive. */
  lemma AggregatesNonNegative(rows: seq<Emprestimo>, year: int, month: int)
    requires forall i | 0 <= i < |rows| :: EmprestimoValid(rows[i])
    ensures ValorTotalBrutoAReceberPorMes(rows, year, month).Some? ==> ValorTotalBrutoAReceberPorMes(rows, year, month).value >= 0.0
    ensures ValorTotalLiquidoAReceberPorMes(rows, year, month).Some? ==> ValorTotalLiquidoAReceberPorMes(rows, year, month).value > 0.0
    ensures ValorTotalEmprestadoPorMes(rows, year, month).Some? ==> ValorTotalEmprestadoPorMes(rows, year, month).value > 0.0
  {
    var due := Where(rows, DueUnsettledIn(year, month));
    var lent := Where(rows, LentIn(year, month));
    assert forall i | 0 <= i < |due| :: EmprestimoValid(due[i]) by {
      forall i | 0 <= i < |due| ensures EmprestimoValid(due[i]) {
        assert due[i] in rows;
      }
    }
    assert forall i | 0 <= i < |lent| :: EmprestimoValid(lent[i]) by {
      forall i | 0 <= i < |lent| ensures EmprestimoValid(lent[i]) {
        assert lent[i] in rows;
      }
    }
    SumOfNonNegative(due, Gross);
    if |due| > 0 {
      SumOfNonNegative(due[1..], Net);
    }
    if |lent| > 0 {
      SumOfNonNegative(lent[1..], Principal);
    }
  }

  // ---------------------------------------------------------------------------
  // The test fixtures
  // ---------------------------------------------------------------------------

  /** Midnight of a day. */
  function Midnight(year: int, month: int, day: int): LocalDateTime {
    LocalDateTime(LocalDate(year, month, day), 0, 0, 0, 0)
  }

  /** Two unsettled loans of borrower 1: 1000 at 30% lent on 1 May 2024 and due on 1 June,
      2000 at 20% lent on 20 May and due on 20 June. */
  function FixtureLoans(): seq<Emprestimo> {
    [ Emprestimo(1, Midnight(2024, 5, 1), Midnight(2024, 6, 1), 1000.0, 30.0, false, 1, None, None, None),
      Emprestimo(2, Midnight(2024, 5, 20), Midnight(2024, 6, 20), 2000.0, 20.0, false, 1, None, None, None) ]
  }

  /** May 2024 lent 3000 and April nothing; June is due 700 of interest and 3700 in all,
      April nothing. */
  lemma FixtureAggregates()
    ensures ValorTotalEmprestadoPorMes(FixtureLoans(), 2024, 5) == Some(3000.0)
    ensures ValorTotalEmprestadoPorMes(FixtureLoans(), 2024, 4).None?
    ensures ValorTotalBrutoAReceberPorMes(FixtureLoans(), 2024, 6) == Some(700.0)
    ensures ValorTotalLiquidoAReceberPorMes(FixtureLoans(), 2024, 6) == Some(3700.0)
    ensures ValorTotalBrutoAReceberPorMes(FixtureLoans(), 2024, 4).None?
    ensures ValorTotalLiquidoAReceberPorMes(FixtureLoans(), 2024, 4).None?
  {
    var rows := FixtureLoans();
    WhereAll(rows, LentIn(2024, 5));
    WhereAll(rows, DueUnsettledIn(2024, 6));
    assert rows[1..][1..] == [];
  }
}
