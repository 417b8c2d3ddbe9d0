/** The payment queries: one loan's payments in date order, and the SUM of amounts paid
    per loan and per month, over the payment table given as a sequence of rows in storage
    order. */
module PagamentoRepository {
  import opened Common
  import opened Utils
  import opened Query
  import opened Model
  import EmprestimoRepository

  function OfLoan(emprestimoId: int): Pagamento -> bool {
    (p: Pagamento) => p.emprestimoId == emprestimoId
  }

  function PaidIn(year: int, month: int): Pagamento -> bool {
    (p: Pagamento) => EmprestimoRepository.InMonth(p.dataPagamento, year, month)
  }

  function ValorPago(p: Pagamento): real {
    p.valorPago
  }

  function DataPagamento(p: Pagamento): LocalDateTime {
    p.dataPagamento
  }

  /** The payments of one loan, earliest first; a null loan (`IS NULL`) matches nothing,
      as every payment has one. */
  function FindByEmprestimoOrderByDataPagamentoAsc(rows: seq<Pagamento>, emprestimo: Option<Emprestimo>): (r: seq<Pagamento>)
    ensures SortedBy(r, DataPagamento)
    ensures forall p :: p in r <==> p in rows && emprestimo.Some? && p.emprestimoId == emprestimo.value.id
    ensures emprestimo.Some? ==> multiset(r) == multiset(Where(rows, OfLoan(emprestimo.value.id)))
  {
    match emprestimo
    case None => []
    case Some(e) =>
      SortedFilter(rows, OfLoan(e.id), DataPagamento);
      SortBy(Where(rows, OfLoan(e.id)), DataPagamento)
  }

  /** `SUM(valorPago) WHERE emprestimo = :emprestimo`: a null loan compares unknown with
      every row, so the sum is NULL, as it is for a loan without payments. */
  function ValorTotalRecebidoPorEmprestimo(rows: seq<Pagamento>, emprestimo: Option<Emprestimo>): (r: Option<real>)
    ensures r.None? <==> emprestimo.None? || forall p :: p in rows ==> p.emprestimoId != emprestimo.value.id
  {
    match emprestimo
    case None => None
    case Some(e) => Sum(rows, OfLoan(e.id), ValorPago)
  }

  /** The amount received in a month, by payment date; NULL when nothing was paid. */
  function ValorTotalRecebidoPorMes(rows: seq<Pagamento>, ano: int, mes: int): (r: Option<real>)
    ensures r.None? <==> forall p :: p in rows ==> !EmprestimoRepository.InMonth(p.dataPagamento, ano, mes)
  {
    Sum(rows, PaidIn(ano, mes), ValorPago)
  }

  /** Recording a payment adds its amount to its loan's total (which starts from NULL)
      and leaves every other loan's total alone. */
  lemma PaymentAddsToLoanTotal(rows: seq<Pagamento>, p: Pagamento, e: Emprestimo)
    ensures p.emprestimoId != e.id ==>
      ValorTotalRecebidoPorEmprestimo(rows + [p], Some(e)) == ValorTotalRecebidoPorEmprestimo(rows, Some(e))
    ensures p.emprestimoId == e.id ==>
      ValorTotalRecebidoPorEmprestimo(rows + [p], Some(e))
        == Some(match ValorTotalRecebidoPorEmprestimo(rows, Some(e)) case None => p.valorPago case Some(t) => t + p.valorPago)
  {
    SumSnoc(rows, p, OfLoan(e.id), ValorPago);
  }

  /** With positive amounts (as validated on every request) a total, when present, is positive. */
  lemma TotalsPositive(rows: seq<Pagamento>, emprestimo: Option<Emprestimo>, ano: int, mes: int)
    requires forall i | 0 <= i < |rows| :: rows[i].valorPago > 0.0
    ensures ValorTotalRecebidoPorEmprestimo(rows, emprestimo).Some? ==> ValorTotalRecebidoPorEmprestimo(rows, emprestimo).value > 0.0
    ensures ValorTotalRecebidoPorMes(rows, ano, mes).Some? ==> ValorTotalRecebidoPorMes(rows, ano, mes).value > 0.0
  {
    var month := Where(rows, PaidIn(ano, mes));
    if |month| > 0 {
      assert month[0] in rows;
      assert forall i | 0 <= i < |month[1..]| :: month[1..][i].valorPago >= 0.0 by {
        forall i | 0 <= i < |month[1..]| ensures month[1..][i].valorPago >= 0.0 {
          assert month[1..][i] in rows;
        }
      }
      SumOfNonNegative(month[1..], ValorPago);
    }
    if emprestimo.Some? {
      var loan := Where(rows, OfLoan(emprestimo.value.id));
      if |loan| > 0 {
        assert loan[0] in rows;
        assert forall i | 0 <= i < |loan[1..]| :: loan[1..][i].valorPago >= 0.0 by {
          forall i | 0 <= i < |loan[1..]| ensures loan[1..][i].valorPago >= 0.0 {
            assert loan[1..][i] in rows;
          }
        }
        SumOfNonNegative(loan[1..], ValorPago);
      }
    }
  }

  // ---------------------------------------------------------------------------
  // The test fixtures
  // ---------------------------------------------------------------------------

  /** Two payments on the first fixture loan: 1000 of interest on 10 May 2024 and 2000 in
      full on 20 May. */
  function FixturePayments(): seq<Pagamento> {
    [ Pagamento(1, EmprestimoRepository.Midnight(2024, 5, 10), 1000.0, JUROS, 1, None, None, None),
      Pagamento(2, EmprestimoRepository.Midnight(2024, 5, 20), 2000.0, TOTAL, 1, None, None, None) ]
  }

  /** The loan received 3000; so did May 2024; the second loan, a null loan and April
      received nothing (NULL); the payments list in date order. */
  lemma FixtureTotals()
    ensures ValorTotalRecebidoPorEmprestimo(FixturePayments(), Some(EmprestimoRepository.FixtureLoans()[0])) == Some(3000.0)
    ensures ValorTotalRecebidoPorEmprestimo(FixturePayments(), Some(EmprestimoRepository.FixtureLoans()[1])).None?
    ensures ValorTotalRecebidoPorEmprestimo(FixturePayments(), None).None?
    ensures ValorTotalRecebidoPorMes(FixturePayments(), 2024, 5) == Some(3000.0)
    ensures ValorTotalRecebidoPorMes(FixturePayments(), 2024, 4).None?
    ensures FindByEmprestimoOrderByDataPagamentoAsc(FixturePayments(), Some(EmprestimoRepository.FixtureLoans()[0])) == FixturePayments()
  {
    var rows := FixturePayments();
    WhereAll(rows, OfLoan(1));
    WhereAll(rows, PaidIn(2024, 5));
    assert rows[1..][1..] == [];
    assert SortBy(rows[1..], DataPagamento) == rows[1..] by {
      assert rows[1..][1..] == [];
    }
  }
}
