/** The three persisted entities. Each appears twice: as the row its table holds (a
    datatype whose NOT NULL columns are plain values) and as the Java object the mappers
    fill in through setters (a class whose fields may be null). `Persistable` is what a
    `save` of the object demands: the NOT NULL columns set and the Bean Validation
    constraints of the entity met. */
module Model {
  import opened Common
  import opened Utils

  // ---------------------------------------------------------------------------
  // Rows
  // ---------------------------------------------------------------------------

  /** A stored borrower. The image is kept but never shown in a response. */
  datatype Beneficiario = Beneficiario(
    id: int,
    nome: string,
    numeroTelefone: string,
    dataCriacao: Option<LocalDateTime>,
    dataAtualizacao: Option<LocalDateTime>,
    observacao: Option<string>,
    imagem: Option<seq<bv8>>)

  /** A stored loan; the borrower is referenced by id. Money and percentages are exact. */
  datatype Emprestimo = Emprestimo(
    id: int,
    dataEmprestimo: LocalDateTime,
    dataPagamento: LocalDateTime,
    valorEmprestimo: real,
    porcentagem: real,
    quitado: bool,
    beneficiarioId: int,
    dataCriacao: Option<LocalDateTime>,
    dataAtualizacao: Option<LocalDateTime>,
    observacao: Option<string>)

  /** The Bean Validation constraints on a loan: a positive amount and a non-negative rate. */
  predicate EmprestimoValid(e: Emprestimo) {
    e.valorEmprestimo > 0.0 && e.porcentagem >= 0.0
  }

  /** The three kinds of payment, in declaration order. */
  datatype TipoPagamento = TOTAL | JUROS | ACORDO

  /** `Enum.name()`. */
  function Name(t: TipoPagamento): string {
    match t
    case TOTAL => "TOTAL"
    case JUROS => "JUROS"
    case ACORDO => "ACORDO"
  }

  /** A stored payment; the loan is referenced by id. The amount is not constrained here. */
  datatype Pagamento = Pagamento(
    id: int,
    dataPagamento: LocalDateTime,
    valorPago: real,
    tipoPagamento: TipoPagamento,
    emprestimoId: int,
    dataCriacao: Option<LocalDateTime>,
    dataAtualizacao: Option<LocalDateTime>,
    observacao: Option<string>)

  // ---------------------------------------------------------------------------
  // Objects
  // ---------------------------------------------------------------------------

  class BeneficiarioEntity {
    var id: Option<int>
    var nome: Option<string>
    var numeroTelefone: Option<string>
    var dataCriacao: Option<LocalDateTime>
    var dataAtualizacao: Option<LocalDateTime>
    var observacao: Option<string>
    var imagem: Option<seq<bv8>>

    /** `new Beneficiario()`: every field null. */
    constructor ()
      ensures id.None? && nome.None? && numeroTelefone.None? && dataCriacao.None?
      ensures dataAtualizacao.None? && observacao.None? && imagem.None?
    {
      id, nome, numeroTelefone := None, None, None;
      dataCriacao, dataAtualizacao, observacao, imagem := None, None, None, None;
    }

    /** The object `findById` hands back for a stored row. */
    constructor Load(row: Beneficiario)
      ensures Persistable() && id == Some(row.id) && ToRow(row.id) == row
    {
      id, nome, numeroTelefone := Some(row.id), Some(row.nome), Some(row.numeroTelefone);
      dataCriacao, dataAtualizacao := row.dataCriacao, row.dataAtualizacao;
      observacao, imagem := row.observacao, row.imagem;
    }

    /** Columns `nome` and `numero_telefone` are NOT NULL. */
    predicate Persistable()
      reads this
    {
      nome.Some? && numeroTelefone.Some?
    }

    /** The row written for this object under key `key`. */
    function ToRow(key: int): Beneficiario
      reads this
      requires Persistable()
    {
      Beneficiario(key, nome.value, numeroTelefone.value, dataCriacao, dataAtualizacao, observacao, imagem)
    }
  }

  class EmprestimoEntity {
    var id: Option<int>
    var dataEmprestimo: Option<LocalDateTime>
    var dataPagamento: Option<LocalDateTime>
    var valorEmprestimo: Option<real>
    var porcentagem: Option<real>
    var quitado: Option<bool>
    /** The borrower the object points to, as the row it was loaded from. */
    var beneficiario: Option<Beneficiario>
    var dataCriacao: Option<LocalDateTime>
    var dataAtualizacao: Option<LocalDateTime>
    var observacao: Option<string>

    /** `new Emprestimo()`: every field null. */
    constructor ()
      ensures id.None? && dataEmprestimo.None? && dataPagamento.None? && valorEmprestimo.None?
      ensures porcentagem.None? && quitado.None? && beneficiario.None?
      ensures dataCriacao.None? && dataAtualizacao.None? && observacao.None?
    {
      id, dataEmprestimo, dataPagamento := None, None, None;
      valorEmprestimo, porcentagem, quitado, beneficiario := None, None, None, None;
      dataCriacao, dataAtualizacao, observacao := None, None, None;
    }

    /** The object `findById` hands back for a stored loan whose borrower is `b` (null
        when no borrower row has the loan's borrower id). */
    constructor Load(row: Emprestimo, b: Option<Beneficiario>)
      requires EmprestimoValid(row) && (b.Some? ==> b.value.id == row.beneficiarioId)
      ensures b.Some? ==> Persistable() && ToRow(row.id) == row
      ensures id == Some(row.id) && beneficiario == b
      ensures dataCriacao == row.dataCriacao && dataAtualizacao == row.dataAtualizacao && observacao == row.observacao
    {
      id, dataEmprestimo, dataPagamento := Some(row.id), Some(row.dataEmprestimo), Some(row.dataPagamento);
      valorEmprestimo, porcentagem, quitado := Some(row.valorEmprestimo), Some(row.porcentagem), Some(row.quitado);
      beneficiario := b;
      dataCriacao, dataAtualizacao, observacao := row.dataCriacao, row.dataAtualizacao, row.observacao;
    }

    /** Every mapped column is NOT NULL and annotated `@NotNull`; the amount is
        `@Positive` and the rate `@PositiveOrZero`. */
    predicate Persistable()
      reads this
    {
      && dataEmprestimo.Some? && dataPagamento.Some? && quitado.Some? && beneficiario.Some?
      && valorEmprestimo.Some? && valorEmprestimo.value > 0.0
      && porcentagem.Some? && porcentagem.value >= 0.0
    }

    /** The row written for this object under key `key`; it always meets the loan constraints. */
    function ToRow(key: int): (r: Emprestimo)
      reads this
      requires Persistable()
      ensures EmprestimoValid(r)
    {
      Emprestimo(key, dataEmprestimo.value, dataPagamento.value, valorEmprestimo.value, porcentagem.value,
                 quitado.value, beneficiario.value.id, dataCriacao, dataAtualizacao, observacao)
    }
  }

  class PagamentoEntity {
    var id: Option<int>
    var dataPagamento: Option<LocalDateTime>
    var valorPago: Option<real>
    var tipoPagamento: Option<TipoPagamento>
    /** The loan the object points to, as the row it was loaded from. */
    var emprestimo: Option<Emprestimo>
    var dataCriacao: Option<LocalDateTime>
    var dataAtualizacao: Option<LocalDateTime>
    var observacao: Option<string>

    /** `new Pagamento()`: every field null. */
    constructor ()
      ensures id.None? && dataPagamento.None? && valorPago.None? && tipoPagamento.None?
      ensures emprestimo.None? && dataCriacao.None? && dataAtualizacao.None? && observacao.None?
    {
      id, dataPagamento, valorPago, tipoPagamento := None, None, None, None;
      emprestimo, dataCriacao, dataAtualizacao, observacao := None, None, None, None;
    }

    /** The object `findById` hands back for a stored payment whose loan is `e` (null
        when no loan row has the payment's loan id). */
    constructor Load(row: Pagamento, e: Option<Emprestimo>)
      requires e.Some? ==> e.value.id == row.emprestimoId
      ensures e.Some? ==> Persistable() && ToRow(row.id) == row
      ensures id == Some(row.id) && emprestimo == e
      ensures dataCriacao == row.dataCriacao && dataAtualizacao == row.dataAtualizacao && observacao == row.observacao
    {
      id, dataPagamento, valorPago := Some(row.id), Some(row.dataPagamento), Some(row.valorPago);
      tipoPagamento, emprestimo := Some(row.tipoPagamento), e;
      dataCriacao, dataAtualizacao, observacao := row.dataCriacao, row.dataAtualizacao, row.observacao;
    }

    /** Every mapped column is NOT NULL; the amount carries no sign constraint. */
    predicate Persistable()
      reads this
    {
      dataPagamento.Some? && valorPago.Some? && tipoPagamento.Some? && emprestimo.Some?
    }

    /** The row written for this object under key `key`. */
    function ToRow(key: int): Pagamento
      reads this
      requires Persistable()
    {
      Pagamento(key, dataPagamento.value, valorPago.value, tipoPagamento.value, emprestimo.value.id,
                dataCriacao, dataAtualizacao, observacao)
    }
  }
}
