/** Request and response records, and the Bean Validation constraints the controllers
    check on a request body before any service runs. Every request field may be null. */
module Dto {
  import opened Common
  import opened Utils
  import opened Model

  // ---------------------------------------------------------------------------
  // Requests
  // ---------------------------------------------------------------------------

  datatype BeneficiarioRequest = BeneficiarioRequest(
    nome: Option<string>,
    numeroTelefone: Option<string>,
    observacao: Option<string>)

  /** Dates travel as "yyyy-MM-dd" text; the borrower is named by id. */
  datatype EmprestimoRequest = EmprestimoRequest(
    dataEmprestimo: Option<string>,
    dataPagamento: Option<string>,
    valorEmprestimo: Option<real>,
    porcentagem: Option<real>,
    quitado: Option<bool>,
    beneficiarioId: Option<Long>)

  /** The kind of payment travels as text; the loan is named by id. */
  datatype PagamentoRequest = PagamentoRequest(
    dataPagamento: Option<string>,
    valorPago: Option<real>,
    tipoPagamento: Option<string>,
    emprestimoId: Option<Long>)

  // ---------------------------------------------------------------------------
  // Constraints (null passes every constraint except the not-null ones)
  // ---------------------------------------------------------------------------

  /** What `String.trim` removes, the rule Hibernate's `@NotBlank` applies: every
      character up to and including the space, control characters included. */
  predicate IsWhitespace(c: char) {
    c <= ' '
  }

  /** `@NotBlank`: present, and something is left once the text is trimmed. */
  predicate NotBlank(s: Option<string>) {
    s.Some? && exists i | 0 <= i < |s.value| :: !IsWhitespace(s.value[i])
  }

  /** `@Size(max = n)`. */
  predicate SizeAtMost(s: Option<string>, n: nat) {
    s.None? || |s.value| <= n
  }

  /** `@Pattern("\\d{10,15}")`: the whole text is 10 to 15 digits. */
  predicate PhonePattern(s: Option<string>) {
    s.None? || (10 <= |s.value| <= 15 && AllDigits(s.value))
  }

  /** `@Pattern("TOTAL|JUROS|ACORDO")`: the whole text is one of the three names. */
  predicate TipoPattern(s: Option<string>) {
    s.None? || s.value == "TOTAL" || s.value == "JUROS" || s.value == "ACORDO"
  }

  /** `@Positive` on a Double. */
  predicate Positive(x: Option<real>) {
    x.None? || x.value > 0.0
  }

  /** `@PositiveOrZero` on a Double. */
  predicate PositiveOrZero(x: Option<real>) {
    x.None? || x.value >= 0.0
  }

  /** Name required, non-blank, at most 100 characters; phone required, non-blank, 10 to
      15 digits; the note is free. */
  predicate BeneficiarioRequestValid(r: BeneficiarioRequest) {
    && NotBlank(r.nome) && SizeAtMost(r.nome, 100)
    && NotBlank(r.numeroTelefone) && PhonePattern(r.numeroTelefone)
  }

  /** Every field required; a positive amount and a non-negative rate. */
  predicate EmprestimoRequestValid(r: EmprestimoRequest) {
    && r.dataEmprestimo.Some? && r.dataPagamento.Some?
    && r.valorEmprestimo.Some? && Positive(r.valorEmprestimo)
    && r.porcentagem.Some? && PositiveOrZero(r.porcentagem)
    && r.quitado.Some? && r.beneficiarioId.Some?
  }

  /** Every field required; a positive amount and one of the three payment kinds. */
  predicate PagamentoRequestValid(r: PagamentoRequest) {
    && r.dataPagamento.Some?
    && r.valorPago.Some? && Positive(r.valorPago)
    && r.tipoPagamento.Some? && TipoPattern(r.tipoPagamento)
    && r.emprestimoId.Some?
  }

  /** A request that passes validation has a phone made of digits only, and its note is
      never what decides validity. */
  lemma BeneficiarioRequestValidFacts(r: BeneficiarioRequest, note: Option<string>)
    requires BeneficiarioRequestValid(r)
    ensures OnlyDigits(r.numeroTelefone) && 10 <= |r.numeroTelefone.value| <= 15
    ensures BeneficiarioRequestValid(r.(observacao := note))
  {
  }

  /** Blank names and phones are refused whatever else the request holds. */
  lemma BlankRejected(r: BeneficiarioRequest)
    requires r.nome.Some? && forall i | 0 <= i < |r.nome.value| :: IsWhitespace(r.nome.value[i])
    ensures !BeneficiarioRequestValid(r)
  {
  }

  /** The all-null requests are rejected. */
  lemma EmptyRequestsRejected()
    ensures !BeneficiarioRequestValid(BeneficiarioRequest(None, None, None))
    ensures !EmprestimoRequestValid(EmprestimoRequest(None, None, None, None, None, None))
    ensures !PagamentoRequestValid(PagamentoRequest(None, None, None, None))
  {
  }

  /** The fixture borrower "Erick Marques", phone "081988888888", passes validation. */
  lemma FixtureRequestValid()
    ensures BeneficiarioRequestValid(BeneficiarioRequest(Some("Erick Marques"), Some("081988888888"), Some("Observação de teste")))
  {
    var n := "Erick Marques";
    assert !IsWhitespace(n[0]);
    var t := "081988888888";
    assert !IsWhitespace(t[0]);
  }

  // ---------------------------------------------------------------------------
  // Responses
  // ---------------------------------------------------------------------------

  /** What a client sees of a borrower: everything but the image. */
  datatype BeneficiarioResponse = BeneficiarioResponse(
    id: int,
    nome: string,
    numeroTelefone: string,
    dataCriacao: Option<LocalDateTime>,
    dataAtualizacao: Option<LocalDateTime>,
    observacao: Option<string>)

  /** A loan with its borrower nested. */
  datatype EmprestimoResponse = EmprestimoResponse(
    id: int,
    dataEmprestimo: LocalDateTime,
    dataPagamento: LocalDateTime,
    valorEmprestimo: real,
    porcentagem: real,
    quitado: bool,
    beneficiario: Option<BeneficiarioResponse>,
    dataCriacao: Option<LocalDateTime>,
    dataAtualizacao: Option<LocalDateTime>,
    observacao: Option<string>)

  /** A payment with its loan nested. */
  datatype PagamentoResponse = PagamentoResponse(
    id: int,
    dataPagamento: LocalDateTime,
    valorPago: real,
    tipoPagamento: TipoPagamento,
    emprestimo: Option<EmprestimoResponse>,
    dataCriacao: Option<LocalDateTime>,
    dataAtualizacao: Option<LocalDateTime>,
    observacao: Option<string>)
}
