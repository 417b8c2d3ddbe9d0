/** Copies a payment request onto a payment object through its setters, turning the
    payment kind's text into the enum, and projects a stored payment, with its loan and
    that loan's borrower, onto its response. */
module PagamentoMapper {
  import opened Common
  import opened Utils
  import opened Model
  import opened Dto
  import EmprestimoMapper

  /** `TipoPagamento.valueOf`: the constant whose name is exactly the text. A null text
      raises a NullPointerException, which nothing catches (500); any other unknown name
      raises the IllegalArgumentException that becomes BAD_REQUEST. */
  function ConvertToEnum(s: Option<string>): (r: Result<TipoPagamento>)
    ensures r.Err? ==> (r.error.status == InternalServerError <==> s.None?)
    ensures r.Err? && s.Some? ==> r.error == Error(BadRequest, TipoPagamentoInvalido)
  {
    match s
    case None => Err(Error(InternalServerError, NullPointer))
    case Some(t) =>
      if t == "TOTAL" then Ok(TOTAL)
      else if t == "JUROS" then Ok(JUROS)
      else if t == "ACORDO" then Ok(ACORDO)
      else Err(Error(BadRequest, TipoPagamentoInvalido))
  }

  /** Every constant is found by its own name. */
  lemma ConvertToEnumName(t: TipoPagamento)
    ensures ConvertToEnum(Some(Name(t))) == Ok(t)
  {
  }

  /** And only by it: a text that converts is the name of what it converts to. */
  lemma ConvertToEnumOnlyNames(s: Option<string>)
    requires ConvertToEnum(s).Ok?
    ensures s == Some(Name(ConvertToEnum(s).value))
  {
  }

  /** The `@Pattern` on the request admits exactly the texts that convert: a validated
      request never fails the conversion. */
  lemma TipoPatternConverts(s: Option<string>)
    ensures s.Some? && TipoPattern(s) <==> ConvertToEnum(s).Ok?
  {
  }

  /** Sets the date, then the amount, then the kind, then the loan. A date that does not
      parse ends the copy with nothing written; a kind that does not convert ends it
      after the date and the amount are written. Id, timestamps and note are never
      touched. */
  method AtualizarCampos(p: PagamentoEntity, dto: PagamentoRequest, emprestimo: Option<Emprestimo>)
    returns (r: Result<PagamentoEntity>)
    modifies p
    ensures !DateParses(dto.dataPagamento) ==> r == Err(Error(BadRequest, DataInvalida)) && unchanged(p)
    ensures DateParses(dto.dataPagamento) ==>
      p.dataPagamento == ConvertStringToLocalDateTime(dto.dataPagamento) && p.valorPago == dto.valorPago
    ensures DateParses(dto.dataPagamento) && ConvertToEnum(dto.tipoPagamento).Err? ==>
      r == Err(ConvertToEnum(dto.tipoPagamento).error)
      && p.tipoPagamento == old(p.tipoPagamento) && p.emprestimo == old(p.emprestimo)
    ensures r.Ok? <==> DateParses(dto.dataPagamento) && ConvertToEnum(dto.tipoPagamento).Ok?
    ensures r.Ok? ==> r.value == p && p.tipoPagamento == Some(ConvertToEnum(dto.tipoPagamento).value)
    ensures r.Ok? ==> p.emprestimo == emprestimo
    ensures p.id == old(p.id) && p.observacao == old(p.observacao)
    ensures p.dataCriacao == old(p.dataCriacao) && p.dataAtualizacao == old(p.dataAtualizacao)
    ensures r.Ok? && PagamentoRequestValid(dto) && emprestimo.Some? ==> p.Persistable()
  {
    var d := ConvertStringToLocalDateTime(dto.dataPagamento);
    if d.None? {
      return Err(Error(BadRequest, DataInvalida));
    }
    p.dataPagamento := d;
    p.valorPago := dto.valorPago;
    var tipo := ConvertToEnum(dto.tipoPagamento);
    if tipo.Err? {
      return Err(tipo.error);
    }
    p.tipoPagamento := Some(tipo.value);
    p.emprestimo := emprestimo;
    return Ok(p);
  }

  /** The object holds every field the request sets, converted. */
  predicate Holds(p: PagamentoEntity, dto: PagamentoRequest, emprestimo: Option<Emprestimo>)
    reads p
  {
    && p.dataPagamento == ConvertStringToLocalDateTime(dto.dataPagamento)
    && p.valorPago == dto.valorPago
    && ConvertToEnum(dto.tipoPagamento).Ok? && p.tipoPagamento == Some(ConvertToEnum(dto.tipoPagamento).value)
    && p.emprestimo == emprestimo
  }

  /** A new payment object filled from the request, or null for a null request. */
  method ParaEntidade(dto: Option<PagamentoRequest>, emprestimo: Option<Emprestimo>)
    returns (r: Result<PagamentoEntity?>)
    ensures dto.None? ==> r == Ok(null)
    ensures dto.Some? ==> (r.Ok? <==> DateParses(dto.value.dataPagamento) && ConvertToEnum(dto.value.tipoPagamento).Ok?)
    ensures dto.Some? && r.Err? ==>
      r.error == if DateParses(dto.value.dataPagamento) then ConvertToEnum(dto.value.tipoPagamento).error else Error(BadRequest, DataInvalida)
    ensures dto.Some? && r.Ok? ==> r.value != null && fresh(r.value) && Holds(r.value, dto.value, emprestimo)
    ensures dto.Some? && r.Ok? ==> r.value.id.None? && r.value.observacao.None?
    ensures dto.Some? && r.Ok? ==> r.value.dataCriacao.None? && r.value.dataAtualizacao.None?
    ensures dto.Some? && r.Ok? && PagamentoRequestValid(dto.value) && emprestimo.Some? ==> r.value.Persistable()
  {
    if dto.None? {
      return Ok(null);
    }
    var p := new PagamentoEntity();
    var res := AtualizarCampos(p, dto.value, emprestimo);
    match res
    case Err(err) => r := Err(err);
    case Ok(x) => r := Ok(x);
  }

  /** The given payment object refilled from the request, or null (the object untouched)
      for a null request. */
  method ParaEntidadeAtualizar(p: PagamentoEntity, dto: Option<PagamentoRequest>, emprestimo: Option<Emprestimo>)
    returns (r: Result<PagamentoEntity?>)
    modifies p
    ensures dto.None? ==> r == Ok(null) && unchanged(p)
    ensures dto.Some? ==> (r.Ok? <==> DateParses(dto.value.dataPagamento) && ConvertToEnum(dto.value.tipoPagamento).Ok?)
    ensures dto.Some? && r.Err? ==>
      r.error == if DateParses(dto.value.dataPagamento) then ConvertToEnum(dto.value.tipoPagamento).error else Error(BadRequest, DataInvalida)
    ensures dto.Some? && r.Ok? ==> r.value == p && Holds(p, dto.value, emprestimo)
    ensures p.id == old(p.id) && p.observacao == old(p.observacao)
    ensures p.dataCriacao == old(p.dataCriacao) && p.dataAtualizacao == old(p.dataAtualizacao)
    ensures dto.Some? && r.Ok? && PagamentoRequestValid(dto.value) && emprestimo.Some? ==> p.Persistable()
  {
    if dto.None? {
      return Ok(null);
    }
    var res := AtualizarCampos(p, dto.value, emprestimo);
    match res
    case Err(err) => r := Err(err);
    case Ok(x) => r := Ok(x);
  }

  /** The response for a payment, with its loan (looked up among `emprestimos`, its
      borrower among `beneficiarios`) as a nested response; null for null. */
  function ParaDto(p: Option<Pagamento>, emprestimos: map<int, Emprestimo>, beneficiarios: map<int, Beneficiario>)
    : (r: Option<PagamentoResponse>)
    ensures r.None? <==> p.None?
    ensures r.Some? ==> (r.value.emprestimo.Some? <==> p.value.emprestimoId in emprestimos)
  {
    match p
    case None => None
    case Some(x) =>
      Some(PagamentoResponse(x.id, x.dataPagamento, x.valorPago, x.tipoPagamento,
                             EmprestimoMapper.ParaDto(Get(emprestimos, x.emprestimoId), beneficiarios),
                             x.dataCriacao, x.dataAtualizacao, x.observacao))
  }

  /** A response loses nothing of a payment whose loan is stored: two such payments with
      the same response are the same payment. */
  lemma ParaDtoInjective(x: Pagamento, y: Pagamento, emprestimos: map<int, Emprestimo>, beneficiarios: map<int, Beneficiario>)
    requires forall k | k in emprestimos :: emprestimos[k].id == k
    requires x.emprestimoId in emprestimos && y.emprestimoId in emprestimos
    requires ParaDto(Some(x), emprestimos, beneficiarios) == ParaDto(Some(y), emprestimos, beneficiarios)
    ensures x == y
  {
    assert emprestimos[x.emprestimoId].id == emprestimos[y.emprestimoId].id;
  }
}
