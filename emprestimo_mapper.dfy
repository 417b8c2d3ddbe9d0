/** Copies a loan request onto a loan object through its setters, and projects a stored
    loan, with its borrower, onto its response. */
module EmprestimoMapper {
  import opened Common
  import opened Utils
  import opened Model
  import opened Dto
  import BeneficiarioMapper

  /** Sets the two dates, then the amount, the rate, the settled flag and the borrower.
      A date that does not parse ends the copy with BAD_REQUEST "data.invalida"; the loan
      date is already written when only the due date fails. Id, timestamps and note are
      never touched. */
  method AtualizarCampos(e: EmprestimoEntity, dto: EmprestimoRequest, beneficiario: Option<Beneficiario>)
    returns (r: Result<EmprestimoEntity>)
    modifies e
    ensures r.Ok? <==> DateParses(dto.dataEmprestimo) && DateParses(dto.dataPagamento)
    ensures r.Ok? ==> r.value == e
    ensures r.Err? ==> r.error == Error(BadRequest, DataInvalida)
    ensures e.dataEmprestimo == if DateParses(dto.dataEmprestimo) then ConvertStringToLocalDateTime(dto.dataEmprestimo) else old(e.dataEmprestimo)
    ensures e.dataPagamento == if r.Ok? then ConvertStringToLocalDateTime(dto.dataPagamento) else old(e.dataPagamento)
    ensures r.Ok? ==> e.valorEmprestimo == dto.valorEmprestimo && e.porcentagem == dto.porcentagem
    ensures r.Ok? ==> e.quitado == dto.quitado && e.beneficiario == beneficiario
    ensures r.Err? ==> e.valorEmprestimo == old(e.valorEmprestimo) && e.porcentagem == old(e.porcentagem)
    ensures r.Err? ==> e.quitado == old(e.quitado) && e.beneficiario == old(e.beneficiario)
    ensures e.id == old(e.id) && e.observacao == old(e.observacao)
    ensures e.dataCriacao == old(e.dataCriacao) && e.dataAtualizacao == old(e.dataAtualizacao)
    ensures r.Ok? && EmprestimoRequestValid(dto) && beneficiario.Some? ==> e.Persistable()
  {
    var d1 := ConvertStringToLocalDateTime(dto.dataEmprestimo);
    if d1.None? {
      return Err(Error(BadRequest, DataInvalida));
    }
    e.dataEmprestimo := d1;
    var d2 := ConvertStringToLocalDateTime(dto.dataPagamento);
    if d2.None? {
      return Err(Error(BadRequest, DataInvalida));
    }
    e.dataPagamento := d2;
    e.valorEmprestimo := dto.valorEmprestimo;
    e.porcentagem := dto.porcentagem;
    e.quitado := dto.quitado;
    e.beneficiario := beneficiario;
    return Ok(e);
  }

  /** A new loan object filled from the request, or null for a null request. */
  method ParaEntidade(dto: Option<EmprestimoRequest>, beneficiario: Option<Beneficiario>)
    returns (r: Result<EmprestimoEntity?>)
    ensures dto.None? ==> r == Ok(null)
    ensures dto.Some? ==> (r.Ok? <==> DateParses(dto.value.dataEmprestimo) && DateParses(dto.value.dataPagamento))
    ensures r.Err? ==> r.error == Error(BadRequest, DataInvalida)
    ensures dto.Some? && r.Ok? ==> r.value != null && fresh(r.value)
    ensures dto.Some? && r.Ok? ==> Holds(r.value, dto.value, beneficiario)
    ensures dto.Some? && r.Ok? ==> r.value.id.None? && r.value.observacao.None?
    ensures dto.Some? && r.Ok? ==> r.value.dataCriacao.None? && r.value.dataAtualizacao.None?
    ensures dto.Some? && r.Ok? && EmprestimoRequestValid(dto.value) && beneficiario.Some? ==> r.value.Persistable()
  {
    if dto.None? {
      return Ok(null);
    }
    var e := new EmprestimoEntity();
    var res := AtualizarCampos(e, dto.value, beneficiario);
    match res
    case Err(err) => r := Err(err);
    case Ok(x) => r := Ok(x);
  }

  /** The given loan object refilled from the request, or null (the object untouched)
      for a null request. */
  method ParaEntidadeAtualizar(e: EmprestimoEntity, dto: Option<EmprestimoRequest>, beneficiario: Option<Beneficiario>)
    returns (r: Result<EmprestimoEntity?>)
    modifies e
    ensures dto.None? ==> r == Ok(null) && unchanged(e)
    ensures dto.Some? ==> (r.Ok? <==> DateParses(dto.value.dataEmprestimo) && DateParses(dto.value.dataPagamento))
    ensures r.Err? ==> r.error == Error(BadRequest, DataInvalida)
    ensures dto.Some? && r.Ok? ==> r.value == e && Holds(e, dto.value, beneficiario)
    ensures e.id == old(e.id) && e.observacao == old(e.observacao)
    ensures e.dataCriacao == old(e.dataCriacao) && e.dataAtualizacao == old(e.dataAtualizacao)
    ensures dto.Some? && r.Ok? && EmprestimoRequestValid(dto.value) && beneficiario.Some? ==> e.Persistable()
  {
    if dto.None? {
      return Ok(null);
    }
    var res := AtualizarCampos(e, dto.value, beneficiario);
    match res
    case Err(err) => r := Err(err);
    case Ok(x) => r := Ok(x);
  }

  /** The object holds every field the request sets, converted. */
  predicate Holds(e: EmprestimoEntity, dto: EmprestimoRequest, beneficiario: Option<Beneficiario>)
    reads e
  {
    && e.dataEmprestimo == ConvertStringToLocalDateTime(dto.dataEmprestimo)
    && e.dataPagamento == ConvertStringToLocalDateTime(dto.dataPagamento)
    && e.valorEmprestimo == dto.valorEmprestimo && e.porcentagem == dto.porcentagem
    && e.quitado == dto.quitado && e.beneficiario == beneficiario
  }

  /** The response for a loan, with its borrower (looked up among `beneficiarios`) as a
      nested response; null for null. */
  function ParaDto(e: Option<Emprestimo>, beneficiarios: map<int, Beneficiario>): (r: Option<EmprestimoResponse>)
    ensures r.None? <==> e.None?
    ensures r.Some? ==> (r.value.beneficiario.Some? <==> e.value.beneficiarioId in beneficiarios)
  {
    match e
    case None => None
    case Some(x) =>
      Some(EmprestimoResponse(x.id, x.dataEmprestimo, x.dataPagamento, x.valorEmprestimo, x.porcentagem, x.quitado,
                              BeneficiarioMapper.ParaDto(Get(beneficiarios, x.beneficiarioId)),
                              x.dataCriacao, x.dataAtualizacao, x.observacao))
  }

  /** A response loses nothing of a loan whose borrower is stored: two such loans with the
      same response are the same loan. */
  lemma ParaDtoInjective(x: Emprestimo, y: Emprestimo, beneficiarios: map<int, Beneficiario>)
    requires forall k | k in beneficiarios :: beneficiarios[k].id == k
    requires x.beneficiarioId in beneficiarios && y.beneficiarioId in beneficiarios
    requires ParaDto(Some(x), beneficiarios) == ParaDto(Some(y), beneficiarios)
    ensures x == y
  {
    assert beneficiarios[x.beneficiarioId].id == beneficiarios[y.beneficiarioId].id;
  }
}
