/** Copies a borrower request onto a borrower object through its setters, and projects a
    stored borrower onto its response. */
module BeneficiarioMapper {
  import opened Common
  import opened Model
  import opened Dto

  /** Overwrites name, phone and note with the request's, null or not, and touches
      nothing else; the same object is handed back. */
  method AtualizarCampos(b: BeneficiarioEntity, dto: BeneficiarioRequest) returns (r: BeneficiarioEntity)
    modifies b
    ensures r == b
    ensures b.nome == dto.nome && b.numeroTelefone == dto.numeroTelefone && b.observacao == dto.observacao
    ensures b.id == old(b.id) && b.imagem == old(b.imagem)
    ensures b.dataCriacao == old(b.dataCriacao) && b.dataAtualizacao == old(b.dataAtualizacao)
  {
    b.nome := dto.nome;
    b.numeroTelefone := dto.numeroTelefone;
    b.observacao := dto.observacao;
    return b;
  }

  /** A new borrower object holding the request's fields, or null for a null request. */
  method ParaEntidade(dto: Option<BeneficiarioRequest>) returns (r: BeneficiarioEntity?)
    ensures r == null <==> dto.None?
    ensures r != null ==> fresh(r)
    ensures r != null ==> r.nome == dto.value.nome && r.numeroTelefone == dto.value.numeroTelefone && r.observacao == dto.value.observacao
    ensures r != null ==> r.id.None? && r.imagem.None? && r.dataCriacao.None? && r.dataAtualizacao.None?
  {
    if dto.None? {
      return null;
    }
    var b := new BeneficiarioEntity();
    r := AtualizarCampos(b, dto.value);
  }

  /** The given object with the request's fields, or null (and the object untouched) for
      a null request. */
  method ParaEntidadeAtualizar(b: BeneficiarioEntity, dto: Option<BeneficiarioRequest>) returns (r: BeneficiarioEntity?)
    modifies b
    ensures dto.None? ==> r == null && unchanged(b)
    ensures dto.Some? ==> r == b
    ensures dto.Some? ==> b.nome == dto.value.nome && b.numeroTelefone == dto.value.numeroTelefone && b.observacao == dto.value.observacao
    ensures b.id == old(b.id) && b.imagem == old(b.imagem)
    ensures b.dataCriacao == old(b.dataCriacao) && b.dataAtualizacao == old(b.dataAtualizacao)
  {
    if dto.None? {
      return null;
    }
    r := AtualizarCampos(b, dto.value);
  }

  /** The response for a borrower: every field but the image; null for null. */
  function ParaDto(b: Option<Beneficiario>): (r: Option<BeneficiarioResponse>)
    ensures r.None? <==> b.None?
  {
    match b
    case None => None
    case Some(x) => Some(BeneficiarioResponse(x.id, x.nome, x.numeroTelefone, x.dataCriacao, x.dataAtualizacao, x.observacao))
  }

  /** A response shows all of a borrower but the image: two borrowers have the same
      response exactly when they differ at most in their images. */
  lemma ParaDtoHidesOnlyImage(x: Beneficiario, y: Beneficiario)
    ensures ParaDto(Some(x)) == ParaDto(Some(y)) <==> x.(imagem := y.imagem) == y
  {
  }
}
