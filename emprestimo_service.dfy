/** `EmprestimoService`: create, update, delete and read loans. The loan table is the
    service's `emprestimos` map, from id to row; `nextId` is the identity generator. A
    loan's borrower is resolved through the borrower service it is built with. Every
    write runs in a transaction, so a call that ends in an error leaves the table as it
    found it. */
module EmprestimoService {
  import opened Common
  import opened Utils
  import opened Query
  import opened Model
  import opened Dto
  import EmprestimoMapper
  import BeneficiarioService

  /** The fields `save` demands of a loan built from the request, besides the dates and
      the borrower: an amount above zero, a rate not below zero and the settled flag. */
  predicate Admissible(dto: EmprestimoRequest) {
    && dto.valorEmprestimo.Some? && dto.valorEmprestimo.value > 0.0
    && dto.porcentagem.Some? && dto.porcentagem.value >= 0.0
    && dto.quitado.Some?
  }

  /** A request that passes validation is admissible: the entity constraints repeat the
      request's. */
  lemma ValidRequestAdmissible(dto: EmprestimoRequest)
    requires EmprestimoRequestValid(dto)
    ensures Admissible(dto) && dto.beneficiarioId.Some?
  {
  }

  /** A stored loan after a request overwrites every field it carries; the borrower is
      `b`. Id, timestamps and note are kept. */
  function Filled(e: Emprestimo, dto: EmprestimoRequest, b: Beneficiario): (r: Emprestimo)
    requires DateParses(dto.dataEmprestimo) && DateParses(dto.dataPagamento) && Admissible(dto)
    ensures EmprestimoValid(r)
  {
    e.(dataEmprestimo := ConvertStringToLocalDateTime(dto.dataEmprestimo).value,
       dataPagamento := ConvertStringToLocalDateTime(dto.dataPagamento).value,
       valorEmprestimo := dto.valorEmprestimo.value, porcentagem := dto.porcentagem.value,
       quitado := dto.quitado.value, beneficiarioId := b.id)
  }

  /** The row a request creates under key `k`: its fields, no timestamps, no note. */
  function NewRow(k: int, dto: EmprestimoRequest, b: Beneficiario): (r: Emprestimo)
    requires DateParses(dto.dataEmprestimo) && DateParses(dto.dataPagamento) && Admissible(dto)
    ensures EmprestimoValid(r) && r.id == k && r.beneficiarioId == b.id
  {
    Filled(Emprestimo(k, ConvertStringToLocalDateTime(dto.dataEmprestimo).value,
                      ConvertStringToLocalDateTime(dto.dataPagamento).value, 0.0, 0.0, false, b.id, None, None, None),
           dto, b)
  }

  class EmprestimoService {
    const beneficiarioService: BeneficiarioService.BeneficiarioService
    var emprestimos: map<int, Emprestimo>
    var nextId: int

    /** Every row is stored under its own id and meets the loan constraints, and the
        generator is past every id. */
    ghost predicate Valid()
      reads this, beneficiarioService
    {
      && beneficiarioService.Valid()
      && nextId >= 1
      && forall k | k in emprestimos :: 1 <= k < nextId && emprestimos[k].id == k && EmprestimoValid(emprestimos[k])
    }

    constructor (beneficiarioService: BeneficiarioService.BeneficiarioService)
      requires beneficiarioService.Valid()
      ensures Valid() && this.beneficiarioService == beneficiarioService
      ensures emprestimos == map[] && nextId == 1
    {
      this.beneficiarioService := beneficiarioService;
      emprestimos := map[];
      nextId := 1;
    }

    /** The response for a stored loan, its borrower looked up among the stored borrowers. */
    function Response(e: Emprestimo): EmprestimoResponse
      reads beneficiarioService
    {
      EmprestimoMapper.ParaDto(Some(e), beneficiarioService.beneficiarios).value
    }

    /** `findAll`: the stored rows, by id. */
    function FindAll(): (r: seq<Emprestimo>)
      reads this, beneficiarioService
      requires Valid()
      ensures |r| == |emprestimos|
      ensures forall e :: e in r <==> e in emprestimos.Values
    {
      ListingAll(emprestimos, 1, nextId);
      Listing(emprestimos, 1, nextId)
    }

    /** The borrower a request names: `obterBeneficiario(String.valueOf(beneficiarioId))`. */
    function Borrower(dto: EmprestimoRequest): (r: Result<Beneficiario>)
      reads beneficiarioService
      requires beneficiarioService.Valid()
      ensures dto.beneficiarioId.None? ==> r == Err(Error(InternalServerError, NumberFormat))
      ensures dto.beneficiarioId.Some? && dto.beneficiarioId.value !in beneficiarioService.beneficiarios ==>
        r == Err(Error(NotFound, BeneficiarioNaoExiste))
      ensures r.Ok? <==> dto.beneficiarioId.Some? && dto.beneficiarioId.value in beneficiarioService.beneficiarios
      ensures r.Ok? ==> r.value == beneficiarioService.beneficiarios[dto.beneficiarioId.value]
    {
      LongValueOfStringValueOf(dto.beneficiarioId);
      beneficiarioService.ObterBeneficiario(Some(StringValueOf(dto.beneficiarioId)))
    }

    /** `validarId`: BAD_REQUEST "emprestimo.idInvalido" unless the id is made of digits. */
    method ValidarId(id: Option<string>) returns (r: Result<()>)
      ensures r.Ok? <==> OnlyDigits(id)
      ensures r.Err? ==> r.error == Error(BadRequest, EmprestimoIdInvalido)
    {
      var ok := ContemApenasNumeros(id);
      if !ok {
        return Err(Error(BadRequest, EmprestimoIdInvalido));
      }
      return Ok(());
    }

    /** `obterEmprestimo`: `Long.valueOf` (a NumberFormatException, 500, when the text is
        not a 64-bit number) then `findById`, NOT_FOUND "emprestimo.naoExiste" when no row
        has that id. */
    function ObterEmprestimo(id: Option<string>): (r: Result<Emprestimo>)
      reads this, beneficiarioService
      requires Valid()
      ensures Key(id).None? ==> r == Err(Error(InternalServerError, NumberFormat))
      ensures Key(id).Some? && Key(id).value !in emprestimos ==>
        r == Err(Error(NotFound, EmprestimoNaoExiste))
      ensures r.Ok? <==> Key(id).Some? && Key(id).value in emprestimos
      ensures r.Ok? ==> r.value in emprestimos.Values && r.value.id == Key(id).value && EmprestimoValid(r.value)
    {
      match Key(id)
      case None => Err(Error(InternalServerError, NumberFormat))
      case Some(k) => if k in emprestimos then Ok(emprestimos[k]) else Err(Error(NotFound, EmprestimoNaoExiste))
    }

    /** `save`: a loan missing a NOT NULL field, with an amount not above zero or a
        negative rate is refused (500) and nothing is written. Otherwise an object whose
        id is stored replaces that row, and any other object gets the next id. */
    method Save(e: EmprestimoEntity) returns (r: Result<Emprestimo>)
      requires Valid()
      modifies this, e
      ensures Valid()
      ensures !old(e.Persistable()) ==>
        r == Err(Error(InternalServerError, ConstraintViolation)) && unchanged(this) && unchanged(e)
      ensures old(e.Persistable()) && old(e.id).Some? && old(e.id).value in old(emprestimos) ==>
        r == Ok(old(e.ToRow(e.id.value))) && emprestimos == old(emprestimos)[old(e.id.value) := r.value]
        && nextId == old(nextId) && e.id == old(e.id)
      ensures old(e.Persistable()) && !(old(e.id).Some? && old(e.id).value in old(emprestimos)) ==>
        r == Ok(old(e.ToRow(nextId))) && emprestimos == old(emprestimos)[old(nextId) := r.value]
        && nextId == old(nextId) + 1 && e.id == Some(old(nextId))
    {
      if !e.Persistable() {
        return Err(Error(InternalServerError, ConstraintViolation));
      }
      var k: int;
      if e.id.Some? && e.id.value in emprestimos {
        k := e.id.value;
      } else {
        k := nextId;
        nextId := nextId + 1;
        e.id := Some(k);
      }
      var row := e.ToRow(k);
      emprestimos := emprestimos[k := row];
      return Ok(row);
    }

    /** `inserir`: a null request fails on reading its borrower id (a
        NullPointerException, 500); then the borrower is resolved, the request copied
        into a new loan (dates that do not parse: BAD_REQUEST) and the loan saved under
        the next id. */
    method Inserir(requestDTO: Option<EmprestimoRequest>) returns (r: Result<EmprestimoResponse>)
      requires Valid()
      modifies this
      ensures Valid()
      ensures requestDTO.None? ==> r == Err(Error(InternalServerError, NullPointer))
      ensures requestDTO.Some? && Borrower(requestDTO.value).Err? ==> r == Err(Borrower(requestDTO.value).error)
      ensures (requestDTO.Some? && Borrower(requestDTO.value).Ok?
        && !(DateParses(requestDTO.value.dataEmprestimo) && DateParses(requestDTO.value.dataPagamento))) ==>
        r == Err(Error(BadRequest, DataInvalida))
      ensures (requestDTO.Some? && Borrower(requestDTO.value).Ok?
        && DateParses(requestDTO.value.dataEmprestimo) && DateParses(requestDTO.value.dataPagamento)
        && !Admissible(requestDTO.value)) ==>
        r == Err(Error(InternalServerError, ConstraintViolation))
      ensures r.Ok? <==> (requestDTO.Some? && Borrower(requestDTO.value).Ok?
        && DateParses(requestDTO.value.dataEmprestimo) && DateParses(requestDTO.value.dataPagamento)
        && Admissible(requestDTO.value))
      ensures r.Err? ==> emprestimos == old(emprestimos) && nextId == old(nextId)
      ensures r.Ok? ==> (nextId == old(nextId) + 1
        && emprestimos == old(emprestimos)[old(nextId) := NewRow(old(nextId), requestDTO.value, Borrower(requestDTO.value).value)]
        && r.value == Response(emprestimos[old(nextId)]))
      ensures r.Ok? ==> FindAll() == old(FindAll()) + [emprestimos[old(nextId)]]
    {
      if requestDTO.None? {
        return Err(Error(InternalServerError, NullPointer));
      }
      var dto := requestDTO.value;
      var b := Borrower(dto);
      if b.Err? {
        return Err(b.error);
      }
      var mapped := EmprestimoMapper.ParaEntidade(requestDTO, Some(b.value));
      if mapped.Err? {
        return Err(mapped.error);
      }
      var e: EmprestimoEntity := mapped.value;
      var saved := Save(e);
      if saved.Err? {
        return Err(saved.error);
      }
      ListingSnoc(old(emprestimos), 1, old(nextId), saved.value);
      return Ok(Response(saved.value));
    }

    /** `atualizar`: validate the id; a null request fails on reading its borrower id
        (500); resolve the borrower, then the loan; copy the request onto the loan and
        save it in place. */
    method Atualizar(id: Option<string>, requestDTO: Option<EmprestimoRequest>) returns (r: Result<EmprestimoResponse>)
      requires Valid()
      modifies this
      ensures Valid()
      ensures !OnlyDigits(id) ==> r == Err(Error(BadRequest, EmprestimoIdInvalido))
      ensures OnlyDigits(id) && requestDTO.None? ==> r == Err(Error(InternalServerError, NullPointer))
      ensures OnlyDigits(id) && requestDTO.Some? && Borrower(requestDTO.value).Err? ==> r == Err(Borrower(requestDTO.value).error)
      ensures OnlyDigits(id) && requestDTO.Some? && Borrower(requestDTO.value).Ok? && old(ObterEmprestimo(id)).Err? ==>
        r == Err(old(ObterEmprestimo(id)).error)
      ensures (OnlyDigits(id) && requestDTO.Some? && Borrower(requestDTO.value).Ok? && old(ObterEmprestimo(id)).Ok?
        && !(DateParses(requestDTO.value.dataEmprestimo) && DateParses(requestDTO.value.dataPagamento))) ==>
        r == Err(Error(BadRequest, DataInvalida))
      ensures (OnlyDigits(id) && requestDTO.Some? && Borrower(requestDTO.value).Ok? && old(ObterEmprestimo(id)).Ok?
        && DateParses(requestDTO.value.dataEmprestimo) && DateParses(requestDTO.value.dataPagamento)
        && !Admissible(requestDTO.value)) ==>
        r == Err(Error(InternalServerError, ConstraintViolation))
      ensures r.Ok? <==> (OnlyDigits(id) && requestDTO.Some? && Borrower(requestDTO.value).Ok? && old(ObterEmprestimo(id)).Ok?
        && DateParses(requestDTO.value.dataEmprestimo) && DateParses(requestDTO.value.dataPagamento)
        && Admissible(requestDTO.value))
      ensures r.Err? ==> emprestimos == old(emprestimos) && nextId == old(nextId)
      ensures r.Ok? ==> (nextId == old(nextId)
        && var k := Key(id).value;
           k in old(emprestimos)
           && emprestimos == old(emprestimos)[k := Filled(old(emprestimos)[k], requestDTO.value, Borrower(requestDTO.value).value)]
           && r.value == Response(emprestimos[k]))
      ensures r.Ok? ==> |FindAll()| == |old(FindAll())|
    {
      var valid := ValidarId(id);
      if valid.Err? {
        return Err(valid.error);
      }
      if requestDTO.None? {
        return Err(Error(InternalServerError, NullPointer));
      }
      var b := Borrower(requestDTO.value);
      if b.Err? {
        return Err(b.error);
      }
      var found := ObterEmprestimo(id);
      if found.Err? {
        return Err(found.error);
      }
      var row := found.value;
      var e := new EmprestimoEntity.Load(row, Get(beneficiarioService.beneficiarios, row.beneficiarioId));
      var mapped := EmprestimoMapper.ParaEntidadeAtualizar(e, requestDTO, Some(b.value));
      if mapped.Err? {
        return Err(mapped.error);
      }
      var saved := Save(e);
      if saved.Err? {
        return Err(saved.error);
      }
      ListingReplaceRemove(old(emprestimos), 1, nextId, row.id, saved.value);
      return Ok(Response(saved.value));
    }

    /** `remover`: validate the id, load the loan, delete it. */
    method Remover(id: Option<string>) returns (r: Result<()>)
      requires Valid()
      modifies this
      ensures Valid()
      ensures !OnlyDigits(id) ==> r == Err(Error(BadRequest, EmprestimoIdInvalido))
      ensures OnlyDigits(id) && old(ObterEmprestimo(id)).Err? ==> r == Err(old(ObterEmprestimo(id)).error)
      ensures r.Ok? <==> OnlyDigits(id) && old(ObterEmprestimo(id)).Ok?
      ensures r.Err? ==> emprestimos == old(emprestimos)
      ensures r.Ok? ==> (Key(id).value in old(emprestimos)
        && emprestimos == old(emprestimos) - {Key(id).value})
      ensures r.Ok? ==> |FindAll()| == |old(FindAll())| - 1
      ensures nextId == old(nextId)
    {
      var valid := ValidarId(id);
      if valid.Err? {
        return Err(valid.error);
      }
      var found := ObterEmprestimo(id);
      if found.Err? {
        return Err(found.error);
      }
      ListingReplaceRemove(emprestimos, 1, nextId, found.value.id, found.value);
      emprestimos := emprestimos - {found.value.id};
      return Ok(());
    }

    /** `buscarTodos`: every stored loan as a response, by id. */
    function BuscarTodos(): (r: seq<EmprestimoResponse>)
      reads this, beneficiarioService
      requires Valid()
      ensures |r| == |emprestimos|
      ensures forall e | e in emprestimos.Values :: Response(e) in r
      ensures forall x | x in r :: exists e | e in emprestimos.Values :: x == Response(e)
      ensures |r| == |FindAll()| && forall i | 0 <= i < |r| :: r[i] == Response(FindAll()[i])
    {
      var rows := FindAll();
      var r := seq(|rows|, i reads beneficiarioService requires 0 <= i < |rows| => Response(rows[i]));
      assert forall e | e in emprestimos.Values :: Response(e) in r by {
        forall e | e in emprestimos.Values ensures Response(e) in r {
          var i :| 0 <= i < |rows| && rows[i] == e;
          assert r[i] == Response(e);
        }
      }
      r
    }

    /** `buscarPorId`: validate the id, load the loan, answer with its response. */
    method BuscarPorId(id: Option<string>) returns (r: Result<EmprestimoResponse>)
      requires Valid()
      ensures !OnlyDigits(id) ==> r == Err(Error(BadRequest, EmprestimoIdInvalido))
      ensures OnlyDigits(id) ==> r == (match ObterEmprestimo(id) case Ok(e) => Ok(Response(e)) case Err(err) => Err(err))
      ensures r.Ok? ==> exists e | e in emprestimos.Values :: r.value == Response(e) && e.id == Key(id).value
    {
      var valid := ValidarId(id);
      if valid.Err? {
        return Err(valid.error);
      }
      var found := ObterEmprestimo(id);
      if found.Err? {
        return Err(found.error);
      }
      return Ok(Response(found.value));
    }
  }
}
