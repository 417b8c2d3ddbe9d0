/** `PagamentoService`: create, update, delete and read payments. The payment table is
    the service's `pagamentos` map, from id to row; `nextId` is the identity generator. A
    payment's loan is resolved through the loan service it is built with. Every write
    runs in a transaction, so a call that ends in an error leaves the table as it found
    it. */
module PagamentoService {
  import opened Common
  import opened Utils
  import opened Query
  import opened Model
  import opened Dto
  import PagamentoMapper
  import PagamentoRepository
  import EmprestimoService

  /** What `save` demands of a payment the mapper filled, besides what the mapper already
      checked: an amount. */
  predicate Admissible(dto: PagamentoRequest) {
    dto.valorPago.Some?
  }

  /** The request converts: its date parses and its kind names a constant. */
  predicate Converts(dto: PagamentoRequest) {
    DateParses(dto.dataPagamento) && PagamentoMapper.ConvertToEnum(dto.tipoPagamento).Ok?
  }

  /** A request that passes validation converts as soon as its date parses, and is
      admissible. */
  lemma ValidRequestConverts(dto: PagamentoRequest)
    requires PagamentoRequestValid(dto) && DateParses(dto.dataPagamento)
    ensures Converts(dto) && Admissible(dto) && dto.emprestimoId.Some?
  {
    PagamentoMapper.TipoPatternConverts(dto.tipoPagamento);
  }

  /** A stored payment after a request overwrites every field it carries; the loan is
      `e`. Id, timestamps and note are kept. */
  function Filled(p: Pagamento, dto: PagamentoRequest, e: Emprestimo): (r: Pagamento)
    requires Converts(dto) && Admissible(dto)
    ensures r.id == p.id && r.emprestimoId == e.id && r.valorPago == dto.valorPago.value
    ensures PagamentoMapper.ConvertToEnum(Some(Name(r.tipoPagamento))) == PagamentoMapper.ConvertToEnum(dto.tipoPagamento)
  {
    p.(dataPagamento := ConvertStringToLocalDateTime(dto.dataPagamento).value,
       valorPago := dto.valorPago.value,
       tipoPagamento := PagamentoMapper.ConvertToEnum(dto.tipoPagamento).value,
       emprestimoId := e.id)
  }

  /** The row a request creates under key `k`: its fields, no timestamps, no note. */
  function NewRow(k: int, dto: PagamentoRequest, e: Emprestimo): (r: Pagamento)
    requires Converts(dto) && Admissible(dto)
    ensures r.id == k && r.emprestimoId == e.id && r.valorPago == dto.valorPago.value
  {
    Filled(Pagamento(k, ConvertStringToLocalDateTime(dto.dataPagamento).value, 0.0,
                     PagamentoMapper.ConvertToEnum(dto.tipoPagamento).value, e.id, None, None, None),
           dto, e)
  }

  class PagamentoService {
    const emprestimoService: EmprestimoService.EmprestimoService
    var pagamentos: map<int, Pagamento>
    var nextId: int

    /** Every row is stored under its own id, and the generator is past every id. */
    ghost predicate Valid()
      reads this, emprestimoService, emprestimoService.beneficiarioService
    {
      && emprestimoService.Valid()
      && nextId >= 1
      && forall k | k in pagamentos :: 1 <= k < nextId && pagamentos[k].id == k
    }

    constructor (emprestimoService: EmprestimoService.EmprestimoService)
      requires emprestimoService.Valid()
      ensures Valid() && this.emprestimoService == emprestimoService
      ensures pagamentos == map[] && nextId == 1
    {
      this.emprestimoService := emprestimoService;
      pagamentos := map[];
      nextId := 1;
    }

    /** The response for a stored payment, its loan looked up among the stored loans and
        that loan's borrower among the stored borrowers. */
    function Response(p: Pagamento): PagamentoResponse
      reads emprestimoService, emprestimoService.beneficiarioService
    {
      PagamentoMapper.ParaDto(Some(p), emprestimoService.emprestimos, emprestimoService.beneficiarioService.beneficiarios).value
    }

    /** `findAll`: the stored rows, by id. */
    function FindAll(): (r: seq<Pagamento>)
      reads this, emprestimoService, emprestimoService.beneficiarioService
      requires Valid()
      ensures |r| == |pagamentos|
      ensures forall p :: p in r <==> p in pagamentos.Values
    {
      ListingAll(pagamentos, 1, nextId);
      Listing(pagamentos, 1, nextId)
    }

    /** The loan a request names: `obterEmprestimo(String.valueOf(emprestimoId))`. */
    function Loan(dto: PagamentoRequest): (r: Result<Emprestimo>)
      reads emprestimoService, emprestimoService.beneficiarioService
      requires emprestimoService.Valid()
      ensures dto.emprestimoId.None? ==> r == Err(Error(InternalServerError, NumberFormat))
      ensures dto.emprestimoId.Some? && dto.emprestimoId.value !in emprestimoService.emprestimos ==>
        r == Err(Error(NotFound, EmprestimoNaoExiste))
      ensures r.Ok? <==> dto.emprestimoId.Some? && dto.emprestimoId.value in emprestimoService.emprestimos
      ensures r.Ok? ==> r.value == emprestimoService.emprestimos[dto.emprestimoId.value]
    {
      LongValueOfStringValueOf(dto.emprestimoId);
      emprestimoService.ObterEmprestimo(Some(StringValueOf(dto.emprestimoId)))
    }

    /** `validarId`: BAD_REQUEST "pagamento.idInvalido" unless the id is made of digits. */
    method ValidarId(id: Option<string>) returns (r: Result<()>)
      ensures r.Ok? <==> OnlyDigits(id)
      ensures r.Err? ==> r.error == Error(BadRequest, PagamentoIdInvalido)
    {
      var ok := ContemApenasNumeros(id);
      if !ok {
        return Err(Error(BadRequest, PagamentoIdInvalido));
      }
      return Ok(());
    }

    /** `obterPagamento`: `Long.valueOf` (a NumberFormatException, 500, when the text is
        not a 64-bit number) then `findById`, NOT_FOUND "pagamento.naoExiste" when no row
        has that id. */
    function ObterPagamento(id: Option<string>): (r: Result<Pagamento>)
      reads this, emprestimoService, emprestimoService.beneficiarioService
      requires Valid()
      ensures Key(id).None? ==> r == Err(Error(InternalServerError, NumberFormat))
      ensures Key(id).Some? && Key(id).value !in pagamentos ==> r == Err(Error(NotFound, PagamentoNaoExiste))
      ensures r.Ok? <==> Key(id).Some? && Key(id).value in pagamentos
      ensures r.Ok? ==> r.value in pagamentos.Values && r.value.id == Key(id).value
    {
      match Key(id)
      case None => Err(Error(InternalServerError, NumberFormat))
      case Some(k) => if k in pagamentos then Ok(pagamentos[k]) else Err(Error(NotFound, PagamentoNaoExiste))
    }

    /** `save`: a payment missing a NOT NULL field is refused (500) and nothing is
        written. Otherwise an object whose id is stored replaces that row, and any other
        object gets the next id. */
    method Save(p: PagamentoEntity) returns (r: Result<Pagamento>)
      requires Valid()
      modifies this, p
      ensures Valid()
      ensures !old(p.Persistable()) ==>
        r == Err(Error(InternalServerError, ConstraintViolation)) && unchanged(this) && unchanged(p)
      ensures old(p.Persistable()) && old(p.id).Some? && old(p.id).value in old(pagamentos) ==>
        r == Ok(old(p.ToRow(p.id.value))) && pagamentos == old(pagamentos)[old(p.id.value) := r.value]
        && nextId == old(nextId) && p.id == old(p.id)
      ensures old(p.Persistable()) && !(old(p.id).Some? && old(p.id).value in old(pagamentos)) ==>
        r == Ok(old(p.ToRow(nextId))) && pagamentos == old(pagamentos)[old(nextId) := r.value]
        && nextId == old(nextId) + 1 && p.id == Some(old(nextId))
    {
      if !p.Persistable() {
        return Err(Error(InternalServerError, ConstraintViolation));
      }
      var k: int;
      if p.id.Some? && p.id.value in pagamentos {
        k := p.id.value;
      } else {
        k := nextId;
        nextId := nextId + 1;
        p.id := Some(k);
      }
      var row := p.ToRow(k);
      pagamentos := pagamentos[k := row];
      return Ok(row);
    }

    /** `inserir`: a null request fails on reading its loan id (a NullPointerException,
        500); then the loan is resolved, the request copied into a new payment (a date
        that does not parse or an unknown kind: BAD_REQUEST; a null kind: 500) and the
        payment saved under the next id (a null amount: 500). What the new row adds to its
        loan's total received is `PagamentoRepository.PaymentAddsToLoanTotal`. */
    method Inserir(requestDTO: Option<PagamentoRequest>) returns (r: Result<PagamentoResponse>)
      requires Valid()
      modifies this
      ensures Valid()
      ensures requestDTO.None? ==> r == Err(Error(InternalServerError, NullPointer))
      ensures requestDTO.Some? && Loan(requestDTO.value).Err? ==> r == Err(Loan(requestDTO.value).error)
      ensures (requestDTO.Some? && Loan(requestDTO.value).Ok? && !DateParses(requestDTO.value.dataPagamento)) ==>
        r == Err(Error(BadRequest, DataInvalida))
      ensures (requestDTO.Some? && Loan(requestDTO.value).Ok? && DateParses(requestDTO.value.dataPagamento)
        && PagamentoMapper.ConvertToEnum(requestDTO.value.tipoPagamento).Err?) ==>
        r == Err(PagamentoMapper.ConvertToEnum(requestDTO.value.tipoPagamento).error)
      ensures (requestDTO.Some? && Loan(requestDTO.value).Ok? && Converts(requestDTO.value)
        && !Admissible(requestDTO.value)) ==>
        r == Err(Error(InternalServerError, ConstraintViolation))
      ensures r.Ok? <==> (requestDTO.Some? && Loan(requestDTO.value).Ok? && Converts(requestDTO.value)
        && Admissible(requestDTO.value))
      ensures (requestDTO.Some? && PagamentoRequestValid(requestDTO.value) && Loan(requestDTO.value).Ok?
        && DateParses(requestDTO.value.dataPagamento)) ==> r.Ok?
      ensures r.Err? ==> pagamentos == old(pagamentos) && nextId == old(nextId)
      ensures r.Ok? ==> (nextId == old(nextId) + 1
        && pagamentos == old(pagamentos)[old(nextId) := NewRow(old(nextId), requestDTO.value, Loan(requestDTO.value).value)]
        && r.value == Response(pagamentos[old(nextId)]))
      ensures r.Ok? ==> FindAll() == old(FindAll()) + [pagamentos[old(nextId)]]
    {
      if requestDTO.None? {
        return Err(Error(InternalServerError, NullPointer));
      }
      var dto := requestDTO.value;
      if PagamentoRequestValid(dto) && DateParses(dto.dataPagamento) {
        ValidRequestConverts(dto);
      }
      var loan := Loan(dto);
      if loan.Err? {
        return Err(loan.error);
      }
      var mapped := PagamentoMapper.ParaEntidade(requestDTO, Some(loan.value));
      if mapped.Err? {
        return Err(mapped.error);
      }
      var p: PagamentoEntity := mapped.value;
      var saved := Save(p);
      if saved.Err? {
        return Err(saved.error);
      }
      ListingSnoc(old(pagamentos), 1, old(nextId), saved.value);
      return Ok(Response(saved.value));
    }

    /** `atualizar`: validate the id; a null request fails on reading its loan id (500);
        resolve the loan, then the payment; copy the request onto the payment and save it
        in place. */
    method Atualizar(id: Option<string>, requestDTO: Option<PagamentoRequest>) returns (r: Result<PagamentoResponse>)
      requires Valid()
      modifies this
      ensures Valid()
      ensures !OnlyDigits(id) ==> r == Err(Error(BadRequest, PagamentoIdInvalido))
      ensures OnlyDigits(id) && requestDTO.None? ==> r == Err(Error(InternalServerError, NullPointer))
      ensures OnlyDigits(id) && requestDTO.Some? && Loan(requestDTO.value).Err? ==> r == Err(Loan(requestDTO.value).error)
      ensures (OnlyDigits(id) && requestDTO.Some? && Loan(requestDTO.value).Ok? && old(ObterPagamento(id)).Err?) ==>
        r == Err(old(ObterPagamento(id)).error)
      ensures (OnlyDigits(id) && requestDTO.Some? && Loan(requestDTO.value).Ok? && old(ObterPagamento(id)).Ok?
        && !DateParses(requestDTO.value.dataPagamento)) ==>
        r == Err(Error(BadRequest, DataInvalida))
      ensures (OnlyDigits(id) && requestDTO.Some? && Loan(requestDTO.value).Ok? && old(ObterPagamento(id)).Ok?
        && DateParses(requestDTO.value.dataPagamento) && PagamentoMapper.ConvertToEnum(requestDTO.value.tipoPagamento).Err?) ==>
        r == Err(PagamentoMapper.ConvertToEnum(requestDTO.value.tipoPagamento).error)
      ensures (OnlyDigits(id) && requestDTO.Some? && Loan(requestDTO.value).Ok? && old(ObterPagamento(id)).Ok?
        && Converts(requestDTO.value) && !Admissible(requestDTO.value)) ==>
        r == Err(Error(InternalServerError, ConstraintViolation))
      ensures r.Ok? <==> (OnlyDigits(id) && requestDTO.Some? && Loan(requestDTO.value).Ok? && old(ObterPagamento(id)).Ok?
        && Converts(requestDTO.value) && Admissible(requestDTO.value))
      ensures r.Err? ==> pagamentos == old(pagamentos) && nextId == old(nextId)
      ensures r.Ok? ==> (nextId == old(nextId)
        && var k := Key(id).value;
           k in old(pagamentos)
           && pagamentos == old(pagamentos)[k := Filled(old(pagamentos)[k], requestDTO.value, Loan(requestDTO.value).value)]
           && r.value == Response(pagamentos[k]))
      ensures r.Ok? ==> |FindAll()| == |old(FindAll())|
    {
      var valid := ValidarId(id);
      if valid.Err? {
        return Err(valid.error);
      }
      if requestDTO.None? {
        return Err(Error(InternalServerError, NullPointer));
      }
      var loan := Loan(requestDTO.value);
      if loan.Err? {
        return Err(loan.error);
      }
      var found := ObterPagamento(id);
      if found.Err? {
        return Err(found.error);
      }
      var row := found.value;
      var p := new PagamentoEntity.Load(row, Get(emprestimoService.emprestimos, row.emprestimoId));
      var mapped := PagamentoMapper.ParaEntidadeAtualizar(p, requestDTO, Some(loan.value));
      if mapped.Err? {
        return Err(mapped.error);
      }
      var saved := Save(p);
      if saved.Err? {
        return Err(saved.error);
      }
      ListingReplaceRemove(old(pagamentos), 1, nextId, row.id, saved.value);
      return Ok(Response(saved.value));
    }

    /** `remover`: validate the id, load the payment, delete it. */
    method Remover(id: Option<string>) returns (r: Result<()>)
      requires Valid()
      modifies this
      ensures Valid()
      ensures !OnlyDigits(id) ==> r == Err(Error(BadRequest, PagamentoIdInvalido))
      ensures OnlyDigits(id) && old(ObterPagamento(id)).Err? ==> r == Err(old(ObterPagamento(id)).error)
      ensures r.Ok? <==> OnlyDigits(id) && old(ObterPagamento(id)).Ok?
      ensures r.Err? ==> pagamentos == old(pagamentos)
      ensures r.Ok? ==> (Key(id).value in old(pagamentos) && pagamentos == old(pagamentos) - {Key(id).value})
      ensures r.Ok? ==> |FindAll()| == |old(FindAll())| - 1
      ensures nextId == old(nextId)
    {
      var valid := ValidarId(id);
      if valid.Err? {
        return Err(valid.error);
      }
      var found := ObterPagamento(id);
      if found.Err? {
        return Err(found.error);
      }
      ListingReplaceRemove(pagamentos, 1, nextId, found.value.id, found.value);
      pagamentos := pagamentos - {found.value.id};
      return Ok(());
    }

    /** `buscarTodos`: every stored payment as a response, by id. */
    function BuscarTodos(): (r: seq<PagamentoResponse>)
      reads this, emprestimoService, emprestimoService.beneficiarioService
      requires Valid()
      ensures |r| == |pagamentos|
      ensures forall p | p in pagamentos.Values :: Response(p) in r
      ensures forall x | x in r :: exists p | p in pagamentos.Values :: x == Response(p)
      ensures |r| == |FindAll()| && forall i | 0 <= i < |r| :: r[i] == Response(FindAll()[i])
    {
      var rows := FindAll();
      var r := seq(|rows|, i reads emprestimoService, emprestimoService.beneficiarioService requires 0 <= i < |rows| => Response(rows[i]));
      assert forall p | p in pagamentos.Values :: Response(p) in r by {
        forall p | p in pagamentos.Values ensures Response(p) in r {
          var i :| 0 <= i < |rows| && rows[i] == p;
          assert r[i] == Response(p);
        }
      }
      r
    }

    /** `buscarPorId`: validate the id, load the payment, answer with its response. */
    method BuscarPorId(id: Option<string>) returns (r: Result<PagamentoResponse>)
      requires Valid()
      ensures !OnlyDigits(id) ==> r == Err(Error(BadRequest, PagamentoIdInvalido))
      ensures OnlyDigits(id) ==> r == (match ObterPagamento(id) case Ok(p) => Ok(Response(p)) case Err(err) => Err(err))
      ensures r.Ok? ==> exists p | p in pagamentos.Values :: r.value == Response(p) && p.id == Key(id).value
    {
      var valid := ValidarId(id);
      if valid.Err? {
        return Err(valid.error);
      }
      var found := ObterPagamento(id);
      if found.Err? {
        return Err(found.error);
      }
      return Ok(Response(found.value));
    }
  }
}
