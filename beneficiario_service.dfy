/** `BeneficiarioService`: create, update, delete and read borrowers, search them by name
    and attach an image. The borrower table is the service's `beneficiarios` map, from id
    to row; `nextId` is the identity generator. Every write runs in a transaction, so a
    call that ends in an error leaves the table as it found it. */
module BeneficiarioService {
  import opened Common
  import opened Utils
  import opened Query
  import opened Model
  import opened Dto
  import BeneficiarioRepository
  import BeneficiarioMapper

  /** What the content sniffer decides: the detected MIME type starts with "image/". */
  predicate IsImage(mimeType: string) {
    "image/" <= mimeType
  }

  /** The row a request creates under key `k`. */
  function NewRow(k: int, dto: BeneficiarioRequest): Beneficiario
    requires dto.nome.Some? && dto.numeroTelefone.Some?
  {
    Beneficiario(k, dto.nome.value, dto.numeroTelefone.value, None, None, dto.observacao, None)
  }

  /** A stored row after a request overwrites its name, phone and note. */
  function UpdatedRow(b: Beneficiario, dto: BeneficiarioRequest): Beneficiario
    requires dto.nome.Some? && dto.numeroTelefone.Some?
  {
    b.(nome := dto.nome.value, numeroTelefone := dto.numeroTelefone.value, observacao := dto.observacao)
  }

  function Response(b: Beneficiario): BeneficiarioResponse {
    BeneficiarioMapper.ParaDto(Some(b)).value
  }

  /** Request to row to response: what `inserir` answers shows the request's name, phone
      and note, under the id the row was stored with. */
  lemma NewRowResponse(k: int, dto: BeneficiarioRequest)
    requires dto.nome.Some? && dto.numeroTelefone.Some?
    ensures Response(NewRow(k, dto)).id == k
    ensures Response(NewRow(k, dto)).nome == dto.nome.value
    ensures Response(NewRow(k, dto)).numeroTelefone == dto.numeroTelefone.value
    ensures Response(NewRow(k, dto)).observacao == dto.observacao
  {
  }

  class BeneficiarioService {
    var beneficiarios: map<int, Beneficiario>
    var nextId: int

    /** Every row is stored under its own id, and the generator is past every id. */
    ghost predicate Valid()
      reads this
    {
      nextId >= 1 && forall k | k in beneficiarios :: 1 <= k < nextId && beneficiarios[k].id == k
    }

    constructor ()
      ensures Valid() && beneficiarios == map[] && nextId == 1
    {
      beneficiarios := map[];
      nextId := 1;
    }

    /** `findAll`: the stored rows, by id. */
    function FindAll(): (r: seq<Beneficiario>)
      reads this
      requires Valid()
      ensures |r| == |beneficiarios|
      ensures forall b :: b in r <==> b in beneficiarios.Values
    {
      ListingAll(beneficiarios, 1, nextId);
      Listing(beneficiarios, 1, nextId)
    }

    /** `validarId`: BAD_REQUEST "beneficiario.idInvalido" unless the id is made of digits. */
    method ValidarId(id: Option<string>) returns (r: Result<()>)
      ensures r.Ok? <==> OnlyDigits(id)
      ensures r.Err? ==> r.error == Error(BadRequest, BeneficiarioIdInvalido)
    {
      var ok := ContemApenasNumeros(id);
      if !ok {
        return Err(Error(BadRequest, BeneficiarioIdInvalido));
      }
      return Ok(());
    }

    /** `obterBeneficiario`: `Long.valueOf` (a NumberFormatException, 500, when the text
        is not a 64-bit number) then `findById`, NOT_FOUND "beneficiario.naoExiste" when
        no row has that id. */
    function ObterBeneficiario(id: Option<string>): (r: Result<Beneficiario>)
      reads this
      requires Valid()
      ensures Key(id).None? ==> r == Err(Error(InternalServerError, NumberFormat))
      ensures Key(id).Some? && Key(id).value !in beneficiarios ==> r == Err(Error(NotFound, BeneficiarioNaoExiste))
      ensures r.Ok? <==> Key(id).Some? && Key(id).value in beneficiarios
      ensures r.Ok? ==> r.value in beneficiarios.Values && r.value.id == Key(id).value
    {
      match Key(id)
      case None => Err(Error(InternalServerError, NumberFormat))
      case Some(k) => if k in beneficiarios then Ok(beneficiarios[k]) else Err(Error(NotFound, BeneficiarioNaoExiste))
    }

    /** `save`: a borrower without name or phone violates a NOT NULL column (500) and
        nothing is written. Otherwise an object whose id is stored replaces that row,
        and any other object gets the next id. */
    method Save(b: BeneficiarioEntity) returns (r: Result<Beneficiario>)
      requires Valid()
      modifies this, b
      ensures Valid()
      ensures !old(b.Persistable()) ==>
        r == Err(Error(InternalServerError, ConstraintViolation)) && unchanged(this) && unchanged(b)
      ensures old(b.Persistable()) && old(b.id).Some? && old(b.id).value in old(beneficiarios) ==>
        r == Ok(old(b.ToRow(b.id.value))) && beneficiarios == old(beneficiarios)[old(b.id.value) := r.value]
        && nextId == old(nextId) && b.id == old(b.id)
      ensures old(b.Persistable()) && !(old(b.id).Some? && old(b.id).value in old(beneficiarios)) ==>
        r == Ok(old(b.ToRow(nextId))) && beneficiarios == old(beneficiarios)[old(nextId) := r.value]
        && nextId == old(nextId) + 1 && b.id == Some(old(nextId))
      ensures r.Ok? ==> b.Persistable() && r.value == b.ToRow(b.id.value)
    {
      if !b.Persistable() {
        return Err(Error(InternalServerError, ConstraintViolation));
      }
      var k: int;
      if b.id.Some? && b.id.value in beneficiarios {
        k := b.id.value;
      } else {
        k := nextId;
        nextId := nextId + 1;
        b.id := Some(k);
      }
      var row := b.ToRow(k);
      beneficiarios := beneficiarios[k := row];
      return Ok(row);
    }

    /** `inserir`: a null request reaches `save(null)` (an IllegalArgumentException, 500);
        a request without name or phone fails the NOT NULL columns (500). Otherwise the
        borrower is stored under the next id and comes back as a response. */
    method Inserir(requestDTO: Option<BeneficiarioRequest>) returns (r: Result<BeneficiarioResponse>)
      requires Valid()
      modifies this
      ensures Valid()
      ensures requestDTO.None? ==> r == Err(Error(InternalServerError, IllegalArgument))
      ensures requestDTO.Some? ==> (r.Ok? <==> requestDTO.value.nome.Some? && requestDTO.value.numeroTelefone.Some?)
      ensures requestDTO.Some? && r.Err? ==> r.error == Error(InternalServerError, ConstraintViolation)
      ensures r.Err? ==> beneficiarios == old(beneficiarios) && nextId == old(nextId)
      ensures r.Ok? ==> (nextId == old(nextId) + 1
        && beneficiarios == old(beneficiarios)[old(nextId) := NewRow(old(nextId), requestDTO.value)]
        && r.value == Response(beneficiarios[old(nextId)]))
      ensures r.Ok? ==> FindAll() == old(FindAll()) + [beneficiarios[old(nextId)]]
      ensures requestDTO.Some? && BeneficiarioRequestValid(requestDTO.value) ==> r.Ok?
    {
      var e := BeneficiarioMapper.ParaEntidade(requestDTO);
      if e == null {
        return Err(Error(InternalServerError, IllegalArgument));
      }
      var saved := Save(e);
      if saved.Err? {
        return Err(saved.error);
      }
      ListingSnoc(old(beneficiarios), 1, old(nextId), saved.value);
      return Ok(Response(saved.value));
    }

    /** `atualizar`: validate the id, load the row, overwrite name, phone and note from
        the request and save. A null request reaches `save(null)` (500), and a request
        without name or phone fails the NOT NULL columns (500). */
    method Atualizar(id: Option<string>, requestDTO: Option<BeneficiarioRequest>) returns (r: Result<BeneficiarioResponse>)
      requires Valid()
      modifies this
      ensures Valid()
      ensures !OnlyDigits(id) ==> r == Err(Error(BadRequest, BeneficiarioIdInvalido))
      ensures OnlyDigits(id) && old(ObterBeneficiario(id)).Err? ==> r == Err(old(ObterBeneficiario(id)).error)
      ensures OnlyDigits(id) && old(ObterBeneficiario(id)).Ok? && requestDTO.None? ==>
        r == Err(Error(InternalServerError, IllegalArgument))
      ensures (OnlyDigits(id) && old(ObterBeneficiario(id)).Ok? && requestDTO.Some?
        && !(requestDTO.value.nome.Some? && requestDTO.value.numeroTelefone.Some?)) ==>
        r == Err(Error(InternalServerError, ConstraintViolation))
      ensures r.Ok? <==> (OnlyDigits(id) && old(ObterBeneficiario(id)).Ok? && requestDTO.Some?
        && requestDTO.value.nome.Some? && requestDTO.value.numeroTelefone.Some?)
      ensures r.Err? ==> beneficiarios == old(beneficiarios) && nextId == old(nextId)
      ensures r.Ok? ==> (nextId == old(nextId) && Key(id).value in old(beneficiarios)
        && beneficiarios == old(beneficiarios)[Key(id).value := UpdatedRow(old(beneficiarios)[Key(id).value], requestDTO.value)]
        && r.value == Response(beneficiarios[Key(id).value]))
      ensures r.Ok? ==> |FindAll()| == |old(FindAll())|
    {
      var valid := ValidarId(id);
      if valid.Err? {
        return Err(valid.error);
      }
      var found := ObterBeneficiario(id);
      if found.Err? {
        return Err(found.error);
      }
      var e := new BeneficiarioEntity.Load(found.value);
      var u := BeneficiarioMapper.ParaEntidadeAtualizar(e, requestDTO);
      if u == null {
        return Err(Error(InternalServerError, IllegalArgument));
      }
      var saved := Save(u);
      if saved.Err? {
        return Err(saved.error);
      }
      ListingReplaceRemove(old(beneficiarios), 1, nextId, found.value.id, saved.value);
      return Ok(Response(saved.value));
    }

    /** `remover`: validate the id, load the row, delete it. */
    method Remover(id: Option<string>) returns (r: Result<()>)
      requires Valid()
      modifies this
      ensures Valid()
      ensures !OnlyDigits(id) ==> r == Err(Error(BadRequest, BeneficiarioIdInvalido))
      ensures OnlyDigits(id) && old(ObterBeneficiario(id)).Err? ==> r == Err(old(ObterBeneficiario(id)).error)
      ensures r.Ok? <==> OnlyDigits(id) && old(ObterBeneficiario(id)).Ok?
      ensures r.Err? ==> beneficiarios == old(beneficiarios)
      ensures r.Ok? ==> beneficiarios == old(beneficiarios) - {Key(id).value} && Key(id).value in old(beneficiarios)
      ensures r.Ok? ==> |FindAll()| == |old(FindAll())| - 1
      ensures nextId == old(nextId)
    {
      var valid := ValidarId(id);
      if valid.Err? {
        return Err(valid.error);
      }
      var found := ObterBeneficiario(id);
      if found.Err? {
        return Err(found.error);
      }
      ListingReplaceRemove(beneficiarios, 1, nextId, found.value.id, found.value);
      beneficiarios := beneficiarios - {found.value.id};
      return Ok(());
    }

    /** `buscarTodos`: every stored borrower as a response, by id. */
    function BuscarTodos(): (r: seq<BeneficiarioResponse>)
      reads this
      requires Valid()
      ensures |r| == |beneficiarios|
      ensures forall b | b in beneficiarios.Values :: Response(b) in r
      ensures forall x | x in r :: exists b | b in beneficiarios.Values :: x == Response(b)
      ensures |r| == |FindAll()| && forall i | 0 <= i < |r| :: r[i] == Response(FindAll()[i])
    {
      var rows := FindAll();
      var r := seq(|rows|, i requires 0 <= i < |rows| => Response(rows[i]));
      assert forall b | b in beneficiarios.Values :: Response(b) in r by {
        forall b | b in beneficiarios.Values ensures Response(b) in r {
          var i :| 0 <= i < |rows| && rows[i] == b;
          assert r[i] == Response(b);
        }
      }
      r
    }

    /** `buscarPorId`: validate the id, load the row, answer with its response. */
    method BuscarPorId(id: Option<string>) returns (r: Result<BeneficiarioResponse>)
      requires Valid()
      ensures !OnlyDigits(id) ==> r == Err(Error(BadRequest, BeneficiarioIdInvalido))
      ensures OnlyDigits(id) ==> r == (match ObterBeneficiario(id) case Ok(b) => Ok(Response(b)) case Err(err) => Err(err))
      ensures r.Ok? ==> exists b | b in beneficiarios.Values :: r.value == Response(b) && b.id == Key(id).value
    {
      var valid := ValidarId(id);
      if valid.Err? {
        return Err(valid.error);
      }
      var found := ObterBeneficiario(id);
      if found.Err? {
        return Err(found.error);
      }
      return Ok(Response(found.value));
    }

    /** `buscarPorNome`: the borrowers whose name contains `nome`, letter case aside, as
        responses. */
    function BuscarPorNome(nome: string): (r: seq<BeneficiarioResponse>)
      reads this
      requires Valid()
      ensures |r| <= |beneficiarios|
      ensures forall b | b in beneficiarios.Values && BeneficiarioRepository.ContainsIgnoreCase(b.nome, nome) :: Response(b) in r
      ensures forall x | x in r :: exists b | b in beneficiarios.Values :: x == Response(b) && BeneficiarioRepository.ContainsIgnoreCase(b.nome, nome)
      ensures var m := BeneficiarioRepository.FindByNomeContainingIgnoreCase(FindAll(), nome);
        |r| == |m| && forall i | 0 <= i < |r| :: r[i] == Response(m[i])
    {
      var rows := BeneficiarioRepository.FindByNomeContainingIgnoreCase(FindAll(), nome);
      var r := seq(|rows|, i requires 0 <= i < |rows| => Response(rows[i]));
      assert forall b | b in beneficiarios.Values && BeneficiarioRepository.ContainsIgnoreCase(b.nome, nome) :: Response(b) in r by {
        forall b | b in beneficiarios.Values && BeneficiarioRepository.ContainsIgnoreCase(b.nome, nome)
          ensures Response(b) in r
        {
          var i :| 0 <= i < |rows| && rows[i] == b;
          assert r[i] == Response(b);
        }
      }
      r
    }

    /** `salvarImagem`: validate the id, load the row, read the upload (`bytes` is null
        when reading it fails, BAD_REQUEST "beneficiario.falhaAoSalvarImagem"), refuse a
        file whose detected type `mimeType` is not an image, then store the bytes as the
        borrower's image. */
    method SalvarImagem(id: Option<string>, bytes: Option<seq<bv8>>, mimeType: string) returns (r: Result<()>)
      requires Valid()
      modifies this
      ensures Valid()
      ensures !OnlyDigits(id) ==> r == Err(Error(BadRequest, BeneficiarioIdInvalido))
      ensures OnlyDigits(id) && old(ObterBeneficiario(id)).Err? ==> r == Err(old(ObterBeneficiario(id)).error)
      ensures OnlyDigits(id) && old(ObterBeneficiario(id)).Ok? && bytes.None? ==> r == Err(Error(BadRequest, FalhaAoSalvarImagem))
      ensures OnlyDigits(id) && old(ObterBeneficiario(id)).Ok? && bytes.Some? && !IsImage(mimeType) ==>
        r == Err(Error(BadRequest, ArquivoDeveSerImagem))
      ensures r.Ok? <==> OnlyDigits(id) && old(ObterBeneficiario(id)).Ok? && bytes.Some? && IsImage(mimeType)
      ensures r.Err? ==> beneficiarios == old(beneficiarios)
      ensures r.Ok? ==> (Key(id).value in old(beneficiarios)
        && beneficiarios == old(beneficiarios)[Key(id).value := old(beneficiarios)[Key(id).value].(imagem := bytes)])
      ensures nextId == old(nextId)
    {
      var valid := ValidarId(id);
      if valid.Err? {
        return Err(valid.error);
      }
      var found := ObterBeneficiario(id);
      if found.Err? {
        return Err(found.error);
      }
      if bytes.None? {
        return Err(Error(BadRequest, FalhaAoSalvarImagem));
      }
      if !IsImage(mimeType) {
        return Err(Error(BadRequest, ArquivoDeveSerImagem));
      }
      var e := new BeneficiarioEntity.Load(found.value);
      e.imagem := bytes;
      var saved := Save(e);
      return Ok(());
    }
  }
}
