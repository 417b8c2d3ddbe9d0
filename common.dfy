/** Values shared by every layer: Java's nullable references as `Option`, and the
    outcome of a service call, either a value or the HTTP status and message code of the
    `ResponseStatusException` (or unhandled exception) that ends it. */
module Common {

  /** `None` stands for Java's `null`. */
  datatype Option<+T> = None | Some(value: T)

  /** The HTTP statuses the services raise; `InternalServerError` is what an exception
      no handler classifies (a `NullPointerException`, a `NumberFormatException`, a
      violated column constraint) turns into. */
  datatype Status = BadRequest | NotFound | InternalServerError

  /** An error as a (status, message code) pair: the message catalogue that turns the
      code into text is left out. */
  datatype Error = Error(status: Status, code: string)

  datatype Result<+T> = Ok(value: T) | Err(error: Error)

  /** The message codes the core raises. */
  const DataInvalida := "data.invalida"
  const TipoPagamentoInvalido := "pagamento.tipoPagamento.invalido"
  const BeneficiarioIdInvalido := "beneficiario.idInvalido"
  const BeneficiarioNaoExiste := "beneficiario.naoExiste"
  const ArquivoDeveSerImagem := "beneficiario.arquivoDeveSerImagem"
  const FalhaAoSalvarImagem := "beneficiario.falhaAoSalvarImagem"
  const EmprestimoIdInvalido := "emprestimo.idInvalido"
  const EmprestimoNaoExiste := "emprestimo.naoExiste"
  const PagamentoIdInvalido := "pagamento.idInvalido"
  const PagamentoNaoExiste := "pagamento.naoExiste"

  /** Names of the unhandled exceptions, used as codes of `InternalServerError`. */
  const NullPointer := "NullPointerException"
  const NumberFormat := "NumberFormatException"
  const ConstraintViolation := "ConstraintViolationException"
  const IllegalArgument := "IllegalArgumentException"

  /** `Map.get` / `findById` on a map: the value stored under `k`, or null. */
  function Get<K, V>(m: map<K, V>, k: K): (r: Option<V>)
    ensures r.Some? <==> k in m
    ensures r.Some? ==> r.value == m[k]
  {
    if k in m then Some(m[k]) else None
  }
}
