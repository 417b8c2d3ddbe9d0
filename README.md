# gerenciador-emprestimos in Dafny

This is a model of the domain core of *gerenciador-emprestimos*, a Spring backend that
manages loans (`Emprestimo`), the borrowers who take them (`Beneficiario`) and the
payments made against them (`Pagamento`). It models these layers:

- **Utils**
  - The path-id validator `contemApenasNumeros`, a character loop written as a method
    with a loop invariant.
  - The date conversion `convertStringToLocalDateTime`, which reads a `yyyy-MM-dd`
    string the way `java.time` does (including the SMART resolver's day clamp) and
    returns midnight of that day.
- **Repositories**
  - The derived finders and the JPQL aggregates, as functions over the table given as
    a sequence of rows in storage order.
  - `SUM` over no rows is `NULL` (`None`), never 0.
  - `ORDER BY ... ASC` is an insertion sort on the date column. SQL leaves the order of
    rows with equal dates open; the model puts them in storage order.
  - `findAll` has no `ORDER BY` either, so SQL fixes no order for it; the model lists
    rows by ascending id, which is insertion order.
  - The name search is a case-insensitive substring filter.
- **Mappers**
  - The setter sequences that copy a request onto an entity object are methods that
    modify a class instance.
  - Each keeps the order of its writes relative to its error exits: a bad date, or a
    bad payment kind.
  - The projections back to response records are functions.
- **Services**
  - Each service is a class whose table is a `map` from id to row, plus an id
    generator.
  - Every operation follows the source's order: validate the id, resolve the
    referenced entity, load the target, overwrite it, save or delete.
  - Errors are (HTTP status, message code) pairs: BAD_REQUEST and NOT_FOUND where the
    code raises a `ResponseStatusException`, and 500 where a Java exception escapes
    (`NullPointerException`, `NumberFormatException`, a violated NOT NULL column).
  - Every transactional operation that fails leaves its table unchanged.
- **Requests and entities**
  - The Bean Validation annotations of the three request DTOs are predicates.
  - The entities are row datatypes (what the table holds) and entity classes (the
    nullable Java objects the mappers fill in).

Money and rates are `real`, so the aggregate formulas are exact. Ids are Java `long`s:
`Long.valueOf` and `String.valueOf(Long)` are modelled, including their overflow and
`"null"` cases.

A strict reading of `yyyy-MM-dd` would reject `"2023-02-30"`. The code builds its
formatter with `DateTimeFormatter.ofPattern("yyyy-MM-dd")`, whose default resolver is
SMART. SMART moves a day of 29 to 31 back to the last day of its month, so
`"2023-02-30"` becomes 28 February 2023. The model follows the code
(`Utils.ConvertClampsDay`). Month 99 and day 32 are still rejected.

## Model

Paths are under `src/main/java/br/com/gerenciadoremprestimos/`.

| member | source | states |
|---|---|---|
| Utils.ContemApenasNumeros | src/main/java/br/com/gerenciadoremprestimos/util/Utils.java:18-31 | the loop answers true exactly when the text is non-null, non-empty and every character is a digit |
| Utils.ContemApenasNumerosExamples | src/main/java/br/com/gerenciadoremprestimos/util/Utils.java:18-31 | `"1"` is accepted; `"abc"`, `""` and null are rejected |
| Utils.AppendDigitKeepsAccepted | src/main/java/br/com/gerenciadoremprestimos/util/Utils.java:24-28 | appending a digit to an accepted id keeps it accepted |
| Utils.NonDigitRejects | src/main/java/br/com/gerenciadoremprestimos/util/Utils.java:24-28 | one non-digit anywhere rejects the whole id |
| Utils.LongValueOfValidId | src/main/java/br/com/gerenciadoremprestimos/service/BeneficiarioService.java:117-120 | an id the validator accepts is parsed by `Long.valueOf` to its digit value, or fails exactly when that value exceeds 2^63-1 |
| Utils.KeyOfValidId | src/main/java/br/com/gerenciadoremprestimos/service/BeneficiarioService.java:117-120 | an accepted id that fits 64 bits looks up the row under its digit value |
| Utils.LongValueOfStringValueOf | src/main/java/br/com/gerenciadoremprestimos/service/EmprestimoService.java:35 | `Long.valueOf(String.valueOf(x))` returns every `Long` unchanged and fails exactly for null |
| Utils.ResolveDate | src/main/java/br/com/gerenciadoremprestimos/util/Utils.java:11-14 | the SMART resolver accepts exactly years 1..999999999, months 1..12 and days 1..31, and always yields a real calendar date |
| Utils.ResolveValidDate | src/main/java/br/com/gerenciadoremprestimos/util/Utils.java:11-14 | the resolver leaves a date unchanged exactly when the date is valid |
| Utils.ParseLocalDate | src/main/java/br/com/gerenciadoremprestimos/util/Utils.java:14 | every date the parser returns is a valid calendar date |
| Utils.ConvertStringToLocalDateTime | src/main/java/br/com/gerenciadoremprestimos/util/Utils.java:13-16 | succeeds exactly when the text parses, and the result is the start (00:00:00.0) of the parsed valid day |
| Utils.ParseFormatRoundTrip | src/main/java/br/com/gerenciadoremprestimos/util/Utils.java:11-16 | every valid date, written as `LocalDate.toString` writes it, parses back to itself and converts to its midnight |
| Utils.ConvertFixtureDate | src/main/java/br/com/gerenciadoremprestimos/util/Utils.java:11-16 | `"2024-05-01"` converts to 2024-05-01T00:00 |
| Utils.ConvertRejectsInvalid | src/main/java/br/com/gerenciadoremprestimos/util/Utils.java:11-16 | `"9999-99-99"` (month 99) and null fail |
| Utils.ConvertClampsDay | src/main/java/br/com/gerenciadoremprestimos/util/Utils.java:11-14 | `"2023-02-30"` resolves to 2023-02-28 under the SMART resolver |
| Dto.BeneficiarioRequestValidFacts | src/main/java/br/com/gerenciadoremprestimos/dto/BeneficiarioRequestDTO.java:18-25 | a valid request has a phone of 10 to 15 digits, and its note never affects validity |
| Dto.BlankRejected | src/main/java/br/com/gerenciadoremprestimos/dto/BeneficiarioRequestDTO.java:18 | a name made only of characters `String.trim` removes (the space and every control character below it) fails validation whatever the other fields hold |
| Dto.EmptyRequestsRejected | src/main/java/br/com/gerenciadoremprestimos/dto/EmprestimoRequestDTO.java:18-36 | the all-null borrower, loan and payment requests all fail validation |
| Dto.FixtureRequestValid | src/main/java/br/com/gerenciadoremprestimos/dto/BeneficiarioRequestDTO.java:18-24 | the request "Erick Marques" / "081988888888" passes validation |
| Model.BeneficiarioEntity.constructor | src/main/java/br/com/gerenciadoremprestimos/model/Beneficiario.java:17 | a new borrower object has every field null |
| Model.EmprestimoEntity.constructor | src/main/java/br/com/gerenciadoremprestimos/model/Emprestimo.java:23 | a new loan object has every field null |
| Model.PagamentoEntity.constructor | src/main/java/br/com/gerenciadoremprestimos/model/Pagamento.java:21 | a new payment object has every field null |
| Model.EmprestimoEntity.ToRow | src/main/java/br/com/gerenciadoremprestimos/model/Emprestimo.java:39-47 | a loan object that can be saved yields a row with a positive amount and a non-negative rate |
| Model.BeneficiarioEntity.Load | src/main/java/br/com/gerenciadoremprestimos/model/Beneficiario.java:22-31 | the object loaded for a stored borrower keeps its id, can be saved (name and phone are set) and writes back exactly the stored row |
| Model.EmprestimoEntity.Load | src/main/java/br/com/gerenciadoremprestimos/model/Emprestimo.java:32-56 | the object loaded for a stored loan whose borrower exists can be saved and writes back exactly the stored row |
| Model.PagamentoEntity.Load | src/main/java/br/com/gerenciadoremprestimos/model/Pagamento.java:30-42 | the object loaded for a stored payment whose loan exists can be saved and writes back exactly the stored row |
| Query.Where | src/main/java/br/com/gerenciadoremprestimos/repository/EmprestimoRepository.java:23 | a derived finder returns exactly the stored rows that satisfy its condition |
| Query.WhereAppend | src/main/java/br/com/gerenciadoremprestimos/repository/BeneficiarioRepository.java:18 | filtering preserves storage order: the filter of a concatenation is the concatenation of the filters |
| Query.Sum | src/main/java/br/com/gerenciadoremprestimos/repository/PagamentoRepository.java:30 | `SUM` is NULL exactly when no row matches |
| Query.SumSnoc | src/main/java/br/com/gerenciadoremprestimos/repository/PagamentoRepository.java:30 | a stored row that does not match leaves the sum alone; a matching row adds its term, and turns NULL into that term |
| Query.SortBy | src/main/java/br/com/gerenciadoremprestimos/repository/EmprestimoRepository.java:57 | the result is sorted ascending by the date and is a permutation of its input |
| Query.SortedFilter | src/main/java/br/com/gerenciadoremprestimos/repository/EmprestimoRepository.java:57 | sorting a filter yields a sorted sequence holding exactly the filtered rows |
| Query.Listing | src/main/java/br/com/gerenciadoremprestimos/service/BeneficiarioService.java:63 | `findAll` lists exactly the rows stored under keys in range |
| Query.ListingSnoc | src/main/java/br/com/gerenciadoremprestimos/service/BeneficiarioService.java:63 | a row stored under the next id is listed last, after all the earlier rows in their order |
| Query.ListingReplaceRemove | src/main/java/br/com/gerenciadoremprestimos/service/BeneficiarioService.java:54-59 | replacing a stored row keeps the listing's length; deleting one shortens it by one |
| BeneficiarioRepository.FindByNomeContainingIgnoreCase | src/main/java/br/com/gerenciadoremprestimos/repository/BeneficiarioRepository.java:18 | returns exactly the stored borrowers whose upper-cased name contains the upper-cased fragment |
| BeneficiarioRepository.FindIgnoresFragmentCase | src/main/java/br/com/gerenciadoremprestimos/repository/BeneficiarioRepository.java:18 | the lower- and upper-case spellings of a fragment find the same borrowers in the same order |
| BeneficiarioRepository.FindEmptyFragment | src/main/java/br/com/gerenciadoremprestimos/repository/BeneficiarioRepository.java:18 | the empty fragment finds every borrower |
| BeneficiarioRepository.FindAppend | src/main/java/br/com/gerenciadoremprestimos/repository/BeneficiarioRepository.java:18 | matches come back in storage order: more stored rows only extend the earlier result |
| BeneficiarioRepository.FixtureSearchMarques | src/main/java/br/com/gerenciadoremprestimos/repository/BeneficiarioRepository.java:18 | "MARQUES" over the four fixture borrowers finds the first three, in insertion order |
| BeneficiarioRepository.FixtureSearchMarquesLowerCase | src/main/java/br/com/gerenciadoremprestimos/repository/BeneficiarioRepository.java:18 | "marques" finds the same three |
| BeneficiarioRepository.FixtureSearchLaura | src/main/java/br/com/gerenciadoremprestimos/repository/BeneficiarioRepository.java:18 | "LAURA" finds only the fourth |
| EmprestimoRepository.FindByDataEmprestimoBetween | src/main/java/br/com/gerenciadoremprestimos/repository/EmprestimoRepository.java:23 | exactly the loans whose loan date lies between the two instants, both ends included |
| EmprestimoRepository.FindByDataPagamentoBetween | src/main/java/br/com/gerenciadoremprestimos/repository/EmprestimoRepository.java:32 | exactly the loans whose due date lies between the two instants, both ends included |
| EmprestimoRepository.FindByBeneficiario | src/main/java/br/com/gerenciadoremprestimos/repository/EmprestimoRepository.java:40 | exactly the loans of that borrower; none for a null borrower |
| EmprestimoRepository.FindByDataPagamentoBeforeAndQuitado | src/main/java/br/com/gerenciadoremprestimos/repository/EmprestimoRepository.java:49 | exactly the loans due strictly before the instant that have the given settled flag |
| EmprestimoRepository.FindByQuitadoOrderByDataPagamentoAsc | src/main/java/br/com/gerenciadoremprestimos/repository/EmprestimoRepository.java:57 | exactly the loans with the given settled flag, each as often as stored, sorted ascending by due date |
| EmprestimoRepository.FindByDataPagamentoMonth | src/main/java/br/com/gerenciadoremprestimos/repository/EmprestimoRepository.java:65-66 | exactly the loans due in that month of any year; none for a null month |
| EmprestimoRepository.ValorTotalEmprestadoPorMes | src/main/java/br/com/gerenciadoremprestimos/repository/EmprestimoRepository.java:75-76 | NULL exactly when no loan was made in that year and month (the query filters on `dataEmprestimo`) |
| EmprestimoRepository.PrincipalAReceberPorMes | src/main/java/br/com/gerenciadoremprestimos/repository/EmprestimoRepository.java:85 | NULL exactly when no unsettled loan is due in that month |
| EmprestimoRepository.ValorTotalLiquidoAReceberPorMes | src/main/java/br/com/gerenciadoremprestimos/repository/EmprestimoRepository.java:85-86 | NULL exactly when no unsettled loan is due in that month |
| EmprestimoRepository.ValorTotalBrutoAReceberPorMes | src/main/java/br/com/gerenciadoremprestimos/repository/EmprestimoRepository.java:95-96 | NULL exactly when no unsettled loan is due in that month |
| EmprestimoRepository.NetIsPrincipalPlusGross | src/main/java/br/com/gerenciadoremprestimos/repository/EmprestimoRepository.java:85-96 | net and gross are NULL together, and net = principal due + gross |
| EmprestimoRepository.SettledLoanIgnored | src/main/java/br/com/gerenciadoremprestimos/repository/EmprestimoRepository.java:85-96 | adding a settled loan changes neither net nor gross, whatever its dates |
| EmprestimoRepository.UnsettledLoanCounted | src/main/java/br/com/gerenciadoremprestimos/repository/EmprestimoRepository.java:85-96 | an unsettled loan due in the month adds its interest to gross and principal plus interest to net, starting from NULL |
| EmprestimoRepository.AggregatesNonNegative | src/main/java/br/com/gerenciadoremprestimos/repository/EmprestimoRepository.java:75-96 | over loans meeting the entity constraints, gross is never negative, and a present net or total lent is positive |
| EmprestimoRepository.FixtureAggregates | src/main/java/br/com/gerenciadoremprestimos/repository/EmprestimoRepository.java:75-96 | fixtures of 1000 at 30% and 2000 at 20%: 3000 lent in May 2024, gross 700 and net 3700 due in June 2024, and NULL for April |
| PagamentoRepository.FindByEmprestimoOrderByDataPagamentoAsc | src/main/java/br/com/gerenciadoremprestimos/repository/PagamentoRepository.java:22 | exactly the loan's payments, each as often as stored, sorted ascending by date; none for a null loan |
| PagamentoRepository.ValorTotalRecebidoPorEmprestimo | src/main/java/br/com/gerenciadoremprestimos/repository/PagamentoRepository.java:30-31 | NULL exactly for a null loan or a loan without payments |
| PagamentoRepository.ValorTotalRecebidoPorMes | src/main/java/br/com/gerenciadoremprestimos/repository/PagamentoRepository.java:40-41 | NULL exactly when nothing was paid in that year and month |
| PagamentoRepository.PaymentAddsToLoanTotal | src/main/java/br/com/gerenciadoremprestimos/repository/PagamentoRepository.java:30-31 | recording a payment adds its amount to its own loan's total (from NULL, its amount) and leaves every other loan's total unchanged |
| PagamentoRepository.TotalsPositive | src/main/java/br/com/gerenciadoremprestimos/repository/PagamentoRepository.java:30-41 | with positive amounts, every present total is positive |
| PagamentoRepository.FixtureTotals | src/main/java/br/com/gerenciadoremprestimos/repository/PagamentoRepository.java:22-41 | payments of 1000 and 2000 give 3000 for their loan and for May 2024, NULL for another loan, a null loan and April, and list in date order |
| BeneficiarioMapper.AtualizarCampos | src/main/java/br/com/gerenciadoremprestimos/mapper/BeneficiarioMapper.java:29-35 | overwrites exactly name, phone and note; id, image and timestamps are kept; the same object is returned |
| BeneficiarioMapper.ParaEntidade | src/main/java/br/com/gerenciadoremprestimos/mapper/BeneficiarioMapper.java:11-19 | null for null; otherwise a fresh object holding the request's three fields, everything else null |
| BeneficiarioMapper.ParaEntidadeAtualizar | src/main/java/br/com/gerenciadoremprestimos/mapper/BeneficiarioMapper.java:21-27 | null, with the object untouched, for null; otherwise the same object with the three fields overwritten |
| BeneficiarioMapper.ParaDto | src/main/java/br/com/gerenciadoremprestimos/mapper/BeneficiarioMapper.java:37-51 | null exactly for null |
| BeneficiarioMapper.ParaDtoHidesOnlyImage | src/main/java/br/com/gerenciadoremprestimos/mapper/BeneficiarioMapper.java:41-50 | two borrowers have the same response exactly when they differ at most in their image |
| BeneficiarioService.NewRowResponse | src/main/java/br/com/gerenciadoremprestimos/mapper/BeneficiarioMapper.java:11-50 | request to row to response gives back the request's name, phone and note, under the stored id |
| EmprestimoMapper.AtualizarCampos | src/main/java/br/com/gerenciadoremprestimos/mapper/EmprestimoMapper.java:41-55 | succeeds exactly when both dates parse, else BAD_REQUEST "data.invalida"; the loan date is written before the due date is checked; amount, rate, settled flag and borrower are written only after both parse; id, note and timestamps are kept |
| EmprestimoMapper.ParaEntidade | src/main/java/br/com/gerenciadoremprestimos/mapper/EmprestimoMapper.java:23-31 | null for null; otherwise a fresh object holding the converted request and the borrower, or the date error |
| EmprestimoMapper.ParaEntidadeAtualizar | src/main/java/br/com/gerenciadoremprestimos/mapper/EmprestimoMapper.java:33-39 | null, with the object untouched, for null; otherwise the same object refilled, or the date error |
| EmprestimoMapper.ParaDto | src/main/java/br/com/gerenciadoremprestimos/mapper/EmprestimoMapper.java:57-75 | null exactly for null; the nested borrower is present exactly when the loan's borrower is stored |
| EmprestimoMapper.ParaDtoInjective | src/main/java/br/com/gerenciadoremprestimos/mapper/EmprestimoMapper.java:57-75 | loans whose borrowers are stored and whose responses are equal are the same loan: the response loses nothing |
| PagamentoMapper.ConvertToEnum | src/main/java/br/com/gerenciadoremprestimos/mapper/PagamentoMapper.java:58-64 | null fails with a 500 (NullPointerException); any other unknown name fails with BAD_REQUEST "pagamento.tipoPagamento.invalido" |
| PagamentoMapper.ConvertToEnumName | src/main/java/br/com/gerenciadoremprestimos/mapper/PagamentoMapper.java:58-64 | each of TOTAL, JUROS, ACORDO is found by its own name |
| PagamentoMapper.ConvertToEnumOnlyNames | src/main/java/br/com/gerenciadoremprestimos/mapper/PagamentoMapper.java:58-64 | a text that converts is exactly the name of the constant it converts to (case-sensitive) |
| PagamentoMapper.TipoPatternConverts | src/main/java/br/com/gerenciadoremprestimos/dto/PagamentoRequestDTO.java:27-29 | the request's `@NotNull` and `@Pattern` admit exactly the texts the conversion accepts |
| PagamentoMapper.AtualizarCampos | src/main/java/br/com/gerenciadoremprestimos/mapper/PagamentoMapper.java:44-56 | a bad date fails before any write; a bad kind fails after date and amount are written and before kind and loan; success sets all four; id, note and timestamps are kept |
| PagamentoMapper.ParaEntidade | src/main/java/br/com/gerenciadoremprestimos/mapper/PagamentoMapper.java:26-34 | null for null; otherwise a fresh object holding the converted request and the loan, or the first error in write order |
| PagamentoMapper.ParaEntidadeAtualizar | src/main/java/br/com/gerenciadoremprestimos/mapper/PagamentoMapper.java:36-42 | null, with the object untouched, for null; otherwise the same object refilled, or the first error |
| PagamentoMapper.ParaDto | src/main/java/br/com/gerenciadoremprestimos/mapper/PagamentoMapper.java:66-82 | null exactly for null; the nested loan is present exactly when the payment's loan is stored |
| PagamentoMapper.ParaDtoInjective | src/main/java/br/com/gerenciadoremprestimos/mapper/PagamentoMapper.java:66-82 | payments whose loans are stored and whose responses are equal are the same payment |
| BeneficiarioService.BeneficiarioService.FindAll | src/main/java/br/com/gerenciadoremprestimos/service/BeneficiarioService.java:63 | lists every stored borrower exactly once |
| BeneficiarioService.BeneficiarioService.ValidarId | src/main/java/br/com/gerenciadoremprestimos/service/BeneficiarioService.java:111-115 | passes exactly the ids `contemApenasNumeros` accepts, else BAD_REQUEST "beneficiario.idInvalido" |
| BeneficiarioService.BeneficiarioService.ObterBeneficiario | src/main/java/br/com/gerenciadoremprestimos/service/BeneficiarioService.java:117-120 | a 500 when `Long.valueOf` fails; NOT_FOUND "beneficiario.naoExiste" when no row has the id; otherwise the stored row with that id |
| BeneficiarioService.BeneficiarioService.Save | src/main/java/br/com/gerenciadoremprestimos/service/BeneficiarioService.java:36 | a missing name or phone is a 500 with nothing written; an object with a stored id replaces that row; any other object is inserted under the next id |
| BeneficiarioService.BeneficiarioService.Inserir | src/main/java/br/com/gerenciadoremprestimos/service/BeneficiarioService.java:32-39 | null is a 500 (`save(null)`); succeeds exactly when name and phone are present, always for a valid request; the new row is stored under the next id and listed last; on error the table is unchanged |
| BeneficiarioService.BeneficiarioService.Atualizar | src/main/java/br/com/gerenciadoremprestimos/service/BeneficiarioService.java:41-52 | id check, then lookup (its error passed on), then a null request (500 from `save(null)`) or a missing name or phone (NOT NULL, 500); success overwrites name, phone and note of that one row, keeping its id; on error the table is unchanged |
| BeneficiarioService.BeneficiarioService.Remover | src/main/java/br/com/gerenciadoremprestimos/service/BeneficiarioService.java:54-59 | id check, then lookup; deletes exactly the found row and nothing else; on error the table is unchanged |
| BeneficiarioService.BeneficiarioService.BuscarTodos | src/main/java/br/com/gerenciadoremprestimos/service/BeneficiarioService.java:61-67 | one response per stored borrower, and only those, in `findAll` order: the i-th response is that of the i-th listed row |
| BeneficiarioService.BeneficiarioService.BuscarPorId | src/main/java/br/com/gerenciadoremprestimos/service/BeneficiarioService.java:69-74 | BAD_REQUEST for an invalid id, else the lookup's error or the response of the row with that id |
| BeneficiarioService.BeneficiarioService.BuscarPorNome | src/main/java/br/com/gerenciadoremprestimos/service/BeneficiarioService.java:77-83 | exactly the responses of the stored borrowers whose name contains the fragment, ignoring case: one per repository match, in the repository's order |
| BeneficiarioService.BeneficiarioService.SalvarImagem | src/main/java/br/com/gerenciadoremprestimos/service/BeneficiarioService.java:85-102 | id check, lookup, unreadable upload (BAD_REQUEST "beneficiario.falhaAoSalvarImagem"), non-image (BAD_REQUEST "beneficiario.arquivoDeveSerImagem"), in that order; success sets only that borrower's image to the bytes |
| EmprestimoService.ValidRequestAdmissible | src/main/java/br/com/gerenciadoremprestimos/model/Emprestimo.java:39-51 | a loan request that passes validation also meets the entity's amount, rate and settled-flag constraints |
| EmprestimoService.EmprestimoService.FindAll | src/main/java/br/com/gerenciadoremprestimos/service/EmprestimoService.java:67 | lists every stored loan exactly once |
| EmprestimoService.EmprestimoService.Borrower | src/main/java/br/com/gerenciadoremprestimos/service/EmprestimoService.java:35 | a null borrower id is a 500; an unknown one is NOT_FOUND; otherwise the stored borrower with that id |
| EmprestimoService.EmprestimoService.ValidarId | src/main/java/br/com/gerenciadoremprestimos/service/EmprestimoService.java:80-84 | passes exactly the ids `contemApenasNumeros` accepts, else BAD_REQUEST "emprestimo.idInvalido" |
| EmprestimoService.EmprestimoService.ObterEmprestimo | src/main/java/br/com/gerenciadoremprestimos/service/EmprestimoService.java:86-89 | a 500 when `Long.valueOf` fails; NOT_FOUND "emprestimo.naoExiste" when absent; otherwise the stored loan with that id, which meets the loan constraints |
| EmprestimoService.EmprestimoService.Save | src/main/java/br/com/gerenciadoremprestimos/service/EmprestimoService.java:39 | a loan object violating a NOT NULL column or a Bean Validation constraint is a 500 with nothing written; otherwise it replaces its row or is inserted under the next id |
| EmprestimoService.EmprestimoService.Inserir | src/main/java/br/com/gerenciadoremprestimos/service/EmprestimoService.java:33-42 | null is a 500; the borrower is resolved first (its error passed on); a bad date is BAD_REQUEST; success stores the converted request under the next id, listed last; on error the table is unchanged |
| EmprestimoService.EmprestimoService.Atualizar | src/main/java/br/com/gerenciadoremprestimos/service/EmprestimoService.java:44-56 | id check, borrower, loan lookup, date conversion (BAD_REQUEST), then the entity constraints (500), in that order with each error passed on; success overwrites that one row keeping id, note and timestamps; on error the table is unchanged |
| EmprestimoService.EmprestimoService.Remover | src/main/java/br/com/gerenciadoremprestimos/service/EmprestimoService.java:58-63 | id check, then lookup; deletes exactly the found loan; on error the table is unchanged |
| EmprestimoService.EmprestimoService.BuscarTodos | src/main/java/br/com/gerenciadoremprestimos/service/EmprestimoService.java:65-71 | one response per stored loan, and only those, in `findAll` order; empty for an empty table |
| EmprestimoService.EmprestimoService.BuscarPorId | src/main/java/br/com/gerenciadoremprestimos/service/EmprestimoService.java:73-78 | BAD_REQUEST for an invalid id, else the lookup's error or the response of the loan with that id |
| PagamentoService.ValidRequestConverts | src/main/java/br/com/gerenciadoremprestimos/dto/PagamentoRequestDTO.java:20-32 | a payment request that passes validation and whose date parses converts without error and names a loan |
| PagamentoService.PagamentoService.FindAll | src/main/java/br/com/gerenciadoremprestimos/service/PagamentoService.java:66 | lists every stored payment exactly once |
| PagamentoService.PagamentoService.Loan | src/main/java/br/com/gerenciadoremprestimos/service/PagamentoService.java:34 | a null loan id is a 500; an unknown one is NOT_FOUND; otherwise the stored loan with that id |
| PagamentoService.PagamentoService.ValidarId | src/main/java/br/com/gerenciadoremprestimos/service/PagamentoService.java:79-83 | passes exactly the ids `contemApenasNumeros` accepts, else BAD_REQUEST "pagamento.idInvalido" |
| PagamentoService.PagamentoService.ObterPagamento | src/main/java/br/com/gerenciadoremprestimos/service/PagamentoService.java:85-88 | a 500 when `Long.valueOf` fails; NOT_FOUND "pagamento.naoExiste" when absent; otherwise the stored payment with that id |
| PagamentoService.PagamentoService.Save | src/main/java/br/com/gerenciadoremprestimos/service/PagamentoService.java:38 | a payment object with a NOT NULL column unset is a 500 with nothing written; otherwise it replaces its row or is inserted under the next id |
| PagamentoService.PagamentoService.Inserir | src/main/java/br/com/gerenciadoremprestimos/service/PagamentoService.java:31-41 | null is a 500; the loan is resolved first; then date, then kind errors, then a null amount (NOT NULL, 500); a valid request for a stored loan with a parsing date always succeeds; success stores the converted request under the next id, listed last; on error the table is unchanged |
| PagamentoService.PagamentoService.Atualizar | src/main/java/br/com/gerenciadoremprestimos/service/PagamentoService.java:43-55 | id check, loan, payment lookup, date (BAD_REQUEST), kind (BAD_REQUEST, or 500 when null), then a null amount (NOT NULL, 500), in that order with each error passed on; success overwrites that one row keeping id, note and timestamps; on error the table is unchanged |
| PagamentoService.PagamentoService.Remover | src/main/java/br/com/gerenciadoremprestimos/service/PagamentoService.java:57-62 | id check, then lookup; deletes exactly the found payment; on error the table is unchanged |
| PagamentoService.PagamentoService.BuscarTodos | src/main/java/br/com/gerenciadoremprestimos/service/PagamentoService.java:64-70 | one response per stored payment, and only those, in `findAll` order; empty for an empty table |
| PagamentoService.PagamentoService.BuscarPorId | src/main/java/br/com/gerenciadoremprestimos/service/PagamentoService.java:72-77 | BAD_REQUEST for an invalid id, else the lookup's error or the response of the payment with that id |

## Left out

- Digits: `Character.isDigit` accepts every Unicode decimal digit. The model accepts the ASCII digits only, which is also all that the phone pattern `\d` and `Long.valueOf` agree on.
- `@NotBlank` trims as `String.trim` does, removing every character up to and including the space. The name search's case folding covers the ASCII letters only; non-ASCII letters are compared as they are.
- `@Size(max = 100)` counts UTF-16 code units; the model counts characters.
- Floating point: amounts, rates and sums are exact reals. IEEE `double` rounding in the SUM formulas is not modelled.
- The monthly aggregates take `int` year and month. A null `Integer` argument (which would make the aggregate NULL) is not modelled, except for `findByDataPagamentoMonth`, whose month is nullable.
- Date parsing covers the ISO calendar with the formatter's default locale and ASCII digits. Other chronologies, decimal styles and parse positions are not modelled.
- Content sniffing in `isImage` (Apache Tika) is foreign code. The detected MIME type is a parameter of `SalvarImagem`, and reading the upload's bytes is an `Option` whose `None` is the `IOException`.
- Message localisation (`MessageSource`) is left out: errors carry the message code, not the text.
- JPA mechanics:
  - The identity generator is a counter per table.
  - Timestamps from the unseen `Base` class are never maintained.
  - Lazy loading and the `merge` of a detached object with an unknown id are not modelled; such a save inserts under the next id.
  - Foreign-key enforcement on delete (deleting a borrower who still has loans) is not modelled. A response whose referenced row is gone carries a null nested record.
- Tables live in the service that owns them. Each repository query takes the table as a sequence; the services use `findAll` and `findByNomeContainingIgnoreCase`, the only queries the core calls.
- `EmprestimoService.inserir` and `atualizar` call `requestDTO.getBeneficiario()`, but the request has only `beneficiarioId`. `PagamentoService` calls the private `EmprestimoService.obterEmprestimo`. Both are modelled as intended: the borrower, or the loan, is looked up by the request's id. `EmprestimoResponseDTO` is taken to have the fields `paraDto` sets.
- PagamentoService.PagamentoService.Inserir: it does not itself state that the loan's received total grows by the amount paid. That follows from its appended row together with `PagamentoRepository.PaymentAddsToLoanTotal`.
- Controllers, the JWT token service, the security filter, login and the user repository are left out. They are HTTP plumbing and foreign cryptography.
