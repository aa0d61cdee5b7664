# Purchase-request portal: the dual-approval workflow

This project models the core of a purchase-request portal.

- A client submits a request (`Solicitacao`) together with one or more supplier quotes (`Cotacao`).
- A manager selects one quote. That fixes the request's value and currency and sets `valorDecidido`.
- The request then passes two approval levels. Level 1 takes "Pendente" to "Parcialmente Aprovado" at level 2. Level 2 takes it to "Aprovado" and stamps `dataAprovacao`.
- The same approver may not approve twice at the same level.
- A rejection is accepted at any time and with no checks.

The workflow exists twice in the source, and this model keeps both versions:

- `Solicitacoes` models the library. Each operation there takes the stored list and returns a new one.
- `Contexto` models the application store, `SolicitacoesProvider`. It is a class holding one request list, with methods that replace it. Store approval checks the first request with the id, then updates every request with that id. It also raises two errors the library does not: "not found" and "invalid level".

Around the workflow the model covers:

- **`Filas`**: the manager's first- and second-approval queues.
- **`Pendentes`**: the pending-approvals page. This covers its search filter, its sort comparator, the `handleSort` state machine (the class `EstadoOrdenacao`) and its counters.
- **`PainelGerente`**: the manager dashboard's statistics and its "five most recent" list.
- **`FormularioNovaSolicitacao`**: the request form. The class `Formulario` holds the draft quote rows and the submit handler. The pure parts are the validation and the filtering of complete quotes.

Shared support lives in these modules:

- `Modelo`: the records and the per-request updates.
- `Carga`: the load normaliser.
- `Comum`: `Option`, `Result` and an order-preserving `Filter`.
- `Textos`: decimal rendering, `padStart`, `split`/`join`, `toLowerCase`, `includes` and code-point order.
- `Datas`: calendar dates and their `DD/MM/YYYY` rendering.
- `Ordenacao`: the stable `Array.prototype.sort` with a key comparator.

Several inputs are parameters of the model rather than computed by it:

- today's date (`Hoje`);
- the random request number;
- the logged-in user's name;
- the number parser for quote values;
- the temporary quote ids.

Behaviours of the code that the model states as proved facts:

- Approval never looks at `status`.
- Rejection checks nothing.
- Nothing stops one manager from giving both approvals (`Solicitacoes.MesmoAprovadorNosDoisNiveis`, `Filas.PrimeiraAprovacaoAvancaFila`). That holds even though the pending page's text asks for two different managers.
- Request ids come from a number below 1000, so two requests can share an id. With a shared id, store approval can record the same (approver, level) pair twice (`Contexto.IdRepetidoDuplicaPar`).
- An unknown id leaves the library's list unchanged (`Solicitacoes.AprovarIdDesconhecido`), whereas the store reports an error.

Where the documentation and the code disagree, the model follows the code. The documentation also describes a required rejection note and a check that the selected quote exists. Neither check is in the workflow code: the note requirement sits in a review dialog, which is not part of this model, and an unknown quote id just leaves the request unchanged.

## Model

| member | source | states |
|---|---|---|
| Modelo.NivelAtual | lib/solicitacoes.ts:564 | the current level is the stored one, or 1 when it is absent or zero; never 0 |
| Modelo.Encontrar | contexts/solicitacoes-context.tsx:453-457 | `.find` by id: none exactly when no request has the id, otherwise the first index with it |
| Modelo.PrimeiraCotacao | lib/solicitacoes.ts:508 | `.find` over quotes: none exactly when no quote has the id, otherwise the first matching index |
| Modelo.SelecionarEm | lib/solicitacoes.ts:505-528 | an absent quote id leaves the request unchanged; otherwise a quote is selected exactly when its id matches, the request takes that quote's value and currency, `valorDecidido` becomes true, and nothing else changes |
| Modelo.ExatamenteUmaSelecionada | lib/solicitacoes.ts:515-518 | with distinct quote ids, selecting an existing quote leaves exactly one quote selected |
| Modelo.SelecionarEmIdempotente | lib/solicitacoes.ts:505-528 | selecting the same quote twice equals selecting it once |
| Modelo.RejeitarEm | lib/solicitacoes.ts:637-660 | status becomes "Rejeitado" and `observacao` the note; exactly one record at the current level is appended; nothing else changes |
| Modelo.AppendKeepsUnique | lib/solicitacoes.ts:566-585 | appending a record whose (approver, level) pair is new keeps all pairs distinct |
| Solicitacoes.CotacoesComId | lib/solicitacoes.ts:468-472 | quote i gets id `COT-<n>-<i+1>` and `selecionada` false, every other field copied; the ids are pairwise distinct |
| Solicitacoes.IdsCotacaoDistintos | lib/solicitacoes.ts:470 | quote ids at different positions differ |
| Solicitacoes.AdicionarSolicitacao | lib/solicitacoes.ts:455-490 | the new request has id `#PED-<year>-<4-digit n>`, today's `DD/MM/YYYY`, status "Pendente", no value, `valorDecidido` false, no approvals, level 1 and the supplied currency; it is put in front of the unchanged list |
| Solicitacoes.SelecionarCotacao | lib/solicitacoes.ts:501-529 | length and ids are kept; requests with other ids are unchanged; each request with the id is updated as `Modelo.SelecionarEm` does |
| Solicitacoes.SelecionarCotacaoSemEfeito | lib/solicitacoes.ts:510-512 | an unknown request id, or a quote id no such request has, returns the list unchanged |
| Solicitacoes.SelecionarCotacaoIdempotente | lib/solicitacoes.ts:505-529 | selecting the same quote twice equals selecting it once |
| Solicitacoes.AprovarEm | lib/solicitacoes.ts:557-607 | the no-quote error iff the value is undecided; the duplicate error iff decided and the approver already holds a record at the current level; otherwise exactly one record at that level is appended, level 1 gives "Parcialmente Aprovado" at level 2, level 2 gives "Aprovado" with `dataAprovacao` today, any other level keeps its status and clears `dataAprovacao`; status is never checked |
| Solicitacoes.AprovarSolicitacao | lib/solicitacoes.ts:540-618 | on success the list keeps its length |
| Solicitacoes.AprovarSolicitacaoSucesso | lib/solicitacoes.ts:556-610 | a successful approval updates exactly the requests with the id, each as `AprovarEm`, and leaves the others unchanged |
| Solicitacoes.AprovarSolicitacaoFalha | lib/solicitacoes.ts:556-617 | the operation fails exactly when some request with the id cannot be approved, and then reports the first such request's error with nothing written |
| Solicitacoes.AprovarSolicitacaoTotal | lib/solicitacoes.ts:556-610 | a list holding what `AprovarEm` makes of each request with the id, and every other request unchanged, is exactly the approval's result |
| Solicitacoes.AprovarIdDesconhecido | lib/solicitacoes.ts:609 | an id no request has returns the list unchanged without error |
| Solicitacoes.AprovarPreservaUnicidade | lib/solicitacoes.ts:567-585 | if no request holds two records for one (approver, level) pair before an approval, none does after it |
| Solicitacoes.MesmoAprovadorNosDoisNiveis | lib/solicitacoes.ts:567-599 | one approver can approve a decided pending request at level 1 and again at level 2, and it becomes "Aprovado" |
| Solicitacoes.RejeitarSolicitacao | lib/solicitacoes.ts:637-662 | length and ids are kept; other requests are unchanged; each request with the id is rejected as `Modelo.RejeitarEm` does |
| Solicitacoes.RejeicaoPodeRepetirPar | lib/solicitacoes.ts:637-660 | a rejection by an approver who already holds a record at the current level creates a repeated (approver, level) pair |
| Solicitacoes.PorStatus | lib/solicitacoes.ts:703-706 | a request is in the result iff it is in the list with that status |
| Solicitacoes.PorNivelAprovacao | lib/solicitacoes.ts:709-712 | a request is in the result iff it is stored at that level and not "Rejeitado" |
| Solicitacoes.ConsultasPreservamOrdem | lib/solicitacoes.ts:703-712 | both filters distribute over concatenation, so they keep stored order |
| Solicitacoes.PorId | lib/solicitacoes.ts:714-717 | none iff no request has the id, otherwise the first request with that id |
| Solicitacoes.PorSolicitante | lib/solicitacoes.ts:719-722 | a request is in the result iff it is in the list with that requester |
| Solicitacoes.PorSolicitantePreservaOrdem | lib/solicitacoes.ts:719-722 | the requester filter distributes over concatenation, so it keeps stored order |
| Carga.Normalizar | lib/solicitacoes.ts:682-689 | the result is normalised: present fields are kept, absent or falsy ones get the defaults ([] quotes, [] approvals, `valorDecidido` true, "BRL", level 1), and every other field is copied |
| Carga.IdaEVolta | contexts/solicitacoes-context.tsx:327-334 | storing then loading a request returns it iff it is already normalised |
| Carga.NormalizarIdempotente | contexts/solicitacoes-context.tsx:327-334 | normalising twice equals normalising once |
| Carga.NormalizarLista | lib/solicitacoes.ts:682 | the normaliser is applied element-wise, keeping length and order |
| Carga.IdaEVoltaLista | contexts/solicitacoes-context.tsx:327-335 | a list survives store-and-load iff all its requests are normalised |
| Carga.CarregarLista | lib/solicitacoes.ts:673-699 | a present entry loads as its normalised records; a missing or unreadable entry loads the sample list |
| Contexto.SolicitanteEfetivo | contexts/solicitacoes-context.tsx:379-385 | the requester is the logged-in user's name, else the supplied name, else "Usuário"; never empty |
| Contexto.NovaNoContexto | contexts/solicitacoes-context.tsx:366-401 | the new request has the generated id and date, status "Pendente", no approvals, level 1, `valorDecidido` false, no value, the quotes exactly as supplied, the effective requester, and no note or approval date |
| Contexto.NivelGuardado | contexts/solicitacoes-context.tsx:471 | on a well-formed request (every stored one, by the store's invariant) the default to level 1 is not taken: approval acts on the stored level |
| Contexto.NovaComoNaBiblioteca | contexts/solicitacoes-context.tsx:391-401 | the store's new request differs from the library's only in the requester and in the quotes not being renumbered |
| Contexto.AtualizarStatusLista | contexts/solicitacoes-context.tsx:432-438 | requests with the id get the new status and keep their old note when the new one is absent or empty; nothing else changes |
| Contexto.AtualizarStatusIdempotente | contexts/solicitacoes-context.tsx:432-438 | repeating the same status update changes nothing more |
| Contexto.AprovarTodas | contexts/solicitacoes-context.tsx:523-540 | every request with the id gets the same update; the others are unchanged |
| Contexto.AprovarNoContexto | contexts/solicitacoes-context.tsx:446-543 | "not found" iff no request has the id; otherwise the no-quote, duplicate and invalid-level errors are checked in that order on the first match, and on success each request with the id gets one record, the new status, the new level and `dataAprovacao` |
| Contexto.AprovarNoContextoSucesso | contexts/solicitacoes-context.tsx:489-540 | a success appends one record at the first match's level: level 1 gives "Parcialmente Aprovado", level 2 and no `dataAprovacao`; level 2 gives "Aprovado", level 2 and today's date; other requests are untouched |
| Contexto.AprovarNoContextoPreservaUnicidade | contexts/solicitacoes-context.tsx:471-528 | with distinct request ids, an approval never creates a second record for an (approver, level) pair |
| Contexto.IdRepetidoDuplicaPar | contexts/solicitacoes-context.tsx:453-528 | with two requests sharing an id, approval can succeed and still give the second a repeated pair |
| Contexto.AprovadaComoAprovarEm | contexts/solicitacoes-context.tsx:499-531 | when the checks pass at level 1 or 2, the store updates a request exactly as the library's `AprovarEm` does |
| Contexto.AprovarComoNaBiblioteca | contexts/solicitacoes-context.tsx:446-543 | with distinct ids, an existing id and a level of 1 or 2, store approval and library approval give the same result |
| Contexto.ErroComoNaBiblioteca | contexts/solicitacoes-context.tsx:464-479 | when the only match cannot be approved, the store and the library report the same error |
| Contexto.AprovarNoContextoPreservaBemFormadas | contexts/solicitacoes-context.tsx:523-540 | a successful approval keeps every request well formed (decided flag present, level present and non-zero) |
| Contexto.AposAprovarPreservaBemFormadas | contexts/solicitacoes-context.tsx:446-559 | whether approval succeeds or fails, the stored list stays well formed |
| Contexto.SolicitacoesProvider.constructor | contexts/solicitacoes-context.tsx:315-316 | the store starts with an empty list, not yet loaded |
| Contexto.SolicitacoesProvider.Carregar | contexts/solicitacoes-context.tsx:319-346 | the first load sets the list to `CarregarLista` of the stored entry and marks it loaded; a later load changes nothing |
| Contexto.SolicitacoesProvider.AdicionarSolicitacao | contexts/solicitacoes-context.tsx:360-427 | returns `NovaNoContexto` and puts it in front of the old list |
| Contexto.SolicitacoesProvider.AtualizarStatus | contexts/solicitacoes-context.tsx:430-443 | the list becomes `AtualizarStatusLista` of the old list |
| Contexto.SolicitacoesProvider.AprovarSolicitacao | contexts/solicitacoes-context.tsx:446-559 | the list and the reported error are `AposAprovar` of the old list: a failure keeps the list |
| Contexto.SolicitacoesProvider.RejeitarSolicitacao | contexts/solicitacoes-context.tsx:562-603 | the list becomes the library's unconditional rejection of the old list |
| Contexto.SolicitacoesProvider.SelecionarCotacao | contexts/solicitacoes-context.tsx:605-644 | the list becomes the library's selection over the old list |
| Filas.FilaPrimeira | app/dashboard/gerente/pendentes/page.tsx:61-68 | a request is queued iff it is in the list, "Pendente", stored at level 1, and the current user has no level-1 record on it |
| Filas.FilaSegunda | app/dashboard/gerente/pendentes/page.tsx:70-77 | a request is queued iff it is in the list, "Parcialmente Aprovado", stored at level 2, and the current user has no level-2 record on it |
| Filas.FilasDisjuntas | app/dashboard/gerente/page.tsx:59-71 | no request is in both queues, whoever the users are |
| Filas.FilasNoMaximoTotal | app/dashboard/gerente/page.tsx:59-71 | the two queue lengths together are at most the number of requests |
| Filas.FilaPrimeiraSemUsuario | app/dashboard/gerente/page.tsx:59-64 | with no user, the first queue is the library's level-1 query filtered to "Pendente" |
| Filas.FilaSegundaSemUsuario | app/dashboard/gerente/page.tsx:66-71 | with no user, the second queue is the library's level-2 query filtered to "Parcialmente Aprovado" |
| Filas.JaAprovouAposAnexar | lib/solicitacoes.ts:567-585 | after a record is appended, its approver holds a record at its level |
| Filas.PrimeiraAprovacaoAvancaFila | app/dashboard/gerente/pendentes/page.tsx:61-77 | approving a decided request from one's first queue succeeds and takes it out of every first queue; it enters that same manager's second queue iff they hold no level-2 record on it |
| Filas.SegundaAprovacaoEsvaziaFilas | app/dashboard/gerente/pendentes/page.tsx:61-77 | approving from the second queue succeeds, gives "Aprovado", and the request is in no queue afterwards |
| Filas.RejeitadaForaDasFilas | app/dashboard/gerente/pendentes/page.tsx:61-77 | a rejected request is in no queue of any user |
| Pendentes.Buscar | app/dashboard/gerente/pendentes/page.tsx:97-105 | a request is kept iff the lower-cased term occurs in its lower-cased id, description, requester (when present) or cost centre; the result is a sub-multiset |
| Pendentes.BuscaVaziaMantemTudo | app/dashboard/gerente/pendentes/page.tsx:97-105 | an empty term keeps every request, in order |
| Pendentes.BuscaIgnoraCaixa | app/dashboard/gerente/pendentes/page.tsx:97-105 | the search result does not depend on the case of the term |
| Pendentes.BuscaPreservaOrdem | app/dashboard/gerente/pendentes/page.tsx:97-105 | the search distributes over concatenation, so relative order is kept |
| Pendentes.BuscaIdempotente | app/dashboard/gerente/pendentes/page.tsx:97-105 | searching the filtered queue again with the same term returns it unchanged |
| Pendentes.BuscaPeloIdEncontra | app/dashboard/gerente/pendentes/page.tsx:100 | searching for a request's id, in any case, finds it |
| Pendentes.Ordenar | app/dashboard/gerente/pendentes/page.tsx:108-155 | the result is a permutation of the queue; with no sort field the queue is returned as it is |
| Pendentes.OrdenarOrdena | app/dashboard/gerente/pendentes/page.tsx:112-153 | for a known field, and defined date keys when sorting by date, the result is ordered by the field's key in the chosen direction |
| Pendentes.CampoDesconhecidoMantem | app/dashboard/gerente/pendentes/page.tsx:147-148 | an unknown field makes every comparison 0, so the stable sort keeps the queue as it is |
| Pendentes.ChaveDataDeDataFormatada | app/dashboard/gerente/pendentes/page.tsx:132-138 | the date key of a rendered valid date is its `yyyymmdd` number, and one key is below another iff the first date is earlier |
| Pendentes.Exibida | app/dashboard/gerente/pendentes/page.tsx:158-162 | the displayed queue holds exactly the queued requests that match the term, each at most as often as queued |
| Pendentes.AposClique | app/dashboard/gerente/pendentes/page.tsx:165-174 | after a click the field is the clicked one; the same field flips the direction; a new field starts descending |
| Pendentes.CliqueDuploRestaura | app/dashboard/gerente/pendentes/page.tsx:165-169 | two clicks on the current field restore the direction |
| Pendentes.CliqueDuploNovoCampo | app/dashboard/gerente/pendentes/page.tsx:165-174 | two clicks on a new field leave it sorted ascending |
| Pendentes.EstadoOrdenacao.constructor | app/dashboard/gerente/pendentes/page.tsx:36-37 | no sort field, direction descending |
| Pendentes.EstadoOrdenacao.HandleSort | app/dashboard/gerente/pendentes/page.tsx:165-174 | the new (field, direction) is `AposClique` of the old state and the clicked field |
| Pendentes.UrgentesCount | app/dashboard/gerente/pendentes/page.tsx:421-422 | the urgent count is the number of "alta" requests across both displayed queues, and at most their total |
| Pendentes.ContadoresLimitados | app/dashboard/gerente/pendentes/page.tsx:421-422 | on what the page shows, the urgent count is at most the pending total, which is at most the number of stored requests |
| PainelGerente.CalcularEstatisticas | app/dashboard/gerente/page.tsx:73-102 | total is the number of requests; pending is first plus second queue; approved, rejected and open-urgent counts are the numbers of requests with those properties |
| PainelGerente.PartesDoTotal | app/dashboard/gerente/page.tsx:94-101 | pending, approved and rejected together are at most the total |
| PainelGerente.PendentesComoNaPagina | app/dashboard/gerente/page.tsx:94-96 | the dashboard's pending count equals the pending page's total for an empty search |
| PainelGerente.Recentes | app/dashboard/gerente/page.tsx:80-86 | at most five requests, and exactly `min(5, n)`, drawn from the list and ordered by descending date key |
| PainelGerente.NenhumaOmitidaMaisRecente | app/dashboard/gerente/page.tsx:80-86 | no request left out of the five has a larger date key than one shown |
| PainelGerente.ChaveRecenteCronologica | app/dashboard/gerente/page.tsx:82-84 | the key of a rendered valid date is `yyyy` + `mm` + `dd`, and one key is below another iff the first date is earlier |
| Datas.DiasNoMes | lib/solicitacoes.ts:551 | the Gregorian month lengths with the leap-year rule: the calendar from which `getDate()` takes its day; a valid date (`DataValida`) has a day of at most this, which is 28 to 31 |
| Datas.ValorDataCronologico | app/dashboard/gerente/pendentes/page.tsx:132-138 | the `yyyymmdd` number orders dates chronologically |
| Datas.PartesDaData | lib/solicitacoes.ts:551-554 | splitting a rendered date on "/" gives the padded day, the padded month and the year |
| FormularioNovaSolicitacao.SemEspacoInicial | app/dashboard/cliente/nova-solicitacao/page.tsx:74 | the result is a suffix that starts with no whitespace, and everything removed is whitespace |
| FormularioNovaSolicitacao.SemEspacoFinal | app/dashboard/cliente/nova-solicitacao/page.tsx:74 | the result is a prefix that ends with no whitespace, and everything removed is whitespace |
| FormularioNovaSolicitacao.TrimNaoVazio | app/dashboard/cliente/nova-solicitacao/page.tsx:74 | a trimmed string is non-empty iff the string has a non-whitespace character |
| FormularioNovaSolicitacao.ComCampo | app/dashboard/cliente/nova-solicitacao/page.tsx:47 | the chosen field takes the value and every other field is unchanged |
| FormularioNovaSolicitacao.RemoverEm | app/dashboard/cliente/nova-solicitacao/page.tsx:57-68 | at most one row, or an index out of range, leaves the rows unchanged; otherwise exactly that row is removed in order; a non-empty list stays non-empty |
| FormularioNovaSolicitacao.CotacoesValidas | app/dashboard/cliente/nova-solicitacao/page.tsx:71-76 | true iff some row has non-blank supplier, value and delivery time |
| Comum.Any | app/dashboard/cliente/nova-solicitacao/page.tsx:72-75 | `some(p)` is true iff some element satisfies `p` |
| FormularioNovaSolicitacao.Formatar | app/dashboard/cliente/nova-solicitacao/page.tsx:137-144 | a submitted quote has the temporary id, the parsed value, `selecionada` false, the row's supplier, currency and delivery time, and a note only when one was typed |
| FormularioNovaSolicitacao.CotacoesFormatadas | app/dashboard/cliente/nova-solicitacao/page.tsx:135-145 | the submitted quotes are exactly the complete rows, in order, each formatted |
| FormularioNovaSolicitacao.TodasCompletasSaoEnviadas | app/dashboard/cliente/nova-solicitacao/page.tsx:135-136 | when every row is complete, every row is submitted |
| FormularioNovaSolicitacao.IncompletasNaoSaoEnviadas | app/dashboard/cliente/nova-solicitacao/page.tsx:135-136 | an incomplete row contributes nothing, wherever it stands |
| FormularioNovaSolicitacao.Enviar | app/dashboard/cliente/nova-solicitacao/page.tsx:113-158 | refused for missing fields iff description, justification or cost centre is empty; refused for quotes iff those fields are filled and no row is complete; otherwise the payload copies the fields, names "Carlos Silva", uses the default currency and holds at least one formatted quote |
| FormularioNovaSolicitacao.Formulario.constructor | app/dashboard/cliente/nova-solicitacao/page.tsx:29-42 | empty fields, normal urgency, "BRL", one blank row, not submitting |
| FormularioNovaSolicitacao.Formulario.AtualizarCotacao | app/dashboard/cliente/nova-solicitacao/page.tsx:45-49 | only that field of that row changes; the other rows and the other fields are unchanged |
| FormularioNovaSolicitacao.Formulario.AdicionarCotacao | app/dashboard/cliente/nova-solicitacao/page.tsx:52-54 | exactly one blank row in the default currency is appended |
| FormularioNovaSolicitacao.Formulario.RemoverCotacao | app/dashboard/cliente/nova-solicitacao/page.tsx:57-68 | the rows become `RemoverEm` of the old rows, so at least one row remains |
| FormularioNovaSolicitacao.Formulario.HandleSubmit | app/dashboard/cliente/nova-solicitacao/page.tsx:105-183 | a refusal leaves the store unchanged and clears the submitting flag; an accepted submission adds the payload to the store, in front, and leaves the flag set; the draft's text fields, urgency and default currency keep their values |
| Ordenacao.OrdenarPor | app/dashboard/gerente/pendentes/page.tsx:111 | the sorted copy is a permutation of the input |
| Ordenacao.OrdenarPorOrdena | app/dashboard/gerente/pendentes/page.tsx:151-153 | with defined keys the sorted copy is ordered in the requested direction |
| Ordenacao.OrdenarPorOrdenadaIdentidade | app/dashboard/gerente/page.tsx:81 | sorting an already ordered list leaves it exactly as it is (the sort is stable) |
| Ordenacao.NaoPrecedeTransitiva | app/dashboard/gerente/pendentes/page.tsx:151-153 | on defined keys the comparator's "not before" is transitive |
| Ordenacao.PrefixoOrdenado | app/dashboard/gerente/page.tsx:80-86 | the first `n` elements of an ordered list are ordered |
| Ordenacao.OmitidoNaoPrecede | app/dashboard/gerente/page.tsx:80-86 | an element of an ordered list past its first `n` never precedes one of those `n` |
| Textos.DecimalValueOfDecimal | lib/solicitacoes.ts:457-459 | the decimal rendering of n consists of digits whose value is n |
| Textos.DecimalInjective | lib/solicitacoes.ts:470 | different numbers render differently |
| Textos.SplitJoin | app/dashboard/gerente/page.tsx:82-83 | splitting a join of separator-free pieces gives back the pieces |
| Textos.ToLowerIdempotent | app/dashboard/gerente/pendentes/page.tsx:100-103 | lower-casing twice is lower-casing once |
| Textos.IncludesAt | app/dashboard/gerente/pendentes/page.tsx:100-103 | `includes` holds iff the term occurs at some position |
| Textos.LexLessTotal | app/dashboard/gerente/page.tsx:84 | code-point order is total on distinct strings |

## Left out

- Persistence is not modelled: the local key-value store, JSON parsing and serialising, console logging, toasts, navigation and React effects. The stored entry is a value (`Carga.Armazenamento`), and the sample data is a parameter of the load.
- The clock, the random number, the logged-in user's name, `Number.parseFloat` and the random temporary quote ids are parameters. The model does not capture NaN from a value that does not parse.
- The library reads the stored list itself (`getSolicitacoes`) before each operation. In the model its operations take that list as an argument.
- Currency handling (exchange rates, `Intl.NumberFormat`, `formatCurrency`) and the form's `atualizarMoedaPadrao` are left out. They are floating-point conversions and a browser confirmation dialog. Currencies are plain strings, and amounts are opaque reals that are only copied.
- The form's plain setters (`setDescricao`, `setUrgencia` and the like) are assignments to the public fields of `Formulario`. They are not separate methods.
- FormularioNovaSolicitacao.Formulario.AtualizarCotacao: requires an index within the rows, because JavaScript would grow a sparse array for any other index and that state has no counterpart in the model. The page only calls it with indices of rendered rows.
- Pendentes.ChaveData: dates that are not exactly `DD/MM/YYYY` with a four-digit year, or whose day is past the month's end, become an invalid key. No order is claimed for queues holding such dates, because a NaN comparator gives the sort no consistent order. Engines that roll an overflowing day into the next month are not modelled.
- Pendentes.Ordenar: text keys are compared by code point. JavaScript compares UTF-16 code units, which differs only for characters outside the Basic Multilingual Plane.
- PainelGerente.Recentes: `localeCompare` is modelled as code-point order. That matches locale collation on the digit strings the keys hold for well-formed dates, but not on arbitrary text.
- Textos.ToLower: lower-cases ASCII and Latin-1 capital letters only. Case mappings beyond Latin-1 are not modelled.
- The review dialog, the display-only client and history pages, authentication and routing are not part of this model.
- Time stamps of approvals are the date only, as the source writes them. Time zones are not modelled.
