/** The library implementation of the workflow: every operation takes the
    loaded list and returns the list to be written back (or aborts). */
module Solicitacoes {
  import opened Comum
  import opened Textos
  import opened Modelo

  // ---------------------------------------------------------------------
  // Submission
  // ---------------------------------------------------------------------

  /** The id of the quote at position `i` (0-based): `COT-<number>-<i + 1>`. */
  function IdCotacao(numero: nat, i: nat): string
  {
    "COT-" + NumeroPedido(numero) + "-" + Decimal(i + 1)
  }

  /** Quotes at different positions get different ids. */
  lemma IdsCotacaoDistintos(numero: nat, i: nat, j: nat)
    ensures IdCotacao(numero, i) == IdCotacao(numero, j) ==> i == j
  {
    MesmoPrefixo("COT-" + NumeroPedido(numero) + "-", Decimal(i + 1), Decimal(j + 1));
    DecimalInjective(i + 1, j + 1);
  }

  lemma MesmoPrefixo(p: string, a: string, b: string)
    ensures p + a == p + b ==> a == b
  {
    if p + a == p + b {
      assert (p + a)[|p|..] == a && (p + b)[|p|..] == b;
    }
  }

  /** The submitted quotes, numbered in input order and none selected. */
  function CotacoesComId(cs: seq<Cotacao>, numero: nat): (r: seq<Cotacao>)
    ensures |r| == |cs|
    ensures forall i :: 0 <= i < |r| ==> r[i].id == IdCotacao(numero, i) && r[i].selecionada == Some(false)
    ensures forall i :: 0 <= i < |r| ==> r[i].(id := cs[i].id, selecionada := cs[i].selecionada) == cs[i]
    ensures IdsCotacaoUnicos(r)
  {
    var r := seq(|cs|, i requires 0 <= i < |cs| => cs[i].(id := IdCotacao(numero, i), selecionada := Some(false)));
    assert IdsCotacaoUnicos(r) by {
      forall i, j | 0 <= i < j < |r| ensures r[i].id != r[j].id {
        IdsCotacaoDistintos(numero, i, j);
      }
    }
    r
  }

  /** `adicionarSolicitacao`: the new request and the list with it in front.
      `numero` is the random number and `hoje` the current date. */
  function AdicionarSolicitacao(lista: seq<Solicitacao>, nova: NovaSolicitacao, numero: nat, hoje: Hoje)
    : (r: (Solicitacao, seq<Solicitacao>))
    ensures r.1 == [r.0] + lista
    ensures r.0.id == IdPedido(hoje, numero) && r.0.data == DataFormatada(hoje)
    ensures r.0.status == Pendente && r.0.valor == None && r.0.valorDecidido == Some(false)
    ensures r.0.aprovacoes == [] && r.0.nivelAtualAprovacao == Some(1) && r.0.moeda == nova.moeda
    ensures r.0.descricao == nova.descricao && r.0.justificativa == nova.justificativa
    ensures r.0.urgencia == nova.urgencia && r.0.centroCusto == nova.centroCusto
    ensures r.0.solicitante == nova.solicitante
    ensures r.0.observacao == None && r.0.dataAprovacao == None
    ensures |r.0.cotacoes| == |nova.cotacoes|
    ensures forall i :: 0 <= i < |nova.cotacoes| ==>
              r.0.cotacoes[i] == nova.cotacoes[i].(id := IdCotacao(numero, i), selecionada := Some(false))
    ensures IdsCotacaoUnicos(r.0.cotacoes)
  {
    var s := Solicitacao(
      IdPedido(hoje, numero), DataFormatada(hoje), nova.descricao, None, nova.moeda,
      nova.justificativa, nova.urgencia, nova.centroCusto, Pendente, nova.solicitante,
      None, None, CotacoesComId(nova.cotacoes, numero), Some(false), [], Some(1));
    (s, [s] + lista)
  }

  // ---------------------------------------------------------------------
  // Quote selection
  // ---------------------------------------------------------------------

  /** `selecionarCotacao`: applies the selection to every request with the id. */
  function SelecionarCotacao(l: seq<Solicitacao>, solicitacaoId: string, cotacaoId: string): (r: seq<Solicitacao>)
    ensures |r| == |l|
    ensures forall i :: 0 <= i < |l| ==> r[i].id == l[i].id
    ensures forall i :: 0 <= i < |l| && l[i].id != solicitacaoId ==> r[i] == l[i]
    ensures forall i :: 0 <= i < |l| && l[i].id == solicitacaoId ==> r[i] == SelecionarEm(l[i], cotacaoId)
  {
    MapearPorId(l, solicitacaoId, s => SelecionarEm(s, cotacaoId))
  }

  /** An unknown request id, or a quote id no such request has, returns the list unchanged. */
  lemma SelecionarCotacaoSemEfeito(l: seq<Solicitacao>, solicitacaoId: string, cotacaoId: string)
    requires forall i, k :: 0 <= i < |l| && l[i].id == solicitacaoId && 0 <= k < |l[i].cotacoes|
               ==> l[i].cotacoes[k].id != cotacaoId
    ensures SelecionarCotacao(l, solicitacaoId, cotacaoId) == l
  {
  }

  /** Selecting the same quote twice is selecting it once. */
  lemma SelecionarCotacaoIdempotente(l: seq<Solicitacao>, solicitacaoId: string, cotacaoId: string)
    ensures SelecionarCotacao(SelecionarCotacao(l, solicitacaoId, cotacaoId), solicitacaoId, cotacaoId)
         == SelecionarCotacao(l, solicitacaoId, cotacaoId)
  {
    var once := SelecionarCotacao(l, solicitacaoId, cotacaoId);
    forall i | 0 <= i < |l| && l[i].id == solicitacaoId
      ensures SelecionarEm(once[i], cotacaoId) == once[i]
    {
      SelecionarEmIdempotente(l[i], cotacaoId);
    }
  }

  // ---------------------------------------------------------------------
  // Approval
  // ---------------------------------------------------------------------

  /** The approval of one matching request, as the library performs it inside
      its `.map`: status is never consulted, and a level other than 1 or 2
      is not an error. */
  function AprovarEm(s: Solicitacao, aprovadorId: string, aprovadorNome: string, observacao: Option<string>, hoje: Hoje)
    : (r: Result<Solicitacao, Erro>)
    ensures r == Err(SemCotacao) <==> !Decidido(s)
    ensures r == Err(AprovacaoDuplicada) <==> Decidido(s) && JaAprovouNoNivel(s.aprovacoes, aprovadorId, NivelAtual(s))
    ensures r.Ok? <==> Decidido(s) && !JaAprovouNoNivel(s.aprovacoes, aprovadorId, NivelAtual(s))
    // exactly one record is appended, at the current level
    ensures r.Ok? ==>
              r.value.aprovacoes == s.aprovacoes + [Aprovacao(aprovadorId, aprovadorNome, DataFormatada(hoje), observacao, NivelAtual(s))]
    ensures r.Ok? && NivelAtual(s) == 1 ==>
              r.value.status == ParcialmenteAprovado && r.value.nivelAtualAprovacao == Some(2)
              && r.value.dataAprovacao == None
    ensures r.Ok? && NivelAtual(s) == 2 ==>
              r.value.status == Aprovado && r.value.nivelAtualAprovacao == Some(2)
              && r.value.dataAprovacao == Some(DataFormatada(hoje))
    ensures r.Ok? && NivelAtual(s) != 1 && NivelAtual(s) != 2 ==>
              r.value.status == s.status && r.value.nivelAtualAprovacao == Some(NivelAtual(s))
              && r.value.dataAprovacao == (if s.status == Aprovado then Some(DataFormatada(hoje)) else None)
    // nothing else changes
    ensures r.Ok? ==> r.value.(status := s.status, aprovacoes := s.aprovacoes,
                               nivelAtualAprovacao := s.nivelAtualAprovacao, dataAprovacao := s.dataAprovacao) == s
  {
    if !Decidido(s) then Err(SemCotacao)
    else
      var nivel := NivelAtual(s);
      if JaAprovouNoNivel(s.aprovacoes, aprovadorId, nivel) then Err(AprovacaoDuplicada)
      else
        var aprovacao := Aprovacao(aprovadorId, aprovadorNome, DataFormatada(hoje), observacao, nivel);
        var status := if nivel == 1 then ParcialmenteAprovado else if nivel == 2 then Aprovado else s.status;
        var novoNivel := if nivel == 1 then 2 else nivel;
        Ok(s.(status := status,
              aprovacoes := s.aprovacoes + [aprovacao],
              nivelAtualAprovacao := Some(novoNivel),
              dataAprovacao := if status == Aprovado then Some(DataFormatada(hoje)) else None))
  }

  /** Applies `f` to every request with the id, in list order; the first
      `Err` aborts the whole pass (a `throw` inside `.map`). */
  function AplicarPorId(l: seq<Solicitacao>, id: string, f: Solicitacao -> Result<Solicitacao, Erro>)
    : (r: Result<seq<Solicitacao>, Erro>)
    ensures r.Ok? ==> |r.value| == |l|
  {
    if l == [] then Ok([])
    else
      var cabeca := if l[0].id == id then f(l[0]) else Ok(l[0]);
      match cabeca
      case Err(e) => Err(e)
      case Ok(s) =>
        match AplicarPorId(l[1..], id, f)
        case Err(e) => Err(e)
        case Ok(resto) => Ok([s] + resto)
  }

  lemma {:induction false} AplicarPorIdSucesso(l: seq<Solicitacao>, id: string, f: Solicitacao -> Result<Solicitacao, Erro>)
    requires AplicarPorId(l, id, f).Ok?
    ensures var r := AplicarPorId(l, id, f).value;
            && |r| == |l|
            && (forall i :: 0 <= i < |l| && l[i].id != id ==> r[i] == l[i])
            && (forall i :: 0 <= i < |l| && l[i].id == id ==> f(l[i]) == Ok(r[i]))
  {
    if l != [] {
      AplicarPorIdSucesso(l[1..], id, f);
      var r := AplicarPorId(l, id, f).value;
      var resto := AplicarPorId(l[1..], id, f).value;
      assert r[1..] == resto;
    }
  }

  lemma AplicarPorIdFalha(l: seq<Solicitacao>, id: string, f: Solicitacao -> Result<Solicitacao, Erro>)
    ensures var r := AplicarPorId(l, id, f);
            && (r.Err? <==> exists i :: 0 <= i < |l| && l[i].id == id && f(l[i]).Err?)
            && (r.Err? ==> exists i :: 0 <= i < |l| && l[i].id == id && f(l[i]) == Err(r.error)
                                 && forall j :: 0 <= j < i && l[j].id == id ==> f(l[j]).Ok?)
  {
    AplicarPorIdFalhaSe(l, id, f);
    AplicarPorIdPrimeiroErro(l, id, f);
  }

  /** The pass fails exactly when some request with the id fails. */
  lemma {:induction false} AplicarPorIdFalhaSe(l: seq<Solicitacao>, id: string, f: Solicitacao -> Result<Solicitacao, Erro>)
    ensures AplicarPorId(l, id, f).Err? <==> exists i :: 0 <= i < |l| && l[i].id == id && f(l[i]).Err?
  {
    if l != [] {
      AplicarPorIdFalhaSe(l[1..], id, f);
      if !(l[0].id == id && f(l[0]).Err?) {
        forall i | 0 < i < |l| ensures l[i] == l[1..][i - 1] {}
      }
    }
  }

  /** A failing pass reports the error of the first request with the id that fails. */
  lemma {:induction false} AplicarPorIdPrimeiroErro(l: seq<Solicitacao>, id: string, f: Solicitacao -> Result<Solicitacao, Erro>)
    ensures var r := AplicarPorId(l, id, f);
            r.Err? ==> exists i :: 0 <= i < |l| && l[i].id == id && f(l[i]) == Err(r.error)
                          && forall j :: 0 <= j < i && l[j].id == id ==> f(l[j]).Ok?
  {
    if l != [] && !(l[0].id == id && f(l[0]).Err?) {
      AplicarPorIdPrimeiroErro(l[1..], id, f);
      var rr := AplicarPorId(l[1..], id, f);
      if rr.Err? {
        var i :| 0 <= i < |l| - 1 && l[1..][i].id == id && f(l[1..][i]) == Err(rr.error)
                 && forall j :: 0 <= j < i && l[1..][j].id == id ==> f(l[1..][j]).Ok?;
        assert l[i + 1] == l[1..][i];
        assert forall j :: 1 <= j < i + 1 ==> l[j] == l[1..][j - 1];
      }
    }
  }

  /** Conversely, a list that agrees with `f` on every request with the id and
      with the input elsewhere is the result of the pass. */
  lemma {:induction false} AplicarPorIdTotal(l: seq<Solicitacao>, id: string, f: Solicitacao -> Result<Solicitacao, Erro>,
                                             r: seq<Solicitacao>)
    requires |r| == |l|
    requires forall i :: 0 <= i < |l| && l[i].id != id ==> r[i] == l[i]
    requires forall i :: 0 <= i < |l| && l[i].id == id ==> f(l[i]) == Ok(r[i])
    ensures AplicarPorId(l, id, f) == Ok(r)
  {
    if l != [] {
      forall i | 0 <= i < |l[1..]| && l[1..][i].id != id ensures r[1..][i] == l[1..][i] {
        assert l[1..][i] == l[i + 1] && r[1..][i] == r[i + 1];
      }
      forall i | 0 <= i < |l[1..]| && l[1..][i].id == id ensures f(l[1..][i]) == Ok(r[1..][i]) {
        assert l[1..][i] == l[i + 1] && r[1..][i] == r[i + 1];
      }
      AplicarPorIdTotal(l[1..], id, f, r[1..]);
      assert r == [r[0]] + r[1..];
    }
  }

  /** `aprovarSolicitacao`: approves every request with the id, in list order;
      the first one that throws aborts the whole operation and nothing is written. */
  function AprovarSolicitacao(l: seq<Solicitacao>, id: string, aprovadorId: string, aprovadorNome: string,
                              observacao: Option<string>, hoje: Hoje): (r: Result<seq<Solicitacao>, Erro>)
    ensures r.Ok? ==> |r.value| == |l|
  {
    AplicarPorId(l, id, s => AprovarEm(s, aprovadorId, aprovadorNome, observacao, hoje))
  }

  /** A successful approval updates exactly the requests with the id, each as `AprovarEm` does. */
  lemma AprovarSolicitacaoSucesso(l: seq<Solicitacao>, id: string, aprovadorId: string,
                                  aprovadorNome: string, observacao: Option<string>, hoje: Hoje)
    requires AprovarSolicitacao(l, id, aprovadorId, aprovadorNome, observacao, hoje).Ok?
    ensures var r := AprovarSolicitacao(l, id, aprovadorId, aprovadorNome, observacao, hoje).value;
            && |r| == |l|
            && (forall i :: 0 <= i < |l| && l[i].id != id ==> r[i] == l[i])
            && (forall i :: 0 <= i < |l| && l[i].id == id ==>
                  AprovarEm(l[i], aprovadorId, aprovadorNome, observacao, hoje) == Ok(r[i]))
  {
    AplicarPorIdSucesso(l, id, s => AprovarEm(s, aprovadorId, aprovadorNome, observacao, hoje));
  }

  /** The operation aborts exactly when some request with the id cannot be approved,
      and it reports the error of the first such request. */
  lemma AprovarSolicitacaoFalha(l: seq<Solicitacao>, id: string, aprovadorId: string,
                                aprovadorNome: string, observacao: Option<string>, hoje: Hoje)
    ensures var r := AprovarSolicitacao(l, id, aprovadorId, aprovadorNome, observacao, hoje);
            && (r.Err? <==> exists i :: 0 <= i < |l| && l[i].id == id
                                 && AprovarEm(l[i], aprovadorId, aprovadorNome, observacao, hoje).Err?)
            && (r.Err? ==> exists i :: 0 <= i < |l| && l[i].id == id
                                 && AprovarEm(l[i], aprovadorId, aprovadorNome, observacao, hoje) == Err(r.error)
                                 && forall j :: 0 <= j < i && l[j].id == id ==>
                                      AprovarEm(l[j], aprovadorId, aprovadorNome, observacao, hoje).Ok?)
  {
    AplicarPorIdFalha(l, id, s => AprovarEm(s, aprovadorId, aprovadorNome, observacao, hoje));
  }

  /** The converse of the above: a list that holds, for every request with the
      id, what `AprovarEm` makes of it, and leaves the rest alone, is the result. */
  lemma AprovarSolicitacaoTotal(l: seq<Solicitacao>, id: string, aprovadorId: string,
                                aprovadorNome: string, observacao: Option<string>, hoje: Hoje, r: seq<Solicitacao>)
    requires |r| == |l|
    requires forall i :: 0 <= i < |l| && l[i].id != id ==> r[i] == l[i]
    requires forall i :: 0 <= i < |l| && l[i].id == id ==> AprovarEm(l[i], aprovadorId, aprovadorNome, observacao, hoje) == Ok(r[i])
    ensures AprovarSolicitacao(l, id, aprovadorId, aprovadorNome, observacao, hoje) == Ok(r)
  {
    AplicarPorIdTotal(l, id, s => AprovarEm(s, aprovadorId, aprovadorNome, observacao, hoje), r);
  }

  /** An id no request has leaves the list as it is. */
  lemma AprovarIdDesconhecido(l: seq<Solicitacao>, id: string, aprovadorId: string,
                              aprovadorNome: string, observacao: Option<string>, hoje: Hoje)
    requires forall i :: 0 <= i < |l| ==> l[i].id != id
    ensures AprovarSolicitacao(l, id, aprovadorId, aprovadorNome, observacao, hoje) == Ok(l)
  {
    AprovarSolicitacaoFalha(l, id, aprovadorId, aprovadorNome, observacao, hoje);
    AprovarSolicitacaoSucesso(l, id, aprovadorId, aprovadorNome, observacao, hoje);
    var r := AprovarSolicitacao(l, id, aprovadorId, aprovadorNome, observacao, hoje).value;
    assert r == l;
  }

  /** One approval never creates a second record for an (approver, level) pair. */
  lemma AprovarEmPreservaUnicidade(s: Solicitacao, aprovadorId: string, aprovadorNome: string,
                                   observacao: Option<string>, hoje: Hoje)
    requires AprovacoesUnicas(s.aprovacoes)
    requires AprovarEm(s, aprovadorId, aprovadorNome, observacao, hoje).Ok?
    ensures AprovacoesUnicas(AprovarEm(s, aprovadorId, aprovadorNome, observacao, hoje).value.aprovacoes)
  {
    AppendKeepsUnique(s.aprovacoes, Aprovacao(aprovadorId, aprovadorNome, DataFormatada(hoje), observacao, NivelAtual(s)));
  }

  lemma AprovarPreservaUnicidade(l: seq<Solicitacao>, id: string, aprovadorId: string, aprovadorNome: string,
                                 observacao: Option<string>, hoje: Hoje)
    requires forall i :: 0 <= i < |l| ==> AprovacoesUnicas(l[i].aprovacoes)
    requires AprovarSolicitacao(l, id, aprovadorId, aprovadorNome, observacao, hoje).Ok?
    ensures var r := AprovarSolicitacao(l, id, aprovadorId, aprovadorNome, observacao, hoje).value;
            forall i :: 0 <= i < |r| ==> AprovacoesUnicas(r[i].aprovacoes)
  {
    AprovarSolicitacaoSucesso(l, id, aprovadorId, aprovadorNome, observacao, hoje);
    var r := AprovarSolicitacao(l, id, aprovadorId, aprovadorNome, observacao, hoje).value;
    forall i | 0 <= i < |r| ensures AprovacoesUnicas(r[i].aprovacoes) {
      if l[i].id == id {
        AprovarEmPreservaUnicidade(l[i], aprovadorId, aprovadorNome, observacao, hoje);
      }
    }
  }

  /** Two approvals take a decided pending request to "Aprovado" even when both
      come from the same approver: only a repeat at the same level is refused. */
  lemma MesmoAprovadorNosDoisNiveis(s: Solicitacao, aprovadorId: string, nome: string, hoje: Hoje)
    requires s.status == Pendente && s.nivelAtualAprovacao == Some(1)
    requires Decidido(s) && s.aprovacoes == []
    ensures AprovarEm(s, aprovadorId, nome, None, hoje).Ok?
    ensures AprovarEm(AprovarEm(s, aprovadorId, nome, None, hoje).value, aprovadorId, nome, None, hoje).Ok?
    ensures AprovarEm(AprovarEm(s, aprovadorId, nome, None, hoje).value, aprovadorId, nome, None, hoje).value.status == Aprovado
  {
    PrimeiraAprovacao(s, aprovadorId, nome, hoje);
    SegundaAprovacaoAposPrimeira(AprovarEm(s, aprovadorId, nome, None, hoje).value, aprovadorId, nome, hoje);
  }

  lemma PrimeiraAprovacao(s: Solicitacao, aprovadorId: string, nome: string, hoje: Hoje)
    requires s.status == Pendente && s.nivelAtualAprovacao == Some(1)
    requires Decidido(s) && s.aprovacoes == []
    ensures AprovarEm(s, aprovadorId, nome, None, hoje).Ok?
    ensures var s1 := AprovarEm(s, aprovadorId, nome, None, hoje).value;
            && s1.status == ParcialmenteAprovado && s1.nivelAtualAprovacao == Some(2) && Decidido(s1)
            && s1.aprovacoes == [Aprovacao(aprovadorId, nome, DataFormatada(hoje), None, 1)]
  {
    assert NivelAtual(s) == 1;
  }

  lemma SegundaAprovacaoAposPrimeira(s1: Solicitacao, aprovadorId: string, nome: string, hoje: Hoje)
    requires s1.nivelAtualAprovacao == Some(2) && Decidido(s1)
    requires s1.aprovacoes == [Aprovacao(aprovadorId, nome, DataFormatada(hoje), None, 1)]
    ensures AprovarEm(s1, aprovadorId, nome, None, hoje).Ok?
    ensures AprovarEm(s1, aprovadorId, nome, None, hoje).value.status == Aprovado
  {
    assert NivelAtual(s1) == 2;
    assert !JaAprovouNoNivel(s1.aprovacoes, aprovadorId, 2);
  }

  // ---------------------------------------------------------------------
  // Rejection
  // ---------------------------------------------------------------------

  /** `rejeitarSolicitacao`: rejects every request with the id, unconditionally. */
  function RejeitarSolicitacao(l: seq<Solicitacao>, id: string, aprovadorId: string, aprovadorNome: string,
                               observacao: string, hoje: Hoje): (r: seq<Solicitacao>)
    ensures |r| == |l|
    ensures forall i :: 0 <= i < |l| ==> r[i].id == l[i].id
    ensures forall i :: 0 <= i < |l| && l[i].id != id ==> r[i] == l[i]
    ensures forall i :: 0 <= i < |l| && l[i].id == id ==>
              r[i] == RejeitarEm(l[i], aprovadorId, aprovadorNome, observacao, hoje)
  {
    MapearPorId(l, id, s => RejeitarEm(s, aprovadorId, aprovadorNome, observacao, hoje))
  }

  /** Rejection does not test for a repeated pair: an approver who already
      holds a record at the current level can add a second one. */
  lemma RejeicaoPodeRepetirPar(s: Solicitacao, aprovadorId: string, aprovadorNome: string, observacao: string, hoje: Hoje)
    requires JaAprovouNoNivel(s.aprovacoes, aprovadorId, NivelAtual(s))
    ensures !AprovacoesUnicas(RejeitarEm(s, aprovadorId, aprovadorNome, observacao, hoje).aprovacoes)
  {
    var r := RejeitarEm(s, aprovadorId, aprovadorNome, observacao, hoje).aprovacoes;
    var i :| 0 <= i < |s.aprovacoes| && s.aprovacoes[i].aprovadorId == aprovadorId && s.aprovacoes[i].nivel == NivelAtual(s);
    assert r[i] == s.aprovacoes[i];
    assert r[|s.aprovacoes|].aprovadorId == aprovadorId && r[|s.aprovacoes|].nivel == NivelAtual(s);
  }

  // ---------------------------------------------------------------------
  // Queries
  // ---------------------------------------------------------------------

  function PorStatus(l: seq<Solicitacao>, status: Status): (r: seq<Solicitacao>)
    ensures forall s :: s in r <==> s in l && s.status == status
  {
    Filter(l, (s: Solicitacao) => s.status == status)
  }

  /** The requests stored at level `nivel` that are not rejected (the level is compared as stored). */
  function PorNivelAprovacao(l: seq<Solicitacao>, nivel: int): (r: seq<Solicitacao>)
    ensures forall s :: s in r <==> s in l && s.nivelAtualAprovacao == Some(nivel) && s.status != Rejeitado
  {
    Filter(l, (s: Solicitacao) => s.nivelAtualAprovacao == Some(nivel) && s.status != Rejeitado)
  }

  /** Both filters keep stored order: filtering a concatenation filters each part. */
  lemma ConsultasPreservamOrdem(a: seq<Solicitacao>, b: seq<Solicitacao>, status: Status, nivel: int)
    ensures PorStatus(a + b, status) == PorStatus(a, status) + PorStatus(b, status)
    ensures PorNivelAprovacao(a + b, nivel) == PorNivelAprovacao(a, nivel) + PorNivelAprovacao(b, nivel)
  {
    FilterConcat(a, b, (s: Solicitacao) => s.status == status);
    FilterConcat(a, b, (s: Solicitacao) => s.nivelAtualAprovacao == Some(nivel) && s.status != Rejeitado);
  }

  function PorId(l: seq<Solicitacao>, id: string): (r: Option<Solicitacao>)
    ensures r.None? <==> forall i :: 0 <= i < |l| ==> l[i].id != id
    ensures r.Some? ==> exists i :: 0 <= i < |l| && l[i] == r.value && l[i].id == id
                          && forall j :: 0 <= j < i ==> l[j].id != id
  {
    match Encontrar(l, id)
    case None => None
    case Some(k) => Some(l[k])
  }

  function PorSolicitante(l: seq<Solicitacao>, solicitante: string): (r: seq<Solicitacao>)
    ensures forall s :: s in r <==> s in l && s.solicitante == Some(solicitante)
  {
    Filter(l, (s: Solicitacao) => s.solicitante == Some(solicitante))
  }

  /** The requester filter keeps stored order too. */
  lemma PorSolicitantePreservaOrdem(a: seq<Solicitacao>, b: seq<Solicitacao>, solicitante: string)
    ensures PorSolicitante(a + b, solicitante) == PorSolicitante(a, solicitante) + PorSolicitante(b, solicitante)
  {
    FilterConcat(a, b, (s: Solicitacao) => s.solicitante == Some(solicitante));
  }
}
