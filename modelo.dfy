/** The records of the purchase-request portal (`Cotacao`, `Aprovacao`,
    `Solicitacao`) and the per-request rules shared by the library functions
    and the store: the current approval level, the duplicate-approval test,
    quote selection and rejection. */
module Modelo {
  import opened Comum
  import opened Textos

  datatype Status = Pendente | ParcialmenteAprovado | Aprovado | Rejeitado

  datatype Urgencia = Normal | Alta

  /** A supplier's quote. `valor` is only ever copied, so it is an opaque real. */
  datatype Cotacao = Cotacao(
    id: string,
    fornecedor: string,
    valor: real,
    moeda: string,
    prazoEntrega: string,
    observacoes: Option<string>,
    selecionada: Option<bool>)

  /** One approval or rejection record. `nivel` is typed `1 | 2` in the source but
      is written with an unchecked cast, so any integer can appear. */
  datatype Aprovacao = Aprovacao(
    aprovadorId: string,
    aprovadorNome: string,
    data: string,
    observacao: Option<string>,
    nivel: int)

  /** A purchase request. The optional fields of the source are `Option`s. */
  datatype Solicitacao = Solicitacao(
    id: string,
    data: string,
    descricao: string,
    valor: Option<real>,
    moeda: string,
    justificativa: string,
    urgencia: Urgencia,
    centroCusto: string,
    status: Status,
    solicitante: Option<string>,
    observacao: Option<string>,
    dataAprovacao: Option<string>,
    cotacoes: seq<Cotacao>,
    valorDecidido: Option<bool>,
    aprovacoes: seq<Aprovacao>,
    nivelAtualAprovacao: Option<int>)

  /** What a caller submits: the fields of the request form. */
  datatype NovaSolicitacao = NovaSolicitacao(
    descricao: string,
    justificativa: string,
    urgencia: Urgencia,
    centroCusto: string,
    solicitante: Option<string>,
    cotacoes: seq<Cotacao>,
    moeda: string)

  /** The calendar reading of `new Date()`, supplied by the caller. */
  datatype Hoje = Hoje(dia: nat, mes: nat, ano: nat)

  datatype Erro = NaoEncontrada | SemCotacao | AprovacaoDuplicada | NivelInvalido

  function Mensagem(e: Erro): string
  {
    match e
    case NaoEncontrada => "Solicitação não encontrada"
    case SemCotacao => "Não é possível aprovar uma solicitação sem selecionar uma cotação"
    case AprovacaoDuplicada => "O mesmo aprovador não pode aprovar duas vezes a mesma solicitação no mesmo nível"
    case NivelInvalido => "Nível de aprovação inválido"
  }

  /** `DD/MM/YYYY`, day and month zero-padded to two digits. */
  function DataFormatada(h: Hoje): string
  {
    PadStart(Decimal(h.dia), 2) + "/" + PadStart(Decimal(h.mes), 2) + "/" + Decimal(h.ano)
  }

  /** The random number (0 to 999) rendered with four digits. */
  function NumeroPedido(numero: nat): string
  {
    PadStart(Decimal(numero), 4)
  }

  /** `#PED-<year>-<number>`. */
  function IdPedido(h: Hoje, numero: nat): string
  {
    "#PED-" + Decimal(h.ano) + "-" + NumeroPedido(numero)
  }

  /** `nivelAtualAprovacao || 1`: an absent or zero level counts as level 1. */
  function NivelAtual(s: Solicitacao): (n: int)
    ensures n != 0
    ensures s.nivelAtualAprovacao.None? ==> n == 1
    ensures s.nivelAtualAprovacao == Some(0) ==> n == 1
    ensures s.nivelAtualAprovacao.Some? && s.nivelAtualAprovacao.value != 0 ==> n == s.nivelAtualAprovacao.value
  {
    match s.nivelAtualAprovacao
    case None => 1
    case Some(n) => if n == 0 then 1 else n
  }

  /** The truth of `valorDecidido`; an absent flag is false. */
  predicate Decidido(s: Solicitacao)
  {
    s.valorDecidido == Some(true)
  }

  /** Some record of `aprovacoes` is by `aprovadorId` at `nivel`. */
  predicate JaAprovouNoNivel(aprovacoes: seq<Aprovacao>, aprovadorId: string, nivel: int)
  {
    exists i :: 0 <= i < |aprovacoes| && aprovacoes[i].aprovadorId == aprovadorId && aprovacoes[i].nivel == nivel
  }

  /** No two records share an (approver, level) pair. */
  predicate AprovacoesUnicas(aprovacoes: seq<Aprovacao>)
  {
    forall i, j :: 0 <= i < j < |aprovacoes| ==>
      !(aprovacoes[i].aprovadorId == aprovacoes[j].aprovadorId && aprovacoes[i].nivel == aprovacoes[j].nivel)
  }

  /** Appending a record whose pair is not yet present keeps the pairs unique. */
  lemma AppendKeepsUnique(aprovacoes: seq<Aprovacao>, a: Aprovacao)
    requires AprovacoesUnicas(aprovacoes)
    requires !JaAprovouNoNivel(aprovacoes, a.aprovadorId, a.nivel)
    ensures AprovacoesUnicas(aprovacoes + [a])
  {
    var r := aprovacoes + [a];
    forall i, j | 0 <= i < j < |r|
      ensures !(r[i].aprovadorId == r[j].aprovadorId && r[i].nivel == r[j].nivel)
    {
      if j == |aprovacoes| {
        assert r[i] == aprovacoes[i];
      }
    }
  }

  /** Replaces every request whose id is `id` by `f` of it (`.map` with an id test). */
  function MapearPorId(l: seq<Solicitacao>, id: string, f: Solicitacao -> Solicitacao): seq<Solicitacao>
  {
    seq(|l|, i requires 0 <= i < |l| => if l[i].id == id then f(l[i]) else l[i])
  }

  /** `.find` by id: the index of the first request whose id is `id`. */
  function Encontrar(l: seq<Solicitacao>, id: string): (r: Option<nat>)
    ensures r.None? <==> forall i :: 0 <= i < |l| ==> l[i].id != id
    ensures r.Some? ==> r.value < |l| && l[r.value].id == id
    ensures r.Some? ==> forall i :: 0 <= i < r.value ==> l[i].id != id
  {
    if l == [] then None
    else if l[0].id == id then Some(0)
    else match Encontrar(l[1..], id)
      case None => None
      case Some(k) => Some(k + 1)
  }

  // ---------------------------------------------------------------------
  // Quote selection
  // ---------------------------------------------------------------------

  /** `.find` by id: the index of the first quote whose id is `cotacaoId`. */
  function PrimeiraCotacao(cs: seq<Cotacao>, cotacaoId: string): (r: Option<nat>)
    ensures r.None? <==> forall i :: 0 <= i < |cs| ==> cs[i].id != cotacaoId
    ensures r.Some? ==> r.value < |cs| && cs[r.value].id == cotacaoId
    ensures r.Some? ==> forall i :: 0 <= i < r.value ==> cs[i].id != cotacaoId
  {
    if cs == [] then None
    else if cs[0].id == cotacaoId then Some(0)
    else match PrimeiraCotacao(cs[1..], cotacaoId)
      case None => None
      case Some(k) => Some(k + 1)
  }

  /** Marks every quote selected exactly when its id is `cotacaoId`. */
  function MarcarCotacoes(cs: seq<Cotacao>, cotacaoId: string): seq<Cotacao>
  {
    seq(|cs|, i requires 0 <= i < |cs| => cs[i].(selecionada := Some(cs[i].id == cotacaoId)))
  }

  /** Selecting quote `cotacaoId` of one request. */
  function SelecionarEm(s: Solicitacao, cotacaoId: string): (r: Solicitacao)
    // an unknown quote id leaves the request as it is
    ensures (forall i :: 0 <= i < |s.cotacoes| ==> s.cotacoes[i].id != cotacaoId) ==> r == s
    // otherwise: a quote is selected iff its id matches, and nothing else of it changes
    ensures (exists i :: 0 <= i < |s.cotacoes| && s.cotacoes[i].id == cotacaoId) ==>
      && |r.cotacoes| == |s.cotacoes|
      && (forall i :: 0 <= i < |r.cotacoes| ==>
            && r.cotacoes[i].selecionada == Some(r.cotacoes[i].id == cotacaoId)
            && r.cotacoes[i].(selecionada := s.cotacoes[i].selecionada) == s.cotacoes[i])
      // the amount and currency come from the first quote with that id
      && (exists k :: 0 <= k < |s.cotacoes| && s.cotacoes[k].id == cotacaoId
            && (forall j :: 0 <= j < k ==> s.cotacoes[j].id != cotacaoId)
            && r.valor == Some(s.cotacoes[k].valor) && r.moeda == s.cotacoes[k].moeda)
      && r.valorDecidido == Some(true)
      // status, approvals and every other field are untouched
      && r.(cotacoes := s.cotacoes, valor := s.valor, moeda := s.moeda, valorDecidido := s.valorDecidido) == s
  {
    match PrimeiraCotacao(s.cotacoes, cotacaoId)
    case None => s
    case Some(k) =>
      s.(cotacoes := MarcarCotacoes(s.cotacoes, cotacaoId),
         valor := Some(s.cotacoes[k].valor),
         moeda := s.cotacoes[k].moeda,
         valorDecidido := Some(true))
  }

  predicate Selecionada(c: Cotacao) { c.selecionada == Some(true) }

  /** Quote ids are pairwise distinct. */
  predicate IdsCotacaoUnicos(cs: seq<Cotacao>)
  {
    forall i, j :: 0 <= i < j < |cs| ==> cs[i].id != cs[j].id
  }

  lemma {:induction false} MarcadasContam(cs: seq<Cotacao>, cotacaoId: string)
    ensures Count(MarcarCotacoes(cs, cotacaoId), Selecionada) == Count(cs, (c: Cotacao) => c.id == cotacaoId)
  {
    if cs != [] {
      MarcadasContam(cs[1..], cotacaoId);
      assert MarcarCotacoes(cs, cotacaoId)[1..] == MarcarCotacoes(cs[1..], cotacaoId);
    }
  }

  lemma {:induction false} UnicoIdContaUm(cs: seq<Cotacao>, cotacaoId: string, k: nat)
    requires IdsCotacaoUnicos(cs)
    requires k < |cs| && cs[k].id == cotacaoId
    ensures Count(cs, (c: Cotacao) => c.id == cotacaoId) == 1
  {
    if k == 0 {
      NenhumIdConta(cs[1..], cotacaoId);
    } else {
      UnicoIdContaUm(cs[1..], cotacaoId, k - 1);
    }
  }

  lemma {:induction false} NenhumIdConta(cs: seq<Cotacao>, cotacaoId: string)
    requires forall i :: 0 <= i < |cs| ==> cs[i].id != cotacaoId
    ensures Count(cs, (c: Cotacao) => c.id == cotacaoId) == 0
  {
    if cs != [] {
      NenhumIdConta(cs[1..], cotacaoId);
    }
  }

  /** With distinct quote ids, selecting an existing quote leaves exactly one selected. */
  lemma ExatamenteUmaSelecionada(s: Solicitacao, cotacaoId: string, k: nat)
    requires IdsCotacaoUnicos(s.cotacoes)
    requires k < |s.cotacoes| && s.cotacoes[k].id == cotacaoId
    ensures Count(SelecionarEm(s, cotacaoId).cotacoes, Selecionada) == 1
  {
    MarcadasContam(s.cotacoes, cotacaoId);
    UnicoIdContaUm(s.cotacoes, cotacaoId, k);
  }

  /** Selecting the same quote twice is selecting it once. */
  lemma SelecionarEmIdempotente(s: Solicitacao, cotacaoId: string)
    ensures SelecionarEm(SelecionarEm(s, cotacaoId), cotacaoId) == SelecionarEm(s, cotacaoId)
  {
    match PrimeiraCotacao(s.cotacoes, cotacaoId)
    case None =>
    case Some(k) =>
      var marcadas := MarcarCotacoes(s.cotacoes, cotacaoId);
      MarcarIdempotente(s.cotacoes, cotacaoId);
      MesmosIdsMesmaPrimeira(s.cotacoes, marcadas, cotacaoId);
      assert marcadas[k].valor == s.cotacoes[k].valor && marcadas[k].moeda == s.cotacoes[k].moeda;
  }

  lemma MarcarIdempotente(cs: seq<Cotacao>, cotacaoId: string)
    ensures var m := MarcarCotacoes(cs, cotacaoId);
            && |m| == |cs| && (forall i :: 0 <= i < |cs| ==> m[i].id == cs[i].id)
            && MarcarCotacoes(m, cotacaoId) == m
  {
  }

  /** The quote found by id depends only on the ids. */
  lemma {:induction false} MesmosIdsMesmaPrimeira(a: seq<Cotacao>, b: seq<Cotacao>, cotacaoId: string)
    requires |a| == |b|
    requires forall i :: 0 <= i < |a| ==> a[i].id == b[i].id
    ensures PrimeiraCotacao(a, cotacaoId) == PrimeiraCotacao(b, cotacaoId)
  {
    if a != [] {
      MesmosIdsMesmaPrimeira(a[1..], b[1..], cotacaoId);
    }
  }

  // ---------------------------------------------------------------------
  // Rejection
  // ---------------------------------------------------------------------

  /** Rejecting one request: no check of any kind. */
  function RejeitarEm(s: Solicitacao, aprovadorId: string, aprovadorNome: string, observacao: string, hoje: Hoje): (r: Solicitacao)
    ensures r.status == Rejeitado
    ensures r.observacao == Some(observacao)
    ensures |r.aprovacoes| == |s.aprovacoes| + 1 && r.aprovacoes[..|s.aprovacoes|] == s.aprovacoes
    ensures r.aprovacoes[|s.aprovacoes|]
         == Aprovacao(aprovadorId, aprovadorNome, DataFormatada(hoje), Some(observacao), NivelAtual(s))
    ensures r.(status := s.status, aprovacoes := s.aprovacoes, observacao := s.observacao) == s
  {
    var rejeicao := Aprovacao(aprovadorId, aprovadorNome, DataFormatada(hoje), Some(observacao), NivelAtual(s));
    s.(status := Rejeitado, aprovacoes := s.aprovacoes + [rejeicao], observacao := Some(observacao))
  }
}
