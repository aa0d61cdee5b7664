/** The application's store: one mutable request list shared by every page.
    Each operation computes the next list from the current one (a pure
    function below) and then replaces the field. */
module Contexto {
  import opened Comum
  import opened Modelo
  import opened Carga
  import Solicitacoes

  /** What every stored request has once it went through the store: a decided
      flag and a non-zero current level. */
  predicate BemFormada(s: Solicitacao)
  {
    s.valorDecidido.Some? && s.nivelAtualAprovacao.Some? && s.nivelAtualAprovacao.value != 0
  }

  /** On a well-formed request the `|| 1` default is never taken: the level
      approval acts on is the stored one. */
  lemma NivelGuardado(s: Solicitacao)
    requires BemFormada(s)
    ensures s.nivelAtualAprovacao == Some(NivelAtual(s))
  {
  }

  predicate TodasBemFormadas(l: seq<Solicitacao>)
  {
    forall i :: 0 <= i < |l| ==> BemFormada(l[i])
  }

  /** No two requests share an id. */
  predicate IdsUnicos(l: seq<Solicitacao>)
  {
    forall i, j :: 0 <= i < j < |l| ==> l[i].id != l[j].id
  }

  predicate TodasAprovacoesUnicas(l: seq<Solicitacao>)
  {
    forall i :: 0 <= i < |l| ==> AprovacoesUnicas(l[i].aprovacoes)
  }

  // ---------------------------------------------------------------------
  // Submission
  // ---------------------------------------------------------------------

  /** The requester's name: the logged-in user's name, else the supplied one,
      else "Usuário" (`||` skips absent and empty names). */
  function SolicitanteEfetivo(usuario: Option<string>, informado: Option<string>): (r: string)
    ensures r != ""
    ensures usuario.Some? && usuario.value != "" ==> r == usuario.value
    ensures (usuario.None? || usuario == Some("")) && informado.Some? && informado.value != "" ==> r == informado.value
    ensures (usuario.None? || usuario == Some("")) && (informado.None? || informado == Some("")) ==> r == "Usuário"
  {
    if usuario.Some? && usuario.value != "" then usuario.value
    else if informado.Some? && informado.value != "" then informado.value
    else "Usuário"
  }

  /** The request the store builds from a submission; `usuario` is the name
      stored for the logged-in user, if any. The quotes are kept as supplied. */
  function NovaNoContexto(nova: NovaSolicitacao, numero: nat, hoje: Hoje, usuario: Option<string>): (s: Solicitacao)
    ensures s.id == IdPedido(hoje, numero) && s.data == DataFormatada(hoje)
    ensures s.status == Pendente && s.aprovacoes == [] && s.nivelAtualAprovacao == Some(1)
    ensures s.valorDecidido == Some(false) && s.valor == None
    ensures s.cotacoes == nova.cotacoes && s.moeda == nova.moeda
    ensures s.solicitante == Some(SolicitanteEfetivo(usuario, nova.solicitante))
    ensures s.descricao == nova.descricao && s.justificativa == nova.justificativa
    ensures s.urgencia == nova.urgencia && s.centroCusto == nova.centroCusto
    ensures s.observacao == None && s.dataAprovacao == None
    ensures BemFormada(s)
  {
    Solicitacao(
      IdPedido(hoje, numero), DataFormatada(hoje), nova.descricao, None, nova.moeda,
      nova.justificativa, nova.urgencia, nova.centroCusto, Pendente,
      Some(SolicitanteEfetivo(usuario, nova.solicitante)),
      None, None, nova.cotacoes, Some(false), [], Some(1))
  }

  /** The store's submission differs from the library's only in the requester
      name and in keeping the supplied quotes instead of renumbering them. */
  lemma NovaComoNaBiblioteca(l: seq<Solicitacao>, nova: NovaSolicitacao, numero: nat, hoje: Hoje, usuario: Option<string>)
    ensures NovaNoContexto(nova, numero, hoje, usuario)
         == Solicitacoes.AdicionarSolicitacao(l, nova, numero, hoje).0
              .(solicitante := Some(SolicitanteEfetivo(usuario, nova.solicitante)), cotacoes := nova.cotacoes)
  {
  }

  lemma PrefixarBemFormada(s: Solicitacao, l: seq<Solicitacao>)
    requires BemFormada(s) && TodasBemFormadas(l)
    ensures TodasBemFormadas([s] + l)
  {
  }

  // ---------------------------------------------------------------------
  // Raw status update
  // ---------------------------------------------------------------------

  /** `atualizarStatus`: sets the status of every request with the id; a note
      that is absent or empty keeps the previous one. */
  function AtualizarStatusLista(l: seq<Solicitacao>, id: string, status: Status, observacao: Option<string>)
    : (r: seq<Solicitacao>)
    ensures |r| == |l|
    ensures forall i :: 0 <= i < |l| && l[i].id != id ==> r[i] == l[i]
    ensures forall i :: 0 <= i < |l| && l[i].id == id ==> r[i].status == status
    ensures forall i :: 0 <= i < |l| && l[i].id == id ==>
              r[i].observacao == (if observacao.None? || observacao == Some("") then l[i].observacao else observacao)
    ensures forall i :: 0 <= i < |l| ==> r[i].(status := l[i].status, observacao := l[i].observacao) == l[i]
  {
    MapearPorId(l, id, (s: Solicitacao) => s.(status := status,
                              observacao := if observacao.None? || observacao.value == "" then s.observacao else observacao))
  }

  /** Repeating the same status update changes nothing more. */
  lemma AtualizarStatusIdempotente(l: seq<Solicitacao>, id: string, status: Status, observacao: Option<string>)
    ensures AtualizarStatusLista(AtualizarStatusLista(l, id, status, observacao), id, status, observacao)
         == AtualizarStatusLista(l, id, status, observacao)
  {
    var uma := AtualizarStatusLista(l, id, status, observacao);
    var duas := AtualizarStatusLista(uma, id, status, observacao);
    forall i | 0 <= i < |l| ensures duas[i] == uma[i] {
      if l[i].id == id {
        assert duas[i].(status := uma[i].status, observacao := uma[i].observacao) == uma[i];
      }
    }
  }

  // ---------------------------------------------------------------------
  // Approval
  // ---------------------------------------------------------------------

  /** A matching request after an accepted approval at level `nivel` (1 or 2). */
  function Aprovada(s: Solicitacao, aprovacao: Aprovacao, nivel: int, hoje: Hoje): Solicitacao
  {
    s.(status := if nivel == 1 then ParcialmenteAprovado else Aprovado,
       aprovacoes := s.aprovacoes + [aprovacao],
       nivelAtualAprovacao := Some(2),
       dataAprovacao := if nivel == 2 then Some(DataFormatada(hoje)) else None)
  }

  /** The update applied to every request with the id. */
  function AprovarTodas(l: seq<Solicitacao>, id: string, aprovacao: Aprovacao, nivel: int, hoje: Hoje): (r: seq<Solicitacao>)
    ensures |r| == |l|
    ensures forall i :: 0 <= i < |l| && l[i].id != id ==> r[i] == l[i]
    ensures forall i :: 0 <= i < |l| && l[i].id == id ==> r[i] == Aprovada(l[i], aprovacao, nivel, hoje)
  {
    MapearPorId(l, id, (t: Solicitacao) => Aprovada(t, aprovacao, nivel, hoje))
  }

  /** `aprovarSolicitacao` of the store: every check is made on the first
      request with the id; the update is then applied to every request with it. */
  function AprovarNoContexto(l: seq<Solicitacao>, id: string, aprovadorId: string, aprovadorNome: string,
                             observacao: Option<string>, hoje: Hoje): (r: Result<seq<Solicitacao>, Erro>)
    // the errors, in the order they are checked
    ensures r == Err(NaoEncontrada) <==> Solicitacoes.PorId(l, id).None?
    ensures Solicitacoes.PorId(l, id).Some? ==>
              var s := Solicitacoes.PorId(l, id).value;
              && (r == Err(SemCotacao) <==> !Decidido(s))
              && (r == Err(AprovacaoDuplicada) <==> Decidido(s) && JaAprovouNoNivel(s.aprovacoes, aprovadorId, NivelAtual(s)))
              && (r == Err(NivelInvalido) <==>
                    Decidido(s) && !JaAprovouNoNivel(s.aprovacoes, aprovadorId, NivelAtual(s))
                    && NivelAtual(s) != 1 && NivelAtual(s) != 2)
    // on success: the level of the first match is 1 or 2 and its record goes to every match
    ensures r.Ok? ==>
              var nivel := NivelAtual(Solicitacoes.PorId(l, id).value);
              && (nivel == 1 || nivel == 2)
              && r.value == AprovarTodas(l, id, Aprovacao(aprovadorId, aprovadorNome, DataFormatada(hoje), observacao, nivel), nivel, hoje)
  {
    match Encontrar(l, id)
    case None => Err(NaoEncontrada)
    case Some(k) =>
      var s := l[k];
      if !Decidido(s) then Err(SemCotacao)
      else
        var nivel := NivelAtual(s);
        if JaAprovouNoNivel(s.aprovacoes, aprovadorId, nivel) then Err(AprovacaoDuplicada)
        else if nivel != 1 && nivel != 2 then Err(NivelInvalido)
        else
          Ok(AprovarTodas(l, id, Aprovacao(aprovadorId, aprovadorNome, DataFormatada(hoje), observacao, nivel), nivel, hoje))
  }

  /** A successful approval appends one record at the level of the first match
      to every request with the id, moves level 1 to "Parcialmente Aprovado" and
      level 2 to "Aprovado" with today's approval date, and touches nothing else. */
  lemma AprovarNoContextoSucesso(l: seq<Solicitacao>, id: string, aprovadorId: string, aprovadorNome: string,
                                 observacao: Option<string>, hoje: Hoje)
    requires AprovarNoContexto(l, id, aprovadorId, aprovadorNome, observacao, hoje).Ok?
    ensures var r := AprovarNoContexto(l, id, aprovadorId, aprovadorNome, observacao, hoje).value;
            var nivel := NivelAtual(Solicitacoes.PorId(l, id).value);
            && |r| == |l|
            && (forall i :: 0 <= i < |l| && l[i].id != id ==> r[i] == l[i])
            && (forall i :: 0 <= i < |l| && l[i].id == id ==>
                  && r[i].aprovacoes == l[i].aprovacoes + [Aprovacao(aprovadorId, aprovadorNome, DataFormatada(hoje), observacao, nivel)]
                  && r[i].status == (if nivel == 1 then ParcialmenteAprovado else Aprovado)
                  && r[i].nivelAtualAprovacao == Some(2)
                  && r[i].dataAprovacao == (if nivel == 2 then Some(DataFormatada(hoje)) else None)
                  && r[i].(status := l[i].status, aprovacoes := l[i].aprovacoes,
                           nivelAtualAprovacao := l[i].nivelAtualAprovacao, dataAprovacao := l[i].dataAprovacao) == l[i])
  {
  }

  /** With distinct ids, an approval never creates a second record for an
      (approver, level) pair. */
  lemma AprovarNoContextoPreservaUnicidade(l: seq<Solicitacao>, id: string, aprovadorId: string, aprovadorNome: string,
                                           observacao: Option<string>, hoje: Hoje)
    requires IdsUnicos(l) && TodasAprovacoesUnicas(l)
    requires AprovarNoContexto(l, id, aprovadorId, aprovadorNome, observacao, hoje).Ok?
    ensures TodasAprovacoesUnicas(AprovarNoContexto(l, id, aprovadorId, aprovadorNome, observacao, hoje).value)
  {
    var r := AprovarNoContexto(l, id, aprovadorId, aprovadorNome, observacao, hoje).value;
    var k := Encontrar(l, id).value;
    var nivel := NivelAtual(l[k]);
    forall i | 0 <= i < |r| ensures AprovacoesUnicas(r[i].aprovacoes) {
      if l[i].id == id {
        assert i == k;
        AppendKeepsUnique(l[i].aprovacoes, Aprovacao(aprovadorId, aprovadorNome, DataFormatada(hoje), observacao, nivel));
      }
    }
  }

  /** Without distinct ids the guarantee is lost: the duplicate test looks only
      at the first request with the id, so a second one that already holds the
      approver's record at that level receives another. */
  lemma IdRepetidoDuplicaPar(a: Solicitacao, b: Solicitacao, aprovadorId: string, aprovadorNome: string, hoje: Hoje)
    requires a.id == b.id && a.aprovacoes == [] && Decidido(a) && a.nivelAtualAprovacao == Some(1)
    requires |b.aprovacoes| == 1 && b.aprovacoes[0].aprovadorId == aprovadorId && b.aprovacoes[0].nivel == 1
    ensures TodasAprovacoesUnicas([a, b])
    ensures AprovarNoContexto([a, b], a.id, aprovadorId, aprovadorNome, None, hoje).Ok?
    ensures !AprovacoesUnicas(AprovarNoContexto([a, b], a.id, aprovadorId, aprovadorNome, None, hoje).value[1].aprovacoes)
  {
    DuasComUmRegistro(a, b);
    PrimeiraSemRegistro(a, b, aprovadorId, aprovadorNome, hoje);
    SegundaRecebeOutro(a, b, Aprovacao(aprovadorId, aprovadorNome, DataFormatada(hoje), None, 1), hoje);
  }

  lemma DuasComUmRegistro(a: Solicitacao, b: Solicitacao)
    requires |a.aprovacoes| == 0 && |b.aprovacoes| == 1
    ensures TodasAprovacoesUnicas([a, b])
  {
    assert [a, b][0] == a && [a, b][1] == b;
  }

  lemma SegundaRecebeOutro(a: Solicitacao, b: Solicitacao, rec: Aprovacao, hoje: Hoje)
    requires a.id == b.id
    requires |b.aprovacoes| == 1 && b.aprovacoes[0].aprovadorId == rec.aprovadorId && b.aprovacoes[0].nivel == rec.nivel
    ensures !AprovacoesUnicas(AprovarTodas([a, b], a.id, rec, 1, hoje)[1].aprovacoes)
  {
    var x := Aprovada(b, rec, 1, hoje).aprovacoes;
    assert AprovarTodas([a, b], a.id, rec, 1, hoje)[1].aprovacoes == x by {
      assert [a, b][1] == b;
    }
    assert x == b.aprovacoes + [rec];
    ParRepetido(x, 0, 1);
  }

  lemma ParRepetido(x: seq<Aprovacao>, i: nat, j: nat)
    requires i < j < |x| && x[i].aprovadorId == x[j].aprovadorId && x[i].nivel == x[j].nivel
    ensures !AprovacoesUnicas(x)
  {
  }

  lemma PrimeiraSemRegistro(a: Solicitacao, b: Solicitacao, aprovadorId: string, aprovadorNome: string, hoje: Hoje)
    requires a.id == b.id && a.aprovacoes == [] && Decidido(a) && a.nivelAtualAprovacao == Some(1)
    ensures AprovarNoContexto([a, b], a.id, aprovadorId, aprovadorNome, None, hoje)
         == Ok(AprovarTodas([a, b], a.id, Aprovacao(aprovadorId, aprovadorNome, DataFormatada(hoje), None, 1), 1, hoje))
  {
    assert Encontrar([a, b], a.id) == Some(0);
    assert NivelAtual(a) == 1;
    assert !JaAprovouNoNivel(a.aprovacoes, aprovadorId, 1);
  }

  /** The store's update of one request agrees with the library's whenever the
      level is 1 or 2 and both checks pass. */
  lemma AprovadaComoAprovarEm(s: Solicitacao, aprovadorId: string, aprovadorNome: string,
                              observacao: Option<string>, hoje: Hoje)
    requires Decidido(s) && !JaAprovouNoNivel(s.aprovacoes, aprovadorId, NivelAtual(s))
    requires NivelAtual(s) == 1 || NivelAtual(s) == 2
    ensures Solicitacoes.AprovarEm(s, aprovadorId, aprovadorNome, observacao, hoje)
         == Ok(Aprovada(s, Aprovacao(aprovadorId, aprovadorNome, DataFormatada(hoje), observacao, NivelAtual(s)), NivelAtual(s), hoje))
  {
  }

  /** With distinct ids and a level of 1 or 2, the store approves exactly as
      the library does; they differ only on an unknown id (the library leaves
      the list as it is) and on any other level (the library records it). */
  lemma AprovarComoNaBiblioteca(l: seq<Solicitacao>, id: string, aprovadorId: string, aprovadorNome: string,
                                observacao: Option<string>, hoje: Hoje)
    requires IdsUnicos(l)
    requires Solicitacoes.PorId(l, id).Some?
    requires NivelAtual(Solicitacoes.PorId(l, id).value) in {1, 2}
    ensures AprovarNoContexto(l, id, aprovadorId, aprovadorNome, observacao, hoje)
         == Solicitacoes.AprovarSolicitacao(l, id, aprovadorId, aprovadorNome, observacao, hoje)
  {
    var k := Encontrar(l, id).value;
    assert Solicitacoes.PorId(l, id).value == l[k];
    assert forall i :: 0 <= i < |l| && l[i].id == id ==> i == k;
    if !Decidido(l[k]) || JaAprovouNoNivel(l[k].aprovacoes, aprovadorId, NivelAtual(l[k])) {
      ErroComoNaBiblioteca(l, id, k, aprovadorId, aprovadorNome, observacao, hoje);
    } else {
      SucessoComoNaBiblioteca(l, id, k, aprovadorId, aprovadorNome, observacao, hoje);
    }
  }

  /** The success case of the agreement: the only match passes both checks. */
  lemma SucessoComoNaBiblioteca(l: seq<Solicitacao>, id: string, k: nat, aprovadorId: string, aprovadorNome: string,
                                observacao: Option<string>, hoje: Hoje)
    requires k < |l| && l[k].id == id && forall i :: 0 <= i < |l| && l[i].id == id ==> i == k
    requires Encontrar(l, id) == Some(k)
    requires Decidido(l[k]) && !JaAprovouNoNivel(l[k].aprovacoes, aprovadorId, NivelAtual(l[k]))
    requires NivelAtual(l[k]) == 1 || NivelAtual(l[k]) == 2
    ensures AprovarNoContexto(l, id, aprovadorId, aprovadorNome, observacao, hoje)
         == Solicitacoes.AprovarSolicitacao(l, id, aprovadorId, aprovadorNome, observacao, hoje)
  {
    var nivel := NivelAtual(l[k]);
    var rec := Aprovacao(aprovadorId, aprovadorNome, DataFormatada(hoje), observacao, nivel);
    var ctx := AprovarTodas(l, id, rec, nivel, hoje);
    assert AprovarNoContexto(l, id, aprovadorId, aprovadorNome, observacao, hoje) == Ok(ctx);
    AprovadaComoAprovarEm(l[k], aprovadorId, aprovadorNome, observacao, hoje);
    forall i | 0 <= i < |l| && l[i].id == id
      ensures Solicitacoes.AprovarEm(l[i], aprovadorId, aprovadorNome, observacao, hoje) == Ok(ctx[i])
    {
      assert i == k;
    }
    Solicitacoes.AprovarSolicitacaoTotal(l, id, aprovadorId, aprovadorNome, observacao, hoje, ctx);
  }

  /** The error case of the agreement above: both report the error of the only match. */
  lemma ErroComoNaBiblioteca(l: seq<Solicitacao>, id: string, k: nat, aprovadorId: string, aprovadorNome: string,
                             observacao: Option<string>, hoje: Hoje)
    requires k < |l| && l[k].id == id && forall i :: 0 <= i < |l| && l[i].id == id ==> i == k
    requires Encontrar(l, id) == Some(k)
    requires Solicitacoes.AprovarEm(l[k], aprovadorId, aprovadorNome, observacao, hoje).Err?
    ensures AprovarNoContexto(l, id, aprovadorId, aprovadorNome, observacao, hoje)
         == Solicitacoes.AprovarSolicitacao(l, id, aprovadorId, aprovadorNome, observacao, hoje)
  {
    var e := Solicitacoes.AprovarEm(l[k], aprovadorId, aprovadorNome, observacao, hoje).error;
    Solicitacoes.AprovarSolicitacaoFalha(l, id, aprovadorId, aprovadorNome, observacao, hoje);
    var lib := Solicitacoes.AprovarSolicitacao(l, id, aprovadorId, aprovadorNome, observacao, hoje);
    assert lib.Err?;
    assert lib == Err(e);
  }

  /** A successful approval keeps each request well formed. */
  lemma AprovarNoContextoPreservaBemFormadas(l: seq<Solicitacao>, id: string, aprovadorId: string, aprovadorNome: string,
                                             observacao: Option<string>, hoje: Hoje)
    requires TodasBemFormadas(l)
    requires AprovarNoContexto(l, id, aprovadorId, aprovadorNome, observacao, hoje).Ok?
    ensures TodasBemFormadas(AprovarNoContexto(l, id, aprovadorId, aprovadorNome, observacao, hoje).value)
  {
  }

  /** The list and the reported error after an approval: a failed approval
      writes nothing. */
  function AposAprovar(l: seq<Solicitacao>, id: string, aprovadorId: string, aprovadorNome: string,
                       observacao: Option<string>, hoje: Hoje): (p: (seq<Solicitacao>, Option<Erro>))
  {
    match AprovarNoContexto(l, id, aprovadorId, aprovadorNome, observacao, hoje)
    case Ok(novas) => (novas, None)
    case Err(e) => (l, Some(e))
  }

  lemma AposAprovarPreservaBemFormadas(l: seq<Solicitacao>, id: string, aprovadorId: string, aprovadorNome: string,
                                       observacao: Option<string>, hoje: Hoje)
    requires TodasBemFormadas(l)
    ensures TodasBemFormadas(AposAprovar(l, id, aprovadorId, aprovadorNome, observacao, hoje).0)
  {
    if AprovarNoContexto(l, id, aprovadorId, aprovadorNome, observacao, hoje).Ok? {
      AprovarNoContextoPreservaBemFormadas(l, id, aprovadorId, aprovadorNome, observacao, hoje);
    }
  }

  // ---------------------------------------------------------------------
  // The store
  // ---------------------------------------------------------------------

  /** `SolicitacoesProvider`: the request list and whether it was loaded. */
  class SolicitacoesProvider {
    var solicitacoes: seq<Solicitacao>
    var isInitialized: bool

    /** Every stored request has a decided flag and a stored, non-zero
        level, so the `|| 1` default that approval and rejection apply never
        decides anything: the level they act on is the stored one
        (`NivelGuardado`). */
    predicate Valid()
      reads this
    {
      TodasBemFormadas(solicitacoes)
    }

    constructor()
      ensures solicitacoes == [] && !isInitialized
      ensures Valid()
    {
      solicitacoes := [];
      isInitialized := false;
    }

    /** The one-time load: normalised stored records, or the sample list when
        nothing readable is stored. A second call does nothing. */
    method Carregar(armazenado: Armazenamento, iniciais: seq<Solicitacao>)
      requires Valid() && TodasBemFormadas(iniciais)
      modifies this
      ensures Valid() && isInitialized
      ensures old(isInitialized) ==> solicitacoes == old(solicitacoes)
      ensures !old(isInitialized) ==> solicitacoes == CarregarLista(armazenado, iniciais)
    {
      if isInitialized {
        return;
      }
      solicitacoes := CarregarLista(armazenado, iniciais);
      isInitialized := true;
    }

    method AdicionarSolicitacao(nova: NovaSolicitacao, numero: nat, hoje: Hoje, usuario: Option<string>)
      returns (s: Solicitacao)
      requires Valid()
      modifies this
      ensures Valid() && isInitialized == old(isInitialized)
      ensures s == NovaNoContexto(nova, numero, hoje, usuario)
      ensures solicitacoes == [s] + old(solicitacoes)
    {
      s := NovaNoContexto(nova, numero, hoje, usuario);
      PrefixarBemFormada(s, solicitacoes);
      solicitacoes := [s] + solicitacoes;
    }

    /** The status type of `atualizarStatus` excludes "Parcialmente Aprovado". */
    method AtualizarStatus(id: string, status: Status, observacao: Option<string>)
      requires Valid() && status != ParcialmenteAprovado
      modifies this
      ensures Valid() && isInitialized == old(isInitialized)
      ensures solicitacoes == AtualizarStatusLista(old(solicitacoes), id, status, observacao)
    {
      solicitacoes := AtualizarStatusLista(solicitacoes, id, status, observacao);
    }

    /** Returns the error the source throws, if any; on an error the list is kept. */
    method AprovarSolicitacao(id: string, aprovadorId: string, aprovadorNome: string, observacao: Option<string>, hoje: Hoje)
      returns (erro: Option<Erro>)
      requires Valid()
      modifies this
      ensures Valid() && isInitialized == old(isInitialized)
      ensures (solicitacoes, erro) == AposAprovar(old(solicitacoes), id, aprovadorId, aprovadorNome, observacao, hoje)
    {
      AposAprovarPreservaBemFormadas(solicitacoes, id, aprovadorId, aprovadorNome, observacao, hoje);
      var p := AposAprovar(solicitacoes, id, aprovadorId, aprovadorNome, observacao, hoje);
      solicitacoes := p.0;
      erro := p.1;
    }

    /** Unconditional; an unknown id leaves the list as it is. */
    method RejeitarSolicitacao(id: string, aprovadorId: string, aprovadorNome: string, observacao: string, hoje: Hoje)
      requires Valid()
      modifies this
      ensures Valid() && isInitialized == old(isInitialized)
      ensures solicitacoes == Solicitacoes.RejeitarSolicitacao(old(solicitacoes), id, aprovadorId, aprovadorNome, observacao, hoje)
    {
      solicitacoes := Solicitacoes.RejeitarSolicitacao(solicitacoes, id, aprovadorId, aprovadorNome, observacao, hoje);
    }

    method SelecionarCotacao(solicitacaoId: string, cotacaoId: string)
      requires Valid()
      modifies this
      ensures Valid() && isInitialized == old(isInitialized)
      ensures solicitacoes == Solicitacoes.SelecionarCotacao(old(solicitacoes), solicitacaoId, cotacaoId)
    {
      solicitacoes := Solicitacoes.SelecionarCotacao(solicitacoes, solicitacaoId, cotacaoId);
    }
  }
}
