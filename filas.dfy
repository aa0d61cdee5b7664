/** The two manager queues, computed the same way by the pending-requests
    page and by the manager dashboard from the stored list and the e-mail of
    the signed-in manager (absent when nobody is signed in). */
module Filas {
  import opened Comum
  import opened Modelo
  import Solicitacoes

  /** Some record at `nivel` carries the manager's e-mail as approver id;
      with nobody signed in no record matches. */
  predicate JaAprovouPeloUsuario(s: Solicitacao, email: Option<string>, nivel: int)
  {
    email.Some? && JaAprovouNoNivel(s.aprovacoes, email.value, nivel)
  }

  /** Waiting for a first approval the manager has not given yet; the level is
      compared as stored, so an absent level keeps a request out. */
  predicate NaFilaPrimeira(s: Solicitacao, email: Option<string>)
  {
    s.status == Pendente && s.nivelAtualAprovacao == Some(1) && !JaAprovouPeloUsuario(s, email, 1)
  }

  /** Waiting for a second approval the manager has not given yet. Having
      given the first one does not keep a manager out. */
  predicate NaFilaSegunda(s: Solicitacao, email: Option<string>)
  {
    s.status == ParcialmenteAprovado && s.nivelAtualAprovacao == Some(2) && !JaAprovouPeloUsuario(s, email, 2)
  }

  function FilaPrimeira(l: seq<Solicitacao>, email: Option<string>): (r: seq<Solicitacao>)
    ensures forall s :: s in r ==> s in l && s.status == Pendente && s.nivelAtualAprovacao == Some(1)
    ensures forall s :: s in l && s.status == Pendente && s.nivelAtualAprovacao == Some(1) ==>
              (s in r <==> email.None? || forall i :: 0 <= i < |s.aprovacoes| ==>
                 !(s.aprovacoes[i].aprovadorId == email.value && s.aprovacoes[i].nivel == 1))
  {
    Filter(l, s => NaFilaPrimeira(s, email))
  }

  function FilaSegunda(l: seq<Solicitacao>, email: Option<string>): (r: seq<Solicitacao>)
    ensures forall s :: s in r ==> s in l && s.status == ParcialmenteAprovado && s.nivelAtualAprovacao == Some(2)
    ensures forall s :: s in l && s.status == ParcialmenteAprovado && s.nivelAtualAprovacao == Some(2) ==>
              (s in r <==> email.None? || forall i :: 0 <= i < |s.aprovacoes| ==>
                 !(s.aprovacoes[i].aprovadorId == email.value && s.aprovacoes[i].nivel == 2))
  {
    Filter(l, s => NaFilaSegunda(s, email))
  }

  /** No request is in both queues, whoever looks at them. */
  lemma FilasDisjuntas(s: Solicitacao, e1: Option<string>, e2: Option<string>)
    ensures !(NaFilaPrimeira(s, e1) && NaFilaSegunda(s, e2))
  {
  }

  /** Together the queues never hold more requests than the list. */
  lemma FilasNoMaximoTotal(l: seq<Solicitacao>, email: Option<string>)
    ensures |FilaPrimeira(l, email)| + |FilaSegunda(l, email)| <= |l|
  {
    FilterDisjointLength(l, s => NaFilaPrimeira(s, email), s => NaFilaSegunda(s, email));
  }

  /** With nobody signed in, the first queue is the library's level-1 query
      narrowed to pending requests, in stored order. */
  lemma {:induction false} FilaPrimeiraSemUsuario(l: seq<Solicitacao>)
    ensures FilaPrimeira(l, None) == Solicitacoes.PorStatus(Solicitacoes.PorNivelAprovacao(l, 1), Pendente)
  {
    if l != [] {
      FilaPrimeiraSemUsuario(l[1..]);
      var resto := Solicitacoes.PorNivelAprovacao(l[1..], 1);
      if NaFilaPrimeira(l[0], None) {
        assert FilaPrimeira(l, None) == [l[0]] + FilaPrimeira(l[1..], None);
        assert Solicitacoes.PorNivelAprovacao(l, 1) == [l[0]] + resto;
        assert ([l[0]] + resto)[1..] == resto;
        assert Solicitacoes.PorStatus([l[0]] + resto, Pendente) == [l[0]] + Solicitacoes.PorStatus(resto, Pendente);
      } else if l[0].nivelAtualAprovacao == Some(1) && l[0].status != Rejeitado {
        assert FilaPrimeira(l, None) == FilaPrimeira(l[1..], None);
        assert Solicitacoes.PorNivelAprovacao(l, 1) == [l[0]] + resto;
        assert ([l[0]] + resto)[1..] == resto;
        assert Solicitacoes.PorStatus([l[0]] + resto, Pendente) == Solicitacoes.PorStatus(resto, Pendente);
      } else {
        assert FilaPrimeira(l, None) == FilaPrimeira(l[1..], None);
        assert Solicitacoes.PorNivelAprovacao(l, 1) == resto;
      }
    }
  }

  /** With nobody signed in, the second queue is the library's level-2 query
      narrowed to partly approved requests, in stored order. */
  lemma {:induction false} FilaSegundaSemUsuario(l: seq<Solicitacao>)
    ensures FilaSegunda(l, None) == Solicitacoes.PorStatus(Solicitacoes.PorNivelAprovacao(l, 2), ParcialmenteAprovado)
  {
    if l != [] {
      FilaSegundaSemUsuario(l[1..]);
      var resto := Solicitacoes.PorNivelAprovacao(l[1..], 2);
      if NaFilaSegunda(l[0], None) {
        assert FilaSegunda(l, None) == [l[0]] + FilaSegunda(l[1..], None);
        assert Solicitacoes.PorNivelAprovacao(l, 2) == [l[0]] + resto;
        assert ([l[0]] + resto)[1..] == resto;
        assert Solicitacoes.PorStatus([l[0]] + resto, ParcialmenteAprovado) == [l[0]] + Solicitacoes.PorStatus(resto, ParcialmenteAprovado);
      } else if l[0].nivelAtualAprovacao == Some(2) && l[0].status != Rejeitado {
        assert FilaSegunda(l, None) == FilaSegunda(l[1..], None);
        assert Solicitacoes.PorNivelAprovacao(l, 2) == [l[0]] + resto;
        assert ([l[0]] + resto)[1..] == resto;
        assert Solicitacoes.PorStatus([l[0]] + resto, ParcialmenteAprovado) == Solicitacoes.PorStatus(resto, ParcialmenteAprovado);
      } else {
        assert FilaSegunda(l, None) == FilaSegunda(l[1..], None);
        assert Solicitacoes.PorNivelAprovacao(l, 2) == resto;
      }
    }
  }

  /** A record appended to the history can only add an (approver, level) pair. */
  lemma JaAprovouAposAnexar(aprovacoes: seq<Aprovacao>, a: Aprovacao, id: string, nivel: int)
    ensures JaAprovouNoNivel(aprovacoes + [a], id, nivel)
        <==> JaAprovouNoNivel(aprovacoes, id, nivel) || (a.aprovadorId == id && a.nivel == nivel)
  {
    var r := aprovacoes + [a];
    if JaAprovouNoNivel(aprovacoes, id, nivel) {
      var i :| 0 <= i < |aprovacoes| && aprovacoes[i].aprovadorId == id && aprovacoes[i].nivel == nivel;
      assert r[i] == aprovacoes[i];
    }
    if a.aprovadorId == id && a.nivel == nivel {
      assert r[|aprovacoes|] == a;
    }
    if JaAprovouNoNivel(r, id, nivel) {
      var i :| 0 <= i < |r| && r[i].aprovadorId == id && r[i].nivel == nivel;
      if i < |aprovacoes| {
        assert r[i] == aprovacoes[i];
      }
    }
  }

  /** A first approval by a manager who sees the request in the first queue
      succeeds once the value is decided; the request leaves every first queue,
      and the same manager then finds it in the second queue unless they
      already hold a level-2 record on it: the code never requires two
      different managers. */
  lemma PrimeiraAprovacaoAvancaFila(s: Solicitacao, email: string, nome: string, observacao: Option<string>, hoje: Hoje)
    requires NaFilaPrimeira(s, Some(email)) && Decidido(s)
    ensures Solicitacoes.AprovarEm(s, email, nome, observacao, hoje).Ok?
    ensures var r := Solicitacoes.AprovarEm(s, email, nome, observacao, hoje).value;
            && (forall e :: !NaFilaPrimeira(r, e))
            && (NaFilaSegunda(r, Some(email)) <==> !JaAprovouNoNivel(s.aprovacoes, email, 2))
  {
    var r := Solicitacoes.AprovarEm(s, email, nome, observacao, hoje).value;
    JaAprovouAposAnexar(s.aprovacoes, Aprovacao(email, nome, DataFormatada(hoje), observacao, 1), email, 2);
  }

  /** A second approval from the second queue succeeds once the value is
      decided, and the approved request is in no queue. */
  lemma SegundaAprovacaoEsvaziaFilas(s: Solicitacao, email: string, nome: string, observacao: Option<string>, hoje: Hoje)
    requires NaFilaSegunda(s, Some(email)) && Decidido(s)
    ensures Solicitacoes.AprovarEm(s, email, nome, observacao, hoje).Ok?
    ensures var r := Solicitacoes.AprovarEm(s, email, nome, observacao, hoje).value;
            r.status == Aprovado && forall e :: !NaFilaPrimeira(r, e) && !NaFilaSegunda(r, e)
  {
  }

  /** A rejected request is in no queue. */
  lemma RejeitadaForaDasFilas(s: Solicitacao, aprovadorId: string, nome: string, observacao: string, hoje: Hoje)
    ensures var r := RejeitarEm(s, aprovadorId, nome, observacao, hoje);
            forall e :: !NaFilaPrimeira(r, e) && !NaFilaSegunda(r, e)
  {
  }
}
