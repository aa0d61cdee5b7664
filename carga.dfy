/** Loading the stored request list: the parsed records may lack fields that
    older versions did not write, and every load fills them with defaults.
    `Armazenar` is the view of a request the store serialises. */
module Carga {
  import opened Comum
  import opened Modelo

  /** A parsed stored record: the five normalised fields may be absent. */
  datatype Registro = Registro(
    id: string,
    data: string,
    descricao: string,
    valor: Option<real>,
    moeda: Option<string>,
    justificativa: string,
    urgencia: Urgencia,
    centroCusto: string,
    status: Status,
    solicitante: Option<string>,
    observacao: Option<string>,
    dataAprovacao: Option<string>,
    cotacoes: Option<seq<Cotacao>>,
    valorDecidido: Option<bool>,
    aprovacoes: Option<seq<Aprovacao>>,
    nivelAtualAprovacao: Option<int>)

  /** What the key-value store holds under the request-list key. */
  datatype Armazenamento =
    | Ausente                               // no entry (or an empty string)
    | Ilegivel                              // the entry does not parse as a list of records
    | Presente(registros: seq<Registro>)

  /** The shape every loaded request has: all five defaulted fields present. */
  predicate Normalizada(s: Solicitacao)
  {
    && s.valorDecidido.Some?
    && s.moeda != ""
    && s.nivelAtualAprovacao.Some? && s.nivelAtualAprovacao.value != 0
  }

  /** The serialised view: every field written. */
  function Armazenar(s: Solicitacao): Registro
  {
    Registro(s.id, s.data, s.descricao, s.valor, Some(s.moeda), s.justificativa, s.urgencia,
             s.centroCusto, s.status, s.solicitante, s.observacao, s.dataAprovacao,
             Some(s.cotacoes), s.valorDecidido, Some(s.aprovacoes), s.nivelAtualAprovacao)
  }

  /** The normaliser applied to each parsed record. */
  function Normalizar(r: Registro): (s: Solicitacao)
    ensures Normalizada(s)
    // fields that are present (and truthy) are kept
    ensures r.cotacoes.Some? ==> s.cotacoes == r.cotacoes.value
    ensures r.aprovacoes.Some? ==> s.aprovacoes == r.aprovacoes.value
    ensures r.valorDecidido.Some? ==> s.valorDecidido == r.valorDecidido
    ensures r.moeda.Some? && r.moeda.value != "" ==> s.moeda == r.moeda.value
    ensures r.nivelAtualAprovacao.Some? && r.nivelAtualAprovacao.value != 0 ==> s.nivelAtualAprovacao == r.nivelAtualAprovacao
    // absent ones get their defaults
    ensures r.cotacoes.None? ==> s.cotacoes == []
    ensures r.aprovacoes.None? ==> s.aprovacoes == []
    ensures r.valorDecidido.None? ==> s.valorDecidido == Some(true)
    ensures (r.moeda.None? || r.moeda == Some("")) ==> s.moeda == "BRL"
    ensures (r.nivelAtualAprovacao.None? || r.nivelAtualAprovacao == Some(0)) ==> s.nivelAtualAprovacao == Some(1)
    // and every other field is copied
    ensures Armazenar(s).(moeda := r.moeda, cotacoes := r.cotacoes, valorDecidido := r.valorDecidido,
                          aprovacoes := r.aprovacoes, nivelAtualAprovacao := r.nivelAtualAprovacao) == r
  {
    Solicitacao(
      r.id, r.data, r.descricao, r.valor,
      if r.moeda.None? || r.moeda.value == "" then "BRL" else r.moeda.value,
      r.justificativa, r.urgencia, r.centroCusto, r.status, r.solicitante, r.observacao, r.dataAprovacao,
      if r.cotacoes.None? then [] else r.cotacoes.value,
      if r.valorDecidido.None? then Some(true) else r.valorDecidido,
      if r.aprovacoes.None? then [] else r.aprovacoes.value,
      Some(if r.nivelAtualAprovacao.None? || r.nivelAtualAprovacao.value == 0 then 1 else r.nivelAtualAprovacao.value))
  }

  /** Storing and loading returns a request exactly when it is already normalised. */
  lemma IdaEVolta(s: Solicitacao)
    ensures Normalizar(Armazenar(s)) == s <==> Normalizada(s)
  {
  }

  /** Normalising what a normalisation produced changes nothing. */
  lemma NormalizarIdempotente(r: Registro)
    ensures Normalizar(Armazenar(Normalizar(r))) == Normalizar(r)
  {
    IdaEVolta(Normalizar(r));
  }

  function NormalizarLista(rs: seq<Registro>): (l: seq<Solicitacao>)
    ensures |l| == |rs|
    ensures forall i :: 0 <= i < |rs| ==> l[i] == Normalizar(rs[i])
  {
    seq(|rs|, i requires 0 <= i < |rs| => Normalizar(rs[i]))
  }

  function ArmazenarLista(l: seq<Solicitacao>): seq<Registro>
  {
    seq(|l|, i requires 0 <= i < |l| => Armazenar(l[i]))
  }

  /** A list survives a store-and-load round trip exactly when all its requests are normalised. */
  lemma IdaEVoltaLista(l: seq<Solicitacao>)
    ensures NormalizarLista(ArmazenarLista(l)) == l <==> forall i :: 0 <= i < |l| ==> Normalizada(l[i])
  {
    forall i | 0 <= i < |l| {
      IdaEVolta(l[i]);
    }
    if forall i :: 0 <= i < |l| ==> Normalizada(l[i]) {
      assert NormalizarLista(ArmazenarLista(l)) == l;
    }
  }

  /** The list a load yields: the normalised records, or the sample data when the
      entry is missing or unreadable. */
  function CarregarLista(a: Armazenamento, iniciais: seq<Solicitacao>): (l: seq<Solicitacao>)
    ensures a.Presente? ==> |l| == |a.registros|
    ensures a.Presente? ==> forall i :: 0 <= i < |l| ==> l[i] == Normalizar(a.registros[i]) && Normalizada(l[i])
    ensures !a.Presente? ==> l == iniciais
  {
    match a
    case Presente(rs) => NormalizarLista(rs)
    case _ => iniciais
  }
}
