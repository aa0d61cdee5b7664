/** The pending-requests page of a manager: the two queues narrowed by the
    search box, ordered by the column header last clicked, and the two
    counters above the tables. */
module Pendentes {
  import opened Comum
  import opened Modelo
  import opened Textos
  import opened Datas
  import opened Ordenacao
  import opened Filas

  // ---------------------------------------------------------------------
  // Search
  // ---------------------------------------------------------------------

  /** The lower-cased term occurs in the lower-cased field. */
  predicate ContemTermo(campo: string, termo: string)
  {
    Includes(ToLower(campo), ToLower(termo))
  }

  /** The search test: id, description, requester (when present and
      non-empty) or cost centre contains the term, ignoring case. */
  predicate Corresponde(s: Solicitacao, termo: string)
  {
    || ContemTermo(s.id, termo)
    || ContemTermo(s.descricao, termo)
    || (s.solicitante.Some? && s.solicitante.value != "" && ContemTermo(s.solicitante.value, termo))
    || ContemTermo(s.centroCusto, termo)
  }

  function Buscar(l: seq<Solicitacao>, termo: string): (r: seq<Solicitacao>)
    ensures forall s :: s in r <==> s in l && Corresponde(s, termo)
    ensures multiset(r) <= multiset(l)
  {
    Filter(l, s => Corresponde(s, termo))
  }

  /** An empty search box keeps the whole queue, in order. */
  lemma BuscaVaziaMantemTudo(l: seq<Solicitacao>)
    ensures Buscar(l, "") == l
  {
    forall i | 0 <= i < |l| ensures Corresponde(l[i], "") {
      IncludesEmpty(ToLower(l[i].id));
    }
    FilterKeepsAll(l, s => Corresponde(s, ""));
  }

  /** The search ignores the case of the term. */
  lemma BuscaIgnoraCaixa(l: seq<Solicitacao>, termo: string)
    ensures Buscar(l, ToLower(termo)) == Buscar(l, termo)
  {
    ToLowerIdempotent(termo);
    FilterAgree(l, s => Corresponde(s, ToLower(termo)), s => Corresponde(s, termo));
  }

  /** The search keeps relative order: it distributes over concatenation. */
  lemma BuscaPreservaOrdem(a: seq<Solicitacao>, b: seq<Solicitacao>, termo: string)
    ensures Buscar(a + b, termo) == Buscar(a, termo) + Buscar(b, termo)
  {
    FilterConcat(a, b, s => Corresponde(s, termo));
  }

  /** Searching the searched queue again with the same term changes nothing. */
  lemma BuscaIdempotente(l: seq<Solicitacao>, termo: string)
    ensures Buscar(Buscar(l, termo), termo) == Buscar(l, termo)
  {
    FilterIdempotent(l, s => Corresponde(s, termo));
  }

  /** Typing a request's id, in any case, finds it. */
  lemma BuscaPeloIdEncontra(l: seq<Solicitacao>, i: nat, termo: string)
    requires i < |l| && ToLower(termo) == ToLower(l[i].id)
    ensures l[i] in Buscar(l, termo)
  {
    IncludesSelf(ToLower(l[i].id));
  }

  // ---------------------------------------------------------------------
  // Ordering
  // ---------------------------------------------------------------------

  datatype Direcao = Asc | Desc

  /** The column names the comparator knows. */
  predicate CampoConhecido(campo: string)
  {
    campo in ["id", "solicitante", "descricao", "valor", "data", "urgencia", "cotacoes"]
  }

  /** A `YYYY`, `MM`, `DD` triple that `new Date("YYYY-MM-DD")` accepts. */
  predicate DataIso(ano: string, mes: string, dia: string)
  {
    && |ano| == 4 && |mes| == 2 && |dia| == 2
    && AllDigits(ano) && AllDigits(mes) && AllDigits(dia)
    && 1 <= DecimalValue(mes) <= 12
    && 1 <= DecimalValue(dia) <= DiasNoMes(DecimalValue(mes), DecimalValue(ano))
  }

  /** The key of the "data" column: the `DD/MM/YYYY` text reassembled as
      `YYYY-MM-DD` and parsed; any other text is an invalid date. */
  function ChaveData(data: string): Chave
  {
    ChaveDePartes(Split(data, '/'))
  }

  function ChaveDePartes(p: seq<string>): Chave
  {
    if |p| >= 3 && DataIso(p[2], p[1], p[0]) then
      Numero(ValorData(Hoje(DecimalValue(p[0]), DecimalValue(p[1]), DecimalValue(p[2]))) as real)
    else Indefinida
  }

  /** The value the comparator reads for a column; an unknown column makes
      every comparison 0, as an undefined key does. */
  function ChaveDe(campo: string, s: Solicitacao): Chave
  {
    if campo == "id" then Texto(s.id)
    else if campo == "solicitante" then Texto(if s.solicitante.Some? then s.solicitante.value else "")
    else if campo == "descricao" then Texto(s.descricao)
    else if campo == "valor" then Numero(if s.valor.Some? then s.valor.value else 0.0)
    else if campo == "data" then ChaveData(s.data)
    else if campo == "urgencia" then Numero(if s.urgencia == Alta then 1.0 else 0.0)
    else if campo == "cotacoes" then Numero(|s.cotacoes| as real)
    else Indefinida
  }

  function Chaveador(campo: string): Solicitacao -> Chave
  {
    s => ChaveDe(campo, s)
  }

  /** `sortSolicitacoes`: no field (or an empty one) leaves the list as it is. */
  function Ordenar(l: seq<Solicitacao>, campo: Option<string>, direcao: Direcao): (r: seq<Solicitacao>)
    ensures multiset(r) == multiset(l) && |r| == |l|
    ensures campo.None? || campo == Some("") ==> r == l
  {
    if campo.None? || campo.value == "" then l
    else OrdenarPor(l, Chaveador(campo.value), direcao == Desc)
  }

  /** A stamped date has the numeric key `YYYYMMDD`, so the "data" column's
      order is calendar order. */
  lemma ChaveDataDeDataFormatada(h1: Hoje, h2: Hoje)
    requires DataValida(h1) && DataValida(h2)
    ensures ChaveData(DataFormatada(h1)) == Numero(ValorData(h1) as real)
    ensures Lt(ChaveData(DataFormatada(h1)), ChaveData(DataFormatada(h2))) <==> Antes(h1, h2)
  {
    ChaveDataDeUma(h1);
    ChaveDataDeUma(h2);
    ValorDataCronologico(h1, h2);
    LtNumeros(ValorData(h1), ValorData(h2));
  }

  lemma LtNumeros(a: nat, b: nat)
    ensures Lt(Numero(a as real), Numero(b as real)) <==> a < b
  {
  }

  lemma ChaveDataDeUma(h: Hoje)
    requires DataValida(h)
    ensures ChaveData(DataFormatada(h)) == Numero(ValorData(h) as real)
  {
    PartesDaData(h);
    DoisDigitosValor(h.dia);
    DoisDigitosValor(h.mes);
    AnoValor(h.ano);
    ChaveDeTres(DoisDigitos(h.dia), DoisDigitos(h.mes), Decimal(h.ano), h);
  }

  lemma ChaveDeTres(d: string, m: string, a: string, h: Hoje)
    requires DataValida(h)
    requires |d| == 2 && AllDigits(d) && DecimalValue(d) == h.dia
    requires |m| == 2 && AllDigits(m) && DecimalValue(m) == h.mes
    requires |a| == 4 && AllDigits(a) && DecimalValue(a) == h.ano
    ensures ChaveDePartes([d, m, a]) == Numero(ValorData(h) as real)
  {
    assert DataIso(a, m, d);
  }

  /** A known column orders the list in the chosen direction, provided every
      date parses when the column is "data". */
  lemma OrdenarOrdena(l: seq<Solicitacao>, campo: string, direcao: Direcao)
    requires CampoConhecido(campo) && campo != ""
    requires campo == "data" ==> forall i :: 0 <= i < |l| ==> ChaveData(l[i].data) != Indefinida
    ensures Ordenada(Ordenar(l, Some(campo), direcao), Chaveador(campo), direcao == Desc)
  {
    forall i | 0 <= i < |l| ensures Definida(Chaveador(campo)(l[i])) {
    }
    OrdenarPorOrdena(l, Chaveador(campo), direcao == Desc);
  }

  /** An unknown column leaves the list exactly as it is. */
  lemma CampoDesconhecidoMantem(l: seq<Solicitacao>, campo: string, direcao: Direcao)
    requires !CampoConhecido(campo)
    ensures Ordenar(l, Some(campo), direcao) == l
  {
    if campo != "" {
      OrdenarPorOrdenadaIdentidade(l, Chaveador(campo), direcao == Desc);
    }
  }

  /** The list a table shows: the queue, searched, then ordered. */
  function Exibida(fila: seq<Solicitacao>, termo: string, campo: Option<string>, direcao: Direcao): (r: seq<Solicitacao>)
    ensures multiset(r) <= multiset(fila)
    ensures forall s :: s in r <==> s in fila && Corresponde(s, termo)
  {
    var b := Buscar(fila, termo);
    var r := Ordenar(b, campo, direcao);
    assert forall s :: s in r <==> s in b by {
      forall s ensures s in r <==> s in b {
        assert s in r <==> s in multiset(r);
        assert s in b <==> s in multiset(b);
      }
    }
    r
  }

  // ---------------------------------------------------------------------
  // Sorting state
  // ---------------------------------------------------------------------

  function Inverter(d: Direcao): Direcao
  {
    if d == Asc then Desc else Asc
  }

  /** The field and direction after a click on the header of `campo`. */
  function AposClique(campoAtual: Option<string>, direcao: Direcao, campo: string): (r: (Option<string>, Direcao))
    ensures r.0 == Some(campo)
    ensures campoAtual == Some(campo) ==> r.1 != direcao
    ensures campoAtual != Some(campo) ==> r.1 == Desc
  {
    if campoAtual == Some(campo) then (campoAtual, Inverter(direcao)) else (Some(campo), Desc)
  }

  /** Two clicks on the current column restore the direction. */
  lemma CliqueDuploRestaura(direcao: Direcao, campo: string)
    ensures var r := AposClique(Some(campo), direcao, campo);
            AposClique(r.0, r.1, campo) == (Some(campo), direcao)
  {
  }

  /** Two clicks on a new column sort it ascending. */
  lemma CliqueDuploNovoCampo(campoAtual: Option<string>, direcao: Direcao, campo: string)
    requires campoAtual != Some(campo)
    ensures var r := AposClique(campoAtual, direcao, campo);
            AposClique(r.0, r.1, campo) == (Some(campo), Asc)
  {
  }

  /** The page's `sortField` / `sortDirection` state. */
  class EstadoOrdenacao {
    var campo: Option<string>
    var direcao: Direcao

    /** No column, descending. */
    constructor ()
      ensures campo == None && direcao == Desc
    {
      campo := None;
      direcao := Desc;
    }

    /** `handleSort`. */
    method HandleSort(campoClicado: string)
      modifies this
      ensures (campo, direcao) == AposClique(old(campo), old(direcao), campoClicado)
    {
      if campo == Some(campoClicado) {
        direcao := if direcao == Asc then Desc else Asc;
      } else {
        campo := Some(campoClicado);
        direcao := Desc;
      }
    }
  }

  // ---------------------------------------------------------------------
  // Counters
  // ---------------------------------------------------------------------

  predicate Urgente(s: Solicitacao) { s.urgencia == Alta }

  function TotalPendentes(primeira: seq<Solicitacao>, segunda: seq<Solicitacao>): nat
  {
    |primeira| + |segunda|
  }

  /** The urgent requests across both shown tables. */
  function UrgentesCount(primeira: seq<Solicitacao>, segunda: seq<Solicitacao>): (n: nat)
    ensures n == Count(primeira, Urgente) + Count(segunda, Urgente)
    ensures n <= TotalPendentes(primeira, segunda)
  {
    var r := |Filter(primeira + segunda, Urgente)|;
    FilterConcat(primeira, segunda, Urgente);
    FilterLengthIsCount(primeira, Urgente);
    FilterLengthIsCount(segunda, Urgente);
    r
  }

  /** The counters over what the page shows never exceed the stored list. */
  lemma ContadoresLimitados(l: seq<Solicitacao>, email: Option<string>, termo: string,
                            campo: Option<string>, direcao: Direcao)
    ensures var p := Exibida(FilaPrimeira(l, email), termo, campo, direcao);
            var s := Exibida(FilaSegunda(l, email), termo, campo, direcao);
            UrgentesCount(p, s) <= TotalPendentes(p, s) <= |l|
  {
    FilasNoMaximoTotal(l, email);
    var p := Exibida(FilaPrimeira(l, email), termo, campo, direcao);
    var s := Exibida(FilaSegunda(l, email), termo, campo, direcao);
    assert |multiset(p)| <= |multiset(FilaPrimeira(l, email))|;
    assert |multiset(s)| <= |multiset(FilaSegunda(l, email))|;
  }
}
