/** The manager dashboard: queue sizes and status counters, and the five most
    recent requests by the date they were stamped with. */
module PainelGerente {
  import opened Comum
  import opened Modelo
  import opened Textos
  import opened Datas
  import opened Ordenacao
  import opened Filas
  import Pendentes

  // ---------------------------------------------------------------------
  // Statistics
  // ---------------------------------------------------------------------

  datatype Estatisticas = Estatisticas(
    pendentes: nat,
    primeiraAprovacao: nat,
    segundaAprovacao: nat,
    aprovadas: nat,
    rejeitadas: nat,
    urgentes: nat,
    total: nat)

  predicate Aprovada(s: Solicitacao) { s.status == Aprovado }

  predicate Rejeitada(s: Solicitacao) { s.status == Rejeitado }

  /** High urgency and still waiting for a decision. */
  predicate UrgenteEmAberto(s: Solicitacao)
  {
    s.urgencia == Alta && (s.status == Pendente || s.status == ParcialmenteAprovado)
  }

  function CalcularEstatisticas(l: seq<Solicitacao>, email: Option<string>): (e: Estatisticas)
    ensures e.total == |l|
    ensures e.pendentes == e.primeiraAprovacao + e.segundaAprovacao
    ensures e.primeiraAprovacao == |FilaPrimeira(l, email)| && e.segundaAprovacao == |FilaSegunda(l, email)|
    ensures e.aprovadas == Count(l, Aprovada) && e.rejeitadas == Count(l, Rejeitada)
    ensures e.urgentes == Count(l, UrgenteEmAberto)
  {
    var primeira := FilaPrimeira(l, email);
    var segunda := FilaSegunda(l, email);
    FilterLengthIsCount(l, Aprovada);
    FilterLengthIsCount(l, Rejeitada);
    FilterLengthIsCount(l, UrgenteEmAberto);
    Estatisticas(
      |primeira| + |segunda|, |primeira|, |segunda|,
      |Filter(l, Aprovada)|, |Filter(l, Rejeitada)|, |Filter(l, UrgenteEmAberto)|, |l|)
  }

  /** Queued, approved and rejected requests are disjoint parts of the list. */
  lemma PartesDoTotal(l: seq<Solicitacao>, email: Option<string>)
    ensures var e := CalcularEstatisticas(l, email);
            e.pendentes + e.aprovadas + e.rejeitadas <= e.total
  {
    DisjuntasNoMaximoTotal(l, email);
  }

  lemma {:induction false} DisjuntasNoMaximoTotal(l: seq<Solicitacao>, email: Option<string>)
    ensures |FilaPrimeira(l, email)| + |FilaSegunda(l, email)| + Count(l, Aprovada) + Count(l, Rejeitada) <= |l|
  {
    if l != [] {
      DisjuntasNoMaximoTotal(l[1..], email);
    }
  }

  /** The dashboard's pending count is the pending page's total with an empty
      search, whatever the ordering. */
  lemma PendentesComoNaPagina(l: seq<Solicitacao>, email: Option<string>, campo: Option<string>, direcao: Pendentes.Direcao)
    ensures CalcularEstatisticas(l, email).pendentes
         == Pendentes.TotalPendentes(Pendentes.Exibida(FilaPrimeira(l, email), "", campo, direcao),
                                     Pendentes.Exibida(FilaSegunda(l, email), "", campo, direcao))
  {
    Pendentes.BuscaVaziaMantemTudo(FilaPrimeira(l, email));
    Pendentes.BuscaVaziaMantemTudo(FilaSegunda(l, email));
  }

  // ---------------------------------------------------------------------
  // Most recent requests
  // ---------------------------------------------------------------------

  /** `data.split("/").reverse().join("")`: `DD/MM/YYYY` becomes `YYYYMMDD`. */
  function ChaveRecente(data: string): string
  {
    Concat(Reverse(Split(data, '/')))
  }

  function ChaveRecenteDe(s: Solicitacao): Chave
  {
    Texto(ChaveRecente(s.data))
  }

  /** The list sorted newest first by that key, cut to five entries. */
  function Recentes(l: seq<Solicitacao>): (r: seq<Solicitacao>)
    ensures |r| == if |l| < 5 then |l| else 5
    ensures multiset(r) <= multiset(l)
    ensures Ordenada(r, ChaveRecenteDe, true)
  {
    var ordenada := OrdenarPor(l, ChaveRecenteDe, true);
    var k := if |ordenada| < 5 then |ordenada| else 5;
    OrdenarPorOrdena(l, ChaveRecenteDe, true);
    PrefixoOrdenado(ordenada, ChaveRecenteDe, true, k);
    assert ordenada == ordenada[..k] + ordenada[k..];
    ordenada[..k]
  }

  /** No request left out of the five has a later key than one shown. */
  lemma NenhumaOmitidaMaisRecente(l: seq<Solicitacao>, s: Solicitacao, i: nat)
    requires s in multiset(l) - multiset(Recentes(l))
    requires i < |Recentes(l)|
    ensures !LexLess(ChaveRecente(Recentes(l)[i].data), ChaveRecente(s.data))
  {
    var ordenada := OrdenarPor(l, ChaveRecenteDe, true);
    OrdenarPorOrdena(l, ChaveRecenteDe, true);
    assert Recentes(l) == ordenada[..|Recentes(l)|];
    OmitidoNaoPrecede(ordenada, ChaveRecenteDe, true, |Recentes(l)|, s, i);
  }

  /** A stamped date's key is its year, month and day digits, so the key
      order is calendar order. */
  lemma ChaveRecenteCronologica(h1: Hoje, h2: Hoje)
    requires DataValida(h1) && DataValida(h2)
    ensures ChaveRecente(DataFormatada(h1)) == Decimal(h1.ano) + DoisDigitos(h1.mes) + DoisDigitos(h1.dia)
    ensures LexLess(ChaveRecente(DataFormatada(h1)), ChaveRecente(DataFormatada(h2))) <==> Antes(h1, h2)
  {
    ChaveRecenteDeUma(h1);
    ChaveRecenteDeUma(h2);
    var k1 := Decimal(h1.ano) + DoisDigitos(h1.mes) + DoisDigitos(h1.dia);
    var k2 := Decimal(h2.ano) + DoisDigitos(h2.mes) + DoisDigitos(h2.dia);
    DigitosDaChave(h1);
    DigitosDaChave(h2);
    LexLessDigits(k1, k2);
    ValorDataCronologico(h1, h2);
  }

  lemma ChaveRecenteDeUma(h: Hoje)
    requires DataValida(h)
    ensures ChaveRecente(DataFormatada(h)) == Decimal(h.ano) + DoisDigitos(h.mes) + DoisDigitos(h.dia)
  {
    PartesDaData(h);
    ChaveDePartes(DataFormatada(h), DoisDigitos(h.dia), DoisDigitos(h.mes), Decimal(h.ano));
  }

  lemma DigitosDaChave(h: Hoje)
    requires DataValida(h)
    ensures var k := Decimal(h.ano) + DoisDigitos(h.mes) + DoisDigitos(h.dia);
            |k| == 8 && AllDigits(k) && DecimalValue(k) == ValorData(h)
  {
    DoisDigitosValor(h.dia);
    DoisDigitosValor(h.mes);
    AnoValor(h.ano);
    DigitosDeTres(Decimal(h.ano), DoisDigitos(h.mes), DoisDigitos(h.dia), h);
  }

  lemma DigitosDeTres(a: string, m: string, d: string, h: Hoje)
    requires |a| == 4 && AllDigits(a) && DecimalValue(a) == h.ano
    requires |m| == 2 && AllDigits(m) && DecimalValue(m) == h.mes
    requires |d| == 2 && AllDigits(d) && DecimalValue(d) == h.dia
    ensures |a + m + d| == 8 && AllDigits(a + m + d) && DecimalValue(a + m + d) == ValorData(h)
  {
    ValorDeTres(a, m, d);
  }

  lemma ChaveDePartes(data: string, d: string, m: string, a: string)
    requires Split(data, '/') == [d, m, a]
    ensures ChaveRecente(data) == a + m + d
  {
    assert Reverse([d, m, a]) == [a, m, d];
    var r := [a, m, d];
    assert Concat([d]) == d by {
      assert [d][1..] == [];
    }
    assert Concat([m, d]) == m + d by {
      assert [m, d][1..] == [d];
    }
    assert Concat(r) == a + (m + d) by {
      assert r[1..] == [m, d];
    }
  }

  lemma ValorDeTres(a: string, m: string, d: string)
    requires AllDigits(a) && AllDigits(m) && AllDigits(d) && |m| == 2 && |d| == 2
    ensures AllDigits(a + m + d)
    ensures DecimalValue(a + m + d) == DecimalValue(a) * 10000 + DecimalValue(m) * 100 + DecimalValue(d)
  {
    var am := a + m;
    var x, y, z := DecimalValue(a), DecimalValue(m), DecimalValue(d);
    DecimalValueConcat(a, m);
    DecimalValueConcat(am, d);
    assert Pow10(2) == 100;
    assert DecimalValue(am) == x * 100 + y;
    assert DecimalValue(am + d) == (x * 100 + y) * 100 + z;
    assert am + d == a + m + d;
  }
}
