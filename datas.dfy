/** Calendar dates as the pages read them back from the `DD/MM/YYYY` text a
    request is stamped with. */
module Datas {
  import opened Textos
  import opened Modelo

  predicate Bissexto(ano: nat)
  {
    ano % 4 == 0 && (ano % 100 != 0 || ano % 400 == 0)
  }

  function DiasNoMes(mes: nat, ano: nat): (n: nat)
    ensures 28 <= n <= 31
  {
    if mes == 2 then (if Bissexto(ano) then 29 else 28)
    else if mes == 4 || mes == 6 || mes == 9 || mes == 11 then 30
    else 31
  }

  /** A real calendar day with a four-digit year. */
  predicate DataValida(h: Hoje)
  {
    1000 <= h.ano <= 9999 && 1 <= h.mes <= 12 && 1 <= h.dia <= DiasNoMes(h.mes, h.ano)
  }

  /** The date read as the number `YYYYMMDD`. */
  function ValorData(h: Hoje): nat
  {
    h.ano * 10000 + h.mes * 100 + h.dia
  }

  /** Calendar order: by year, then month, then day. */
  predicate Antes(h1: Hoje, h2: Hoje)
  {
    h1.ano < h2.ano || (h1.ano == h2.ano && (h1.mes < h2.mes || (h1.mes == h2.mes && h1.dia < h2.dia)))
  }

  /** `YYYYMMDD` numbers are in calendar order. */
  lemma ValorDataCronologico(h1: Hoje, h2: Hoje)
    requires h1.mes < 100 && h1.dia < 100 && h2.mes < 100 && h2.dia < 100
    ensures ValorData(h1) < ValorData(h2) <==> Antes(h1, h2)
  {
  }

  /** A day or month as it is written: two digits. */
  function DoisDigitos(n: nat): string
  {
    PadStart(Decimal(n), 2)
  }

  lemma DoisDigitosValor(n: nat)
    requires n < 100
    ensures |DoisDigitos(n)| == 2 && AllDigits(DoisDigitos(n)) && DecimalValue(DoisDigitos(n)) == n
  {
    DecimalUpToTwoDigits(n);
    DecimalValueOfDecimal(n);
    PadStartValue(Decimal(n), 2);
  }

  lemma AnoValor(n: nat)
    requires 1000 <= n <= 9999
    ensures |Decimal(n)| == 4 && AllDigits(Decimal(n)) && DecimalValue(Decimal(n)) == n
  {
    DecimalFourDigits(n);
    DecimalValueOfDecimal(n);
  }

  /** Splitting a stamped date on `/` yields its day, month and year texts. */
  lemma PartesDaData(h: Hoje)
    requires DataValida(h)
    ensures Split(DataFormatada(h), '/') == [DoisDigitos(h.dia), DoisDigitos(h.mes), Decimal(h.ano)]
  {
    DoisDigitosValor(h.dia);
    DoisDigitosValor(h.mes);
    AnoValor(h.ano);
    PartesDeTres(DoisDigitos(h.dia), DoisDigitos(h.mes), Decimal(h.ano));
  }

  lemma PartesDeTres(d: string, m: string, a: string)
    requires AllDigits(d) && AllDigits(m) && AllDigits(a)
    ensures Split(d + "/" + m + "/" + a, '/') == [d, m, a]
  {
    var parts := [d, m, a];
    assert Join(parts[2..], '/') == a;
    assert Join(parts[1..], '/') == m + "/" + a;
    assert Join(parts, '/') == d + "/" + (m + "/" + a);
    Reagrupar(d, m, a);
    SemBarra(parts);
    SplitJoin(parts, '/');
  }

  lemma Reagrupar(d: string, m: string, a: string)
    ensures d + "/" + m + "/" + a == d + "/" + (m + "/" + a)
  {
  }

  lemma SemBarra(parts: seq<string>)
    requires forall i :: 0 <= i < |parts| ==> AllDigits(parts[i])
    ensures forall i, j :: 0 <= i < |parts| && 0 <= j < |parts[i]| ==> parts[i][j] != '/'
  {
    forall i, j | 0 <= i < |parts| && 0 <= j < |parts[i]| ensures parts[i][j] != '/' {
      assert IsDigit(parts[i][j]);
    }
  }
}
