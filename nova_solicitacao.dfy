/** The request form a client fills in: the editable list of supplier quotes,
    the checks run when the form is sent, and the request handed to the store. */
module FormularioNovaSolicitacao {
  import opened Comum
  import opened Modelo
  import Contexto

  // ---------------------------------------------------------------------
  // `trim()`
  // ---------------------------------------------------------------------

  /** The characters `trim()` removes: ECMAScript white space and line terminators. */
  predicate EspacoBranco(c: char)
  {
    || c == '\t' || c == '\n' || c == '\U{000B}' || c == '\U{000C}' || c == '\r' || c == ' '
    || c == '\U{00A0}' || c == '\U{1680}' || ('\U{2000}' <= c <= '\U{200A}')
    || c == '\U{2028}' || c == '\U{2029}' || c == '\U{202F}' || c == '\U{205F}'
    || c == '\U{3000}' || c == '\U{FEFF}'
  }

  /** Drops the leading white space. */
  function SemEspacoInicial(s: string): (r: string)
    ensures |r| <= |s| && r == s[|s| - |r|..]
    ensures r == [] || !EspacoBranco(r[0])
    ensures forall i :: 0 <= i < |s| - |r| ==> EspacoBranco(s[i])
  {
    if s != [] && EspacoBranco(s[0]) then SemEspacoInicial(s[1..]) else s
  }

  /** Drops the trailing white space. */
  function SemEspacoFinal(s: string): (r: string)
    ensures |r| <= |s| && r == s[..|r|]
    ensures r == [] || !EspacoBranco(r[|r| - 1])
    ensures forall i :: |r| <= i < |s| ==> EspacoBranco(s[i])
  {
    if s != [] && EspacoBranco(s[|s| - 1]) then SemEspacoFinal(s[..|s| - 1]) else s
  }

  function Trim(s: string): string
  {
    SemEspacoFinal(SemEspacoInicial(s))
  }

  /** `s.trim() !== ""` exactly when `s` holds a character that is not white space. */
  lemma TrimNaoVazio(s: string)
    ensures Trim(s) != "" <==> exists i :: 0 <= i < |s| && !EspacoBranco(s[i])
  {
    var t := SemEspacoInicial(s);
    var r := SemEspacoFinal(t);
    var k := |s| - |t|;
    if r != [] {
      assert r[0] == t[0] && t[0] == s[k];
    } else {
      forall i | 0 <= i < |s| ensures EspacoBranco(s[i]) {
        if i >= k {
          assert s[i] == t[i - k];
        }
      }
    }
  }

  // ---------------------------------------------------------------------
  // The quote rows
  // ---------------------------------------------------------------------

  /** One row of the quote table, as typed: every field is text. */
  datatype CotacaoForm = CotacaoForm(
    fornecedor: string,
    valor: string,
    moeda: string,
    prazoEntrega: string,
    observacoes: string)

  datatype CampoCotacao = Fornecedor | Valor | Moeda | PrazoEntrega | Observacoes

  function Campo(c: CotacaoForm, campo: CampoCotacao): string
  {
    match campo
    case Fornecedor => c.fornecedor
    case Valor => c.valor
    case Moeda => c.moeda
    case PrazoEntrega => c.prazoEntrega
    case Observacoes => c.observacoes
  }

  /** `{ ...c, [campo]: v }`. */
  function ComCampo(c: CotacaoForm, campo: CampoCotacao, v: string): (r: CotacaoForm)
    ensures Campo(r, campo) == v
    ensures forall outro :: outro != campo ==> Campo(r, outro) == Campo(c, outro)
  {
    match campo
    case Fornecedor => c.(fornecedor := v)
    case Valor => c.(valor := v)
    case Moeda => c.(moeda := v)
    case PrazoEntrega => c.(prazoEntrega := v)
    case Observacoes => c.(observacoes := v)
  }

  /** A blank row in the given currency. */
  function Vazia(moeda: string): CotacaoForm
  {
    CotacaoForm("", "", moeda, "", "")
  }

  /** `cotacoes.filter((_, i) => i !== index)` once the list has two rows or more. */
  function RemoverEm(cs: seq<CotacaoForm>, index: int): (r: seq<CotacaoForm>)
    ensures |cs| <= 1 || index < 0 || index >= |cs| ==> r == cs
    ensures |cs| > 1 && 0 <= index < |cs| ==>
              && |r| == |cs| - 1
              && (forall i :: 0 <= i < index ==> r[i] == cs[i])
              && (forall i :: index <= i < |r| ==> r[i] == cs[i + 1])
    ensures |r| >= 1 <==> |cs| >= 1
  {
    if |cs| <= 1 || index < 0 || index >= |cs| then cs else cs[..index] + cs[index + 1..]
  }

  /** The three fields a complete quote must fill (after `trim()`). */
  predicate Completa(c: CotacaoForm)
  {
    Trim(c.fornecedor) != "" && Trim(c.valor) != "" && Trim(c.prazoEntrega) != ""
  }

  /** `cotacoesValidas`: some row is complete. */
  function CotacoesValidas(cs: seq<CotacaoForm>): (b: bool)
    ensures b <==> exists i :: 0 <= i < |cs| && Completa(cs[i])
  {
    Any(cs, Completa)
  }

  /** The quote sent for a complete row: `valorDe` is `parseFloat` and
      `idTemporario` the random temporary id; an empty note is dropped. */
  function Formatar(c: CotacaoForm, id: string, valorDe: string -> real): (r: Cotacao)
    ensures r.id == id && r.valor == valorDe(c.valor) && r.selecionada == Some(false)
    ensures r.fornecedor == c.fornecedor && r.moeda == c.moeda && r.prazoEntrega == c.prazoEntrega
    ensures r.observacoes == if c.observacoes == "" then None else Some(c.observacoes)
  {
    Cotacao(id, c.fornecedor, valorDe(c.valor), c.moeda, c.prazoEntrega,
            if c.observacoes == "" then None else Some(c.observacoes), Some(false))
  }

  /** The complete rows, in table order, each formatted. */
  function CotacoesFormatadas(cs: seq<CotacaoForm>, valorDe: string -> real, idTemporario: nat -> string): (r: seq<Cotacao>)
    ensures |r| == Count(cs, Completa) == |Filter(cs, Completa)|
    ensures forall i :: 0 <= i < |r| ==> r[i] == Formatar(Filter(cs, Completa)[i], idTemporario(i), valorDe)
  {
    var completas := Filter(cs, Completa);
    FilterLengthIsCount(cs, Completa);
    seq(|completas|, i requires 0 <= i < |completas| => Formatar(completas[i], idTemporario(i), valorDe))
  }

  /** A table of complete rows is sent whole, row for row. */
  lemma TodasCompletasSaoEnviadas(cs: seq<CotacaoForm>, valorDe: string -> real, idTemporario: nat -> string)
    requires forall i :: 0 <= i < |cs| ==> Completa(cs[i])
    ensures var r := CotacoesFormatadas(cs, valorDe, idTemporario);
            |r| == |cs| && forall i :: 0 <= i < |cs| ==> r[i] == Formatar(cs[i], idTemporario(i), valorDe)
  {
    FilterKeepsAll(cs, Completa);
  }

  /** Incomplete rows are never sent, and rows keep their table order. */
  lemma IncompletasNaoSaoEnviadas(a: seq<CotacaoForm>, c: CotacaoForm, b: seq<CotacaoForm>)
    requires !Completa(c)
    ensures Filter(a + [c] + b, Completa) == Filter(a, Completa) + Filter(b, Completa)
  {
    FilterConcat(a + [c], b, Completa);
    FilterConcat(a, [c], Completa);
    assert Filter([c], Completa) == [] by {
      assert [c][1..] == [];
    }
    assert Filter(a + [c], Completa) == Filter(a, Completa);
  }

  // ---------------------------------------------------------------------
  // Sending
  // ---------------------------------------------------------------------

  datatype ErroEnvio =
    | CamposObrigatorios    // "Por favor, preencha todos os campos obrigatórios."
    | CotacoesIncompletas   // "É necessário fornecer pelo menos uma cotação completa."

  /** The checks of `handleSubmit` and the submission they let through. The
      three text fields are only checked for being empty, not trimmed. */
  function Enviar(descricao: string, justificativa: string, urgencia: Urgencia, centroCusto: string,
                  moedaPadrao: string, cotacoes: seq<CotacaoForm>,
                  valorDe: string -> real, idTemporario: nat -> string): (r: Result<NovaSolicitacao, ErroEnvio>)
    ensures r == Err(CamposObrigatorios) <==> descricao == "" || justificativa == "" || centroCusto == ""
    ensures r == Err(CotacoesIncompletas) <==>
              descricao != "" && justificativa != "" && centroCusto != ""
              && forall i :: 0 <= i < |cotacoes| ==> !Completa(cotacoes[i])
    ensures r.Ok? ==>
              && r.value.descricao == descricao && r.value.justificativa == justificativa
              && r.value.urgencia == urgencia && r.value.centroCusto == centroCusto
              && r.value.solicitante == Some("Carlos Silva") && r.value.moeda == moedaPadrao
              && r.value.cotacoes == CotacoesFormatadas(cotacoes, valorDe, idTemporario)
              && |r.value.cotacoes| >= 1
  {
    if descricao == "" || justificativa == "" || centroCusto == "" then Err(CamposObrigatorios)
    else if !CotacoesValidas(cotacoes) then Err(CotacoesIncompletas)
    else
      var i :| 0 <= i < |cotacoes| && Completa(cotacoes[i]);
      assert cotacoes[i] in Filter(cotacoes, Completa);
      FilterLengthIsCount(cotacoes, Completa);
      Ok(NovaSolicitacao(descricao, justificativa, urgencia, centroCusto, Some("Carlos Silva"),
                         CotacoesFormatadas(cotacoes, valorDe, idTemporario), moedaPadrao))
  }

  // ---------------------------------------------------------------------
  // The form
  // ---------------------------------------------------------------------

  /** The page's form state. */
  class Formulario {
    var descricao: string
    var justificativa: string
    var urgencia: Urgencia
    var centroCusto: string
    var moedaPadrao: string
    var cotacoes: seq<CotacaoForm>
    var enviando: bool

    /** The quote table never becomes empty. */
    predicate Valid()
      reads this
    {
      |cotacoes| >= 1
    }

    /** An empty form with one blank quote in BRL. */
    constructor ()
      ensures Valid()
      ensures descricao == "" && justificativa == "" && centroCusto == "" && urgencia == Normal
      ensures moedaPadrao == "BRL" && cotacoes == [Vazia("BRL")] && !enviando
    {
      descricao, justificativa, centroCusto := "", "", "";
      urgencia := Normal;
      moedaPadrao := "BRL";
      cotacoes := [Vazia("BRL")];
      enviando := false;
    }

    /** `atualizarCotacao`: field `campo` of row `index` becomes `v`. */
    method AtualizarCotacao(index: nat, campo: CampoCotacao, v: string)
      requires Valid() && index < |cotacoes|
      modifies this
      ensures Valid()
      ensures cotacoes == old(cotacoes)[index := ComCampo(old(cotacoes)[index], campo, v)]
      ensures descricao == old(descricao) && justificativa == old(justificativa) && urgencia == old(urgencia)
      ensures centroCusto == old(centroCusto) && moedaPadrao == old(moedaPadrao) && enviando == old(enviando)
    {
      var novas := cotacoes;
      novas := novas[index := ComCampo(novas[index], campo, v)];
      cotacoes := novas;
    }

    /** `adicionarCotacao`: one blank row in the current default currency. */
    method AdicionarCotacao()
      requires Valid()
      modifies this
      ensures Valid()
      ensures cotacoes == old(cotacoes) + [Vazia(moedaPadrao)]
      ensures descricao == old(descricao) && justificativa == old(justificativa) && urgencia == old(urgencia)
      ensures centroCusto == old(centroCusto) && moedaPadrao == old(moedaPadrao) && enviando == old(enviando)
    {
      cotacoes := cotacoes + [Vazia(moedaPadrao)];
    }

    /** `removerCotacao`: refused (with a notice) on the last row. */
    method RemoverCotacao(index: int)
      requires Valid()
      modifies this
      ensures Valid()
      ensures cotacoes == RemoverEm(old(cotacoes), index)
      ensures descricao == old(descricao) && justificativa == old(justificativa) && urgencia == old(urgencia)
      ensures centroCusto == old(centroCusto) && moedaPadrao == old(moedaPadrao) && enviando == old(enviando)
    {
      if |cotacoes| <= 1 {
        return;
      }
      cotacoes := RemoverEm(cotacoes, index);
    }

    /** `handleSubmit`: on a failed check nothing is stored and the form is
        usable again; otherwise the store receives the submission and the
        form stays in its sending state. `numero`, `hoje` and `usuario` are
        what the store reads from the random generator, the clock and the
        stored user. */
    method HandleSubmit(store: Contexto.SolicitacoesProvider, valorDe: string -> real, idTemporario: nat -> string,
                        numero: nat, hoje: Hoje, usuario: Option<string>)
      returns (r: Result<Solicitacao, ErroEnvio>)
      requires Valid() && store.Valid()
      modifies this, store
      ensures Valid() && store.Valid() && cotacoes == old(cotacoes)
      ensures store.isInitialized == old(store.isInitialized)
      ensures descricao == old(descricao) && justificativa == old(justificativa) && urgencia == old(urgencia)
      ensures centroCusto == old(centroCusto) && moedaPadrao == old(moedaPadrao)
      ensures var envio := Enviar(old(descricao), old(justificativa), old(urgencia), old(centroCusto),
                                  old(moedaPadrao), old(cotacoes), valorDe, idTemporario);
              match envio
              case Err(e) => r == Err(e) && store.solicitacoes == old(store.solicitacoes) && !enviando
              case Ok(nova) =>
                && r == Ok(Contexto.NovaNoContexto(nova, numero, hoje, usuario))
                && store.solicitacoes == [r.value] + old(store.solicitacoes) && enviando
    {
      enviando := true;
      var envio := Enviar(descricao, justificativa, urgencia, centroCusto, moedaPadrao, cotacoes, valorDe, idTemporario);
      match envio
      case Err(e) =>
        enviando := false;
        r := Err(e);
      case Ok(nova) =>
        var s := store.AdicionarSolicitacao(nova, numero, hoje, usuario);
        r := Ok(s);
    }
  }
}
