/** The expenses page, frontend/src/pages/Gastos.jsx: a search by deputy id
    that fetches the expenses of 2024 and 2025 and the deputies list
    together, then shows the deputy's card, the yearly totals and the two
    expense columns. */
module GastosView {
  import opened Wrappers
  import opened Models
  import opened Database
  import opened WebClient
  import Handlers

  /** The combined fetch fails as a whole: any rejected request, or a null
      deputies list, whose .find throws inside the same try. */
  predicate SearchFails(g24: Fetch<Option<seq<Despesa>>>, g25: Fetch<Option<seq<Despesa>>>,
                        deps: Fetch<Option<seq<Deputado>>>) {
    g24.Rejected? || g25.Rejected? || deps.Rejected? || deps.data.None?
  }

  /** totalGasto2024 / totalGasto2025: the left fold of reduce over
      valorDocumento, which is SumValor. */
  function TotalAno(gastos: seq<Despesa>): real {
    SumValor(gastos)
  }

  /** The total the page shows for a year is the ranking's total for that
      deputy and year, and the count under it is the ranking's count. */
  lemma TotalMatchesRanking(rows: seq<Despesa>, id: int, ano: int, out: seq<Despesa>)
    requires IsGastos(rows, id, ano, out)
    ensures TotalAno(Handlers.EncodeSlice(out).GetOr([])) == TotalGasto(rows, id, ano)
    ensures |Handlers.EncodeSlice(out).GetOr([])| == |Select(rows, id, ano)|
  {
    SumValorPermutation(out, Select(rows, id, ano));
    assert |out| == |multiset(out)| == |multiset(Select(rows, id, ano))|;
  }

  /** Totals add up over the concatenation of two lists; an empty list totals 0. */
  lemma TotalAnoAppend(a: seq<Despesa>, b: seq<Despesa>)
    ensures TotalAno(a + b) == TotalAno(a) + TotalAno(b)
    ensures TotalAno([]) == 0.0
  {
    SumValorAppend(a, b);
  }

  class GastosPage {
    var idDeputado: string
    var deputado: Option<Deputado>
    var gastos2024: seq<Despesa>
    var gastos2025: seq<Despesa>
    var loading: bool
    var searched: bool

    constructor ()
      ensures idDeputado == "" && deputado.None? && gastos2024 == [] && gastos2025 == []
      ensures !loading && !searched
    {
      idDeputado := "";
      deputado := None;
      gastos2024 := [];
      gastos2025 := [];
      loading := false;
      searched := false;
    }

    method SetIdDeputado(value: string)
      modifies this
      ensures idDeputado == value && deputado == old(deputado) && loading == old(loading)
      ensures gastos2024 == old(gastos2024) && gastos2025 == old(gastos2025) && searched == old(searched)
    {
      idDeputado := value;
    }

    /** buscarGastos, with a null year list read as [] (the page as written
        stores the null; see GastosAsWritten). An empty input only raises
        an alert. */
    method BuscarGastos(g24: Fetch<Option<seq<Despesa>>>, g25: Fetch<Option<seq<Despesa>>>,
                        deps: Fetch<Option<seq<Deputado>>>)
      modifies this
      ensures idDeputado == old(idDeputado)
      ensures idDeputado == "" ==>
        deputado == old(deputado) && gastos2024 == old(gastos2024) && gastos2025 == old(gastos2025) &&
        loading == old(loading) && searched == old(searched)
      ensures idDeputado != "" ==> searched && !loading
      ensures idDeputado != "" && SearchFails(g24, g25, deps) ==>
        deputado.None? && gastos2024 == [] && gastos2025 == []
      ensures idDeputado != "" && !SearchFails(g24, g25, deps) ==>
        && deputado == FindById(deps.data.value, JsParseInt(idDeputado))
        && gastos2024 == g24.data.GetOr([])
        && gastos2025 == g25.data.GetOr([])
    {
      if idDeputado == "" {
        return;
      }
      loading := true;
      searched := true;
      if SearchFails(g24, g25, deps) {
        deputado := None;
        gastos2024 := [];
        gastos2025 := [];
      } else {
        deputado := FindById(deps.data.value, JsParseInt(idDeputado));
        gastos2024 := g24.data.GetOr([]);
        gastos2025 := g25.data.GetOr([]);
      }
      loading := false;
    }

    /** The deputy card with both totals. */
    predicate CardShown()
      reads this
    {
      !loading && deputado.Some?
    }

    /** The two expense columns: shown when either year has an expense,
        with or without a deputy. */
    predicate ColumnsShown()
      reads this
    {
      !loading && (|gastos2024| > 0 || |gastos2025| > 0)
    }

    /** "Deputado não encontrado". */
    predicate NotFoundShown()
      reads this
    {
      !loading && searched && deputado.None?
    }
  }

  /** After any search the page shows the card or the not-found message,
      never both; a failed search shows the message and nothing else. */
  lemma AfterSearch(p: GastosPage)
    requires p.searched && !p.loading
    ensures p.CardShown() != p.NotFoundShown()
    ensures p.deputado.None? && p.gastos2024 == [] && p.gastos2025 == [] ==>
      p.NotFoundShown() && !p.ColumnsShown() && !p.CardShown()
  {
  }
}

/** The expenses page as written: it stores each year's response body as it
    comes, and the backend answers null for a year without expenses. */
module GastosAsWritten {
  import opened Wrappers
  import opened Models
  import opened Database
  import Handlers

  /** Rendering with the stored values: Some(columns shown), or None for the
      TypeError of reading .length of a null year list, which every
      rendered branch does once loading is over. */
  function RenderAsWritten(loading: bool, g2024: Option<seq<Despesa>>, g2025: Option<seq<Despesa>>)
    : (r: Option<bool>)
    ensures r.None? <==> !loading && (g2024.None? || g2025.None?)
    ensures r.Some? && !loading ==> (r.value <==> |g2024.value| > 0 || |g2025.value| > 0)
  {
    if loading then Some(false)
    else if g2024.None? || g2025.None? then None
    else Some(|g2024.value| > 0 || |g2025.value| > 0)
  }

  /** A deputy with expenses in 2024 and none in 2025: the backend sends
      null for 2025 and the page fails to render, where the corrected page
      shows the 2024 column. */
  lemma NullYearBreaksPage(rows: seq<Despesa>, id: int, out2024: seq<Despesa>, out2025: seq<Despesa>)
    requires IsGastos(rows, id, 2024, out2024) && IsGastos(rows, id, 2025, out2025)
    requires |Select(rows, id, 2024)| > 0 && Select(rows, id, 2025) == []
    ensures RenderAsWritten(false, Handlers.EncodeSlice(out2024), Handlers.EncodeSlice(out2025)).None?
    ensures |Handlers.EncodeSlice(out2024).GetOr([])| > 0
  {
    assert |out2024| == |multiset(out2024)| == |multiset(Select(rows, id, 2024))|;
    assert |out2025| == |multiset(out2025)| == |multiset(Select(rows, id, 2025))|;
  }

  /** A concrete table that shows it: one 2024 expense of deputy 1. */
  lemma NullYearExample()
    ensures var e := Despesa(1, 1, 2024, 3, "COMBUSTÍVEIS", "2024-03-01", 10.0, 10.0, "", "", "7");
      RenderAsWritten(false, Handlers.EncodeSlice([e]), Handlers.EncodeSlice<Despesa>([])).None?
  {
  }
}
