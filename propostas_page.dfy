/** The proposals page, frontend/src/pages/Propostas.jsx: a search by deputy
    id that fetches the deputy's bills and the deputies list together, then
    shows the deputy's card with the number of bills, the list, or one of
    two messages. */
module PropostasView {
  import opened Wrappers
  import opened Models
  import opened WebClient
  import Handlers

  /** The combined fetch fails as a whole: either request rejected, or a
      null deputies list, whose .find throws inside the same try. */
  predicate SearchFails(projetos: Fetch<Option<seq<Projeto>>>, deps: Fetch<Option<seq<Deputado>>>) {
    projetos.Rejected? || deps.Rejected? || deps.data.None?
  }

  /** What the page keeps from a resolved bills response: the list, or []
      when the backend sent null. */
  function StoredProjetos(data: Option<seq<Projeto>>): (r: seq<Projeto>)
    ensures data.Some? ==> r == data.value
    ensures data.None? ==> r == []
  {
    data.GetOr([])
  }

  class PropostasPage {
    var idDeputado: string
    var deputado: Option<Deputado>
    var projetos: seq<Projeto>
    var loading: bool
    var searched: bool

    constructor ()
      ensures idDeputado == "" && deputado.None? && projetos == [] && !loading && !searched
    {
      idDeputado := "";
      deputado := None;
      projetos := [];
      loading := false;
      searched := false;
    }

    method SetIdDeputado(value: string)
      modifies this
      ensures idDeputado == value && deputado == old(deputado) && projetos == old(projetos)
      ensures loading == old(loading) && searched == old(searched)
    {
      idDeputado := value;
    }

    /** buscarPropostas. An empty input only raises an alert. */
    method BuscarPropostas(projetosResp: Fetch<Option<seq<Projeto>>>, deputadosResp: Fetch<Option<seq<Deputado>>>)
      modifies this
      ensures idDeputado == old(idDeputado)
      ensures idDeputado == "" ==>
        deputado == old(deputado) && projetos == old(projetos) &&
        loading == old(loading) && searched == old(searched)
      ensures idDeputado != "" ==> searched && !loading
      ensures idDeputado != "" && SearchFails(projetosResp, deputadosResp) ==>
        deputado.None? && projetos == []
      ensures idDeputado != "" && !SearchFails(projetosResp, deputadosResp) ==>
        && deputado == FindById(deputadosResp.data.value, JsParseInt(idDeputado))
        && projetos == StoredProjetos(projetosResp.data)
    {
      if idDeputado == "" {
        return;
      }
      loading := true;
      searched := true;
      if SearchFails(projetosResp, deputadosResp) {
        deputado := None;
        projetos := [];
      } else {
        deputado := FindById(deputadosResp.data.value, JsParseInt(idDeputado));
        projetos := StoredProjetos(projetosResp.data);
      }
      loading := false;
    }

    /** The deputy card, which carries "Total de Propostas". */
    predicate CardShown()
      reads this
    {
      !loading && deputado.Some?
    }

    /** The number shown as "Total de Propostas" and beside the list heading. */
    function TotalShown(): nat
      reads this
    {
      |projetos|
    }

    /** "Proposições Legislativas": the list, shown whenever there are bills. */
    predicate ListShown()
      reads this
    {
      !loading && |projetos| > 0
    }

    /** "Deputado não encontrado. Verifique o ID." */
    predicate NotFoundShown()
      reads this
    {
      !loading && searched && deputado.None?
    }

    /** "Este deputado não possui propostas cadastradas." */
    predicate NoProposalsShown()
      reads this
    {
      !loading && searched && deputado.Some? && |projetos| == 0
    }
  }

  /** The two messages never show together. Once a search has finished the
      page shows either the not-found message or the card, and with the card
      either the list or the no-proposals message. */
  lemma Messages(p: PropostasPage)
    ensures !(p.NotFoundShown() && p.NoProposalsShown())
    ensures !(p.ListShown() && p.NoProposalsShown())
    ensures p.searched && !p.loading ==>
      && (p.NotFoundShown() <==> !p.CardShown())
      && (p.CardShown() ==> (p.ListShown() <==> !p.NoProposalsShown()))
  {
  }

  /** The total shown after a successful search is the number of bills the
      backend listed, including a deputy without bills, whose list the
      backend encodes as null. */
  lemma TotalIsBackendCount(items: seq<Projeto>)
    ensures |StoredProjetos(Received(Handlers.Response<Option<seq<Projeto>>>.Ok(Handlers.EncodeSlice(items))).data)| == |items|
  {
  }
}
