/** The deputies page, frontend/src/pages/Deputados.jsx: the list loaded
    from GET /api/deputados and the filter over name, party and state. */
module DeputadosView {
  import opened Wrappers
  import opened Models
  import opened Sorting
  import opened WebClient

  /** An entry is kept when its lower-cased nome, siglaPartido or siglaUf
      contains the lower-cased filter. */
  predicate Matches(d: Deputado, filtro: string) {
    var f := LowerStr(filtro);
    Contains(LowerStr(d.nome), f) || Contains(LowerStr(d.partido), f) || Contains(LowerStr(d.uf), f)
  }

  /** deputadosFiltrados: Array.prototype.filter with Matches. */
  function Filtrar(deps: seq<Deputado>, filtro: string): seq<Deputado> {
    if |deps| == 0 then []
    else (if Matches(deps[0], filtro) then [deps[0]] else []) + Filtrar(deps[1..], filtro)
  }

  lemma FiltrarUnfold(deps: seq<Deputado>, filtro: string)
    requires |deps| > 0
    ensures Filtrar(deps, filtro) ==
      if Matches(deps[0], filtro) then [deps[0]] + Filtrar(deps[1..], filtro)
      else Filtrar(deps[1..], filtro)
  {
    assert [] + Filtrar(deps[1..], filtro) == Filtrar(deps[1..], filtro);
  }

  /** The filter keeps entries in their order and drops none it matches. */
  lemma {:induction false} FiltrarSubsequence(deps: seq<Deputado>, filtro: string)
    ensures IsSubsequence(Filtrar(deps, filtro), deps)
  {
    if |deps| > 0 {
      FiltrarSubsequence(deps[1..], filtro);
      FiltrarUnfold(deps, filtro);
      SubsequenceCons(deps[0], Filtrar(deps[1..], filtro), deps[1..]);
      assert deps == [deps[0]] + deps[1..];
    }
  }

  /** An entry is listed exactly when it is in the list and matches. */
  lemma {:induction false} FiltrarMembers(deps: seq<Deputado>, filtro: string)
    ensures forall d :: d in Filtrar(deps, filtro) <==> d in deps && Matches(d, filtro)
  {
    if |deps| > 0 {
      FiltrarMembers(deps[1..], filtro);
      assert deps == [deps[0]] + deps[1..];
    }
  }

  /** An empty filter keeps every entry. */
  lemma {:induction false} FiltrarEmpty(deps: seq<Deputado>)
    ensures Filtrar(deps, "") == deps
  {
    if |deps| > 0 {
      EmptyContained(LowerStr(deps[0].nome));
      FiltrarEmpty(deps[1..]);
    }
  }

  /** Filters that agree once lower-cased, as filters differing only in
      the case of ASCII letters do, select the same entries. */
  lemma {:induction false} FiltrarCaseInsensitive(deps: seq<Deputado>, f1: string, f2: string)
    requires LowerStr(f1) == LowerStr(f2)
    ensures Filtrar(deps, f1) == Filtrar(deps, f2)
  {
    if |deps| > 0 {
      FiltrarCaseInsensitive(deps[1..], f1, f2);
    }
  }

  /** Typing more narrows the list: when f1 occurs in f2, whatever f2
      keeps, f1 keeps too, in the same order. */
  lemma {:induction false} FiltrarNarrows(deps: seq<Deputado>, f1: string, f2: string)
    requires Contains(f2, f1)
    ensures IsSubsequence(Filtrar(deps, f2), Filtrar(deps, f1))
  {
    if |deps| > 0 {
      var d := deps[0];
      FiltrarNarrows(deps[1..], f1, f2);
      var r1 := Filtrar(deps[1..], f1);
      var r2 := Filtrar(deps[1..], f2);
      FiltrarUnfold(deps, f1);
      FiltrarUnfold(deps, f2);
      if Matches(d, f2) {
        LowerContains(f2, f1);
        var l1, l2 := LowerStr(f1), LowerStr(f2);
        if Contains(LowerStr(d.nome), l2) {
          ContainsTransitive(LowerStr(d.nome), l2, l1);
        } else if Contains(LowerStr(d.partido), l2) {
          ContainsTransitive(LowerStr(d.partido), l2, l1);
        } else {
          ContainsTransitive(LowerStr(d.uf), l2, l1);
        }
        assert Matches(d, f1);
        SubsequenceCons(d, r2, r1);
      } else if Matches(d, f1) {
        SubsequenceCons(d, r2, r1);
      }
    }
  }

  /** The count shown under the filter is the number of entries kept: never
      more than the list, and all of it exactly when every entry matches. */
  lemma {:induction false} FiltrarCount(deps: seq<Deputado>, filtro: string)
    ensures |Filtrar(deps, filtro)| <= |deps|
    ensures |Filtrar(deps, filtro)| == |deps| <==> forall d :: d in deps ==> Matches(d, filtro)
  {
    if |deps| > 0 {
      FiltrarCount(deps[1..], filtro);
      assert deps == [deps[0]] + deps[1..];
    }
  }

  /** The page state; `deputados` starts as [] and `loading` as true. */
  class DeputadosPage {
    var deputados: seq<Deputado>
    var loading: bool
    var filtro: string

    constructor ()
      ensures deputados == [] && loading && filtro == ""
    {
      deputados := [];
      loading := true;
      filtro := "";
    }

    /** loadDeputados, with the null body of an empty table read as []
        (the page as written stores the null; see DeputadosAsWritten). A
        rejected request keeps the list and only raises an alert. */
    method LoadDeputados(response: Fetch<Option<seq<Deputado>>>)
      modifies this
      ensures !loading && filtro == old(filtro)
      ensures response.Resolved? ==> deputados == response.data.GetOr([])
      ensures response.Rejected? ==> deputados == old(deputados)
    {
      loading := true;
      if response.Resolved? {
        deputados := response.data.GetOr([]);
      }
      loading := false;
    }

    method SetFiltro(value: string)
      modifies this
      ensures filtro == value && deputados == old(deputados) && loading == old(loading)
    {
      filtro := value;
    }

    /** The entries shown and the count above them. */
    function Filtrados(): seq<Deputado>
      reads this
    {
      Filtrar(deputados, filtro)
    }
  }
}

/** The deputies page as written: it stores the response body as it comes,
    so the null the backend sends for an empty table reaches the filter. */
module DeputadosAsWritten {
  import opened Wrappers
  import opened Models
  import opened WebClient
  import opened DeputadosView
  import Handlers

  /** deputados.filter(...) on the stored value; None is the TypeError that
      null.filter raises while rendering. */
  function FiltradosAsWritten(stored: Option<seq<Deputado>>, filtro: string): (r: Option<seq<Deputado>>)
    ensures r.None? <==> stored.None?
    ensures r.Some? ==> r.value == Filtrar(stored.value, filtro)
  {
    match stored
    case None => None
    case Some(deps) => Some(Filtrar(deps, filtro))
  }

  /** Before the first sync the table is empty, the backend answers null,
      and rendering the page fails whatever the filter. The corrected page
      shows an empty list instead. */
  lemma EmptyTableBreaksPage(filtro: string)
    ensures Received(Handlers.Response.Ok(Handlers.EncodeSlice<Deputado>([]))) == Resolved(None)
    ensures FiltradosAsWritten(None, filtro).None?
    ensures Filtrar(Resolved(None).data.GetOr([]), filtro) == []
  {
  }
}
