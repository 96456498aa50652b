/** The HTTP handlers of backend/handlers/handlers.go. A handler's answer is
    a `Response`: the JSON body with status 200, an error status with the
    "error" text, or the crash of the server process. Go encodes an empty
    slice built by append as JSON null, which is `None` here. */
module Handlers {
  import opened Wrappers
  import opened Models
  import opened Database
  import opened Camara
  import opened CamaraSync
  import opened Strconv

  datatype Response<T> = Ok(body: T) | ErrorResponse(status: nat, error: string) | Crashed

  /** The JSON of a slice that was built by append: null when nothing was
      appended, the array otherwise. */
  function EncodeSlice<T>(s: seq<T>): (r: Option<seq<T>>)
    ensures r.GetOr([]) == s
    ensures r.None? <==> |s| == 0
  {
    if |s| == 0 then None else Some(s)
  }

  /** ListarDeputados (handlers.go:13-22); `fault` and `stepFault` are the
      failures of BuscarDeputados, whose whole result `full` names. A step
      failure still answers 200, with the rows read before it. */
  method ListarDeputados(db: Store, fault: bool, stepFault: Option<nat>)
    returns (resp: Response<Option<seq<Deputado>>>, ghost full: seq<Deputado>)
    ensures fault ==> resp == ErrorResponse(500, "Erro ao buscar deputados")
    ensures IsListing(db.deputados, full)
    ensures !fault ==> resp.Ok? && resp.body.GetOr([]) == Stepped(full, stepFault)
    ensures !fault && stepFault.None? ==> IsListing(db.deputados, resp.body.GetOr([]))
    ensures !fault ==> (resp.body.None? <==> |db.deputados| == 0 || stepFault == Some(0))
  {
    var deputados;
    deputados, full := db.BuscarDeputados(fault, stepFault);
    if deputados.Failure? {
      return ErrorResponse(500, "Erro ao buscar deputados"), full;
    }
    assert |full| == |multiset(full)| == |multiset(db.deputados)|;
    SteppedSpec(full, stepFault, NomeAsc);
    return Ok(EncodeSlice(deputados.value)), full;
  }

  /** The year BuscarGastosDeputado queries: ?ano, or 2024 when it is absent or empty. */
  function AnoParam(anoQuery: string): string {
    QueryOr(anoQuery, Itoa(2024))
  }

  lemma DefaultAno()
    ensures Atoi(AnoParam("")) == Parsed(2024, NoError)
  {
    AtoiItoa(2024);
  }

  /** BuscarGastosDeputado (handlers.go:25-51): GET /deputados/:id/gastos?ano=
      `fault` and `stepFault` are the failures of BuscarGastos, whose whole
      result `full` names. */
  method BuscarGastosDeputado(db: Store, idParam: string, anoQuery: string, fault: bool,
                              stepFault: Option<nat>)
    returns (resp: Response<Option<seq<Despesa>>>, ghost full: seq<Despesa>)
    ensures Atoi(idParam).err != NoError ==> resp == ErrorResponse(400, "ID inválido")
    ensures Atoi(idParam).err == NoError && Atoi(AnoParam(anoQuery)).err != NoError ==>
      resp == ErrorResponse(400, "Ano inválido")
    ensures Atoi(idParam).err == NoError && Atoi(AnoParam(anoQuery)).err == NoError ==>
      (fault <==> resp == ErrorResponse(500, "Erro ao buscar gastos"))
    ensures Atoi(idParam).err == NoError && Atoi(AnoParam(anoQuery)).err == NoError && !fault ==>
      resp.Ok?
    ensures resp.Ok? ==>
      && Atoi(idParam).err == NoError && Atoi(AnoParam(anoQuery)).err == NoError && !fault
      && IsGastos(db.despesas, Atoi(idParam).value, Atoi(AnoParam(anoQuery)).value, full)
      && resp.body.GetOr([]) == Stepped(full, stepFault)
    ensures resp.Ok? && stepFault.None? ==>
      IsGastos(db.despesas, Atoi(idParam).value, Atoi(AnoParam(anoQuery)).value, resp.body.GetOr([]))
    ensures resp.Ok? || resp.ErrorResponse?
  {
    full := [];
    var anoParam := AnoParam(anoQuery);
    var id := Atoi(idParam);
    if id.err != NoError {
      return ErrorResponse(400, "ID inválido"), full;
    }
    var ano := Atoi(anoParam);
    if ano.err != NoError {
      return ErrorResponse(400, "Ano inválido"), full;
    }
    var gastos;
    gastos, full := db.BuscarGastos(id.value, ano.value, fault, stepFault);
    if gastos.Failure? {
      return ErrorResponse(500, "Erro ao buscar gastos"), full;
    }
    SteppedSpec(full, stepFault, DataDesc);
    return Ok(EncodeSlice(gastos.value)), full;
  }

  /** The year and limit BuscarRanking queries. Parse errors are discarded,
      so a malformed parameter counts as Atoi's value for it. */
  function RankingAno(anoQuery: string): int { Atoi(QueryOr(anoQuery, "2024")).value }
  function RankingLimite(limiteQuery: string): int { Atoi(QueryOr(limiteQuery, "20")).value }

  /** Without parameters the ranking is the top 20 of 2024. */
  lemma RankingDefaults()
    ensures RankingAno("") == 2024 && RankingLimite("") == 20
  {
    AtoiItoa(2024);
    AtoiItoa(20);
    assert Itoa(2024) == "2024";
    assert Itoa(20) == "20";
  }

  /** BuscarRanking (handlers.go:54-69): GET /ranking?ano=&limite=
      `fault` and `stepFault` are the failures of the store's BuscarRanking,
      whose whole result `full` names. */
  method BuscarRanking(db: Store, anoQuery: string, limiteQuery: string, fault: bool,
                       stepFault: Option<nat>)
    returns (resp: Response<Option<seq<RankingDeputado>>>, ghost full: seq<RankingDeputado>)
    ensures fault <==> resp == ErrorResponse(500, "Erro ao buscar ranking")
    ensures IsRanking(db.deputados, db.despesas, RankingAno(anoQuery), RankingLimite(limiteQuery), full)
    ensures !fault ==> resp.Ok? && resp.body.GetOr([]) == Stepped(full, stepFault)
    ensures !fault && stepFault.None? ==>
      IsRanking(db.deputados, db.despesas, RankingAno(anoQuery), RankingLimite(limiteQuery),
                resp.body.GetOr([]))
    ensures !fault && Atoi(QueryOr(limiteQuery, "20")).err == ErrSyntax ==> resp == Ok(None)
  {
    var ano := RankingAno(anoQuery);
    var limite := RankingLimite(limiteQuery);
    var ranking;
    ranking, full := db.BuscarRanking(ano, limite, fault, stepFault);
    if ranking.Failure? {
      return ErrorResponse(500, "Erro ao buscar ranking"), full;
    }
    SteppedSpec(full, stepFault, TotalDesc);
    return Ok(EncodeSlice(ranking.value)), full;
  }

  /** The text of SincronizarDeputados' error, which the handler appends. */
  function SyncErrorText(pagina: nat, e: FetchError): string {
    match e
    case HttpError(msg) => "erro ao buscar deputados página " + Itoa(pagina) + ": " + msg
    case DecodeError(msg) => "erro ao decodificar página " + Itoa(pagina) + ": " + msg
  }

  /** The error text of a failed expense sync of a year. */
  function GastosError(ano: int): string {
    "Erro ao sincronizar gastos de " + Itoa(ano)
  }

  lemma GastosErrorText()
    ensures GastosError(2024) == "Erro ao sincronizar gastos de 2024"
    ensures GastosError(2025) == "Erro ao sincronizar gastos de 2025"
  {
    assert Itoa(2024) == "2024" && Itoa(2025) == "2025";
  }

  const SyncMessage: string := "Sincronização concluída com sucesso!"

  /** The years SincronizarDados reaches: those before the first year
      whose listing of the deputies fails. */
  function Reached(anos: seq<int>, listFault: int -> bool): (r: seq<int>)
    ensures r <= anos
    ensures forall k :: 0 <= k < |r| ==> !listFault(anos[k])
    ensures |r| < |anos| ==> listFault(anos[|r|])
  {
    if |anos| == 0 || listFault(anos[0]) then [] else [anos[0]] + Reached(anos[1..], listFault)
  }

  /** The expenses table after the loop over the years: year by year the
      expense sync of that year, over the deputies in the order `orders`
      names for it, until the first year whose listing fails. */
  function SyncAnos(t: Expenses, anos: seq<int>, orders: seq<seq<Deputado>>,
                    gastos: int -> int -> Feed, listFault: int -> bool,
                    saveFault: Despesa -> bool): Expenses
    requires |orders| == |anos|
    decreases |anos|
  {
    if |anos| == 0 || listFault(anos[0]) then t
    else SyncAnos(SyncGastos(t, orders[0], anos[0], gastos(anos[0]), saveFault),
                  anos[1..], orders[1..], gastos, listFault, saveFault)
  }

  /** One more year after years that all ran. */
  lemma {:induction false} SyncAnosSnoc(t: Expenses, anos: seq<int>, orders: seq<seq<Deputado>>,
                                        ano: int, order: seq<Deputado>, gastos: int -> int -> Feed,
                                        listFault: int -> bool, saveFault: Despesa -> bool)
    requires |orders| == |anos|
    requires forall k :: 0 <= k < |anos| ==> !listFault(anos[k])
    ensures SyncAnos(t, anos + [ano], orders + [order], gastos, listFault, saveFault) ==
      if listFault(ano) then SyncAnos(t, anos, orders, gastos, listFault, saveFault)
      else SyncGastos(SyncAnos(t, anos, orders, gastos, listFault, saveFault), order, ano,
                      gastos(ano), saveFault)
    decreases |anos|
  {
    if |anos| > 0 {
      assert (anos + [ano])[1..] == anos[1..] + [ano];
      assert (orders + [order])[1..] == orders[1..] + [order];
      SyncAnosSnoc(SyncGastos(t, orders[0], anos[0], gastos(anos[0]), saveFault),
                   anos[1..], orders[1..], ano, order, gastos, listFault, saveFault);
    }
  }

  /** Nothing after a failing year runs, whatever its orders. */
  lemma {:induction false} SyncAnosStops(t: Expenses, anos: seq<int>, orders: seq<seq<Deputado>>,
                                         rest: seq<int>, restOrders: seq<seq<Deputado>>,
                                         gastos: int -> int -> Feed, listFault: int -> bool,
                                         saveFault: Despesa -> bool)
    requires |orders| == |anos| && |restOrders| == |rest|
    requires forall k :: 0 <= k < |anos| ==> !listFault(anos[k])
    requires |rest| > 0 && listFault(rest[0])
    ensures SyncAnos(t, anos + rest, orders + restOrders, gastos, listFault, saveFault) ==
      SyncAnos(t, anos, orders, gastos, listFault, saveFault)
    decreases |anos|
  {
    if |anos| > 0 {
      assert (anos + rest)[1..] == anos[1..] + rest;
      assert (orders + restOrders)[1..] == orders[1..] + restOrders;
      SyncAnosStops(SyncGastos(t, orders[0], anos[0], gastos(anos[0]), saveFault),
                    anos[1..], orders[1..], rest, restOrders, gastos, listFault, saveFault);
    } else {
      assert anos + rest == rest && orders + restOrders == restOrders;
    }
  }

  /** The loop over the years only appends, and keeps the key and the numbering. */
  lemma {:induction false} SyncAnosGrows(t: Expenses, anos: seq<int>, orders: seq<seq<Deputado>>,
                                         gastos: int -> int -> Feed, listFault: int -> bool,
                                         saveFault: Despesa -> bool)
    requires Keyed(t) && |orders| == |anos|
    ensures Keyed(SyncAnos(t, anos, orders, gastos, listFault, saveFault))
    ensures t.rows <= SyncAnos(t, anos, orders, gastos, listFault, saveFault).rows
    decreases |anos|
  {
    if |anos| > 0 && !listFault(anos[0]) {
      var first := SyncGastos(t, orders[0], anos[0], gastos(anos[0]), saveFault);
      SyncGastosSpec(t, orders[0], anos[0], gastos(anos[0]), saveFault);
      SyncAnosGrows(first, anos[1..], orders[1..], gastos, listFault, saveFault);
    }
  }

  /** What the loop over the years promises of the expenses table: existing
      rows are kept as they were and the unique key and numbering hold; every
      appended row is of a year that was reached; the rows of the first year
      come before all others when that year is not repeated; and for every
      reached year, every expense of a listed deputy that was fetched and
      saved is in the table. */
  lemma {:induction false} SyncAnosSpec(t: Expenses, anos: seq<int>, orders: seq<seq<Deputado>>,
                                        gastos: int -> int -> Feed, listFault: int -> bool,
                                        saveFault: Despesa -> bool)
    requires Keyed(t) && |orders| == |anos|
    ensures Keyed(SyncAnos(t, anos, orders, gastos, listFault, saveFault))
    ensures t.rows <= SyncAnos(t, anos, orders, gastos, listFault, saveFault).rows
    ensures forall i :: |t.rows| <= i < |SyncAnos(t, anos, orders, gastos, listFault, saveFault).rows| ==>
      SyncAnos(t, anos, orders, gastos, listFault, saveFault).rows[i].ano in Reached(anos, listFault)
    ensures (|anos| > 0 && forall k :: 1 <= k < |anos| ==> anos[k] != anos[0]) ==>
      forall i, j ::
        (|t.rows| <= i < j < |SyncAnos(t, anos, orders, gastos, listFault, saveFault).rows| &&
         SyncAnos(t, anos, orders, gastos, listFault, saveFault).rows[j].ano == anos[0]) ==>
        SyncAnos(t, anos, orders, gastos, listFault, saveFault).rows[i].ano == anos[0]
    ensures forall k, dep, g ::
      (0 <= k < |Reached(anos, listFault)| && dep in orders[k] &&
       FetchDespesas(gastos(anos[k])(dep.id), dep.id, anos[k]).Success? &&
       g in FetchDespesas(gastos(anos[k])(dep.id), dep.id, anos[k]).value && !saveFault(g)) ==>
        HasKey(SyncAnos(t, anos, orders, gastos, listFault, saveFault).rows, Key(g))
    decreases |anos|
  {
    if |anos| > 0 && !listFault(anos[0]) {
      var ano := anos[0];
      var first := SyncGastos(t, orders[0], ano, gastos(ano), saveFault);
      SyncGastosSpec(t, orders[0], ano, gastos(ano), saveFault);
      SyncAnosSpec(first, anos[1..], orders[1..], gastos, listFault, saveFault);
      var r := SyncAnos(t, anos, orders, gastos, listFault, saveFault).rows;
      var reached := Reached(anos, listFault);
      assert reached == [ano] + Reached(anos[1..], listFault);
      forall i | |t.rows| <= i < |r| ensures r[i].ano in reached {
        if i < |first.rows| {
          assert r[i] == first.rows[i];
        }
      }
      if forall k :: 1 <= k < |anos| ==> anos[k] != ano {
        var later := Reached(anos[1..], listFault);
        forall m | 0 <= m < |later| ensures later[m] != ano {
          assert later[m] == anos[1..][m] == anos[m + 1];
        }
        forall i, j | |t.rows| <= i < j < |r| && r[j].ano == ano ensures r[i].ano == ano {
          assert j < |first.rows|;
          assert r[i] == first.rows[i];
        }
      }
      forall k, dep, g | 0 <= k < |reached| && dep in orders[k] &&
        FetchDespesas(gastos(anos[k])(dep.id), dep.id, anos[k]).Success? &&
        g in FetchDespesas(gastos(anos[k])(dep.id), dep.id, anos[k]).value && !saveFault(g)
        ensures HasKey(r, Key(g))
      {
        if k == 0 {
          PrefixHasKey(first.rows, r, Key(g));
        } else {
          assert anos[1..][k - 1] == anos[k] && orders[1..][k - 1] == orders[k];
        }
      }
    }
  }

  /** The loop over the years of SincronizarDados: the first year whose
      expense sync failed, if any. For each year reached, `listings` names
      the whole listing of the deputies and `orders` the deputies that year
      visited: the listing, cut where `stepFault` of that year makes a step
      of it fail; the orders of the years that did not run are empty. */
  method SincronizarAnos(db: Store, anos: seq<int>, gastos: int -> int -> Feed,
                         listFault: int -> bool, stepFault: int -> Option<nat>,
                         saveFault: Despesa -> bool)
    returns (failed: Option<int>, ghost listings: seq<seq<Deputado>>, ghost orders: seq<seq<Deputado>>)
    requires db.Valid()
    modifies db
    ensures db.Valid() && db.deputados == old(db.deputados)
    ensures old(db.despesas) <= db.despesas
    ensures failed.None? <==> forall j :: 0 <= j < |anos| ==> !listFault(anos[j])
    ensures failed.Some? ==>
      |Reached(anos, listFault)| < |anos| && failed.value == anos[|Reached(anos, listFault)|]
    ensures |orders| == |anos|
    ensures |listings| == |Reached(anos, listFault)|
    ensures Listings(old(db.deputados), anos, stepFault, listings, orders)
    ensures Expenses(db.despesas, db.sequence) ==
      SyncAnos(Expenses(old(db.despesas), old(db.sequence)), anos, orders, gastos, listFault, saveFault)
  {
    ghost var t0 := Expenses(db.despesas, db.sequence);
    ghost var deps := db.deputados;
    listings := [];
    orders := [];
    var k := 0;
    while k < |anos|
      invariant 0 <= k <= |anos| && db.Valid() && db.deputados == old(db.deputados)
      invariant forall j :: 0 <= j < k ==> !listFault(anos[j])
      invariant |orders| == k && |listings| == k
      invariant Listings(deps, anos, stepFault, listings, orders)
      invariant Expenses(db.despesas, db.sequence) ==
        SyncAnos(t0, anos[..k], orders, gastos, listFault, saveFault)
    {
      var r;
      r, listings, orders := SincronizarAno(db, t0, anos, k, listings, orders, gastos, listFault,
                                            stepFault, saveFault);
      if r.Failure? {
        SyncAnosGrows(t0, anos, orders, gastos, listFault, saveFault);
        return Some(anos[k]), listings, orders;
      }
      k := k + 1;
    }
    SyncAnosAll(t0, anos, orders, gastos, listFault, saveFault);
    ListingsPadded(deps, anos, stepFault, listings, orders, []);
    assert orders + [] == orders;
    SyncAnosGrows(t0, anos, orders, gastos, listFault, saveFault);
    return None, listings, orders;
  }

  /** Year `k` of SincronizarAnos, after the years before it all ran: its
      expense sync, with the listing and order it adds; when its listing
      fails, the orders of the years from `k` on are empty. */
  method SincronizarAno(db: Store, ghost t0: Expenses, anos: seq<int>, k: nat,
                        ghost listings: seq<seq<Deputado>>, ghost orders: seq<seq<Deputado>>,
                        gastos: int -> int -> Feed, listFault: int -> bool,
                        stepFault: int -> Option<nat>, saveFault: Despesa -> bool)
    returns (r: Result<(), DbError>, ghost nextListings: seq<seq<Deputado>>,
             ghost nextOrders: seq<seq<Deputado>>)
    requires db.Valid() && k < |anos| && |orders| == k && |listings| == k
    requires forall j :: 0 <= j < k ==> !listFault(anos[j])
    requires Listings(db.deputados, anos, stepFault, listings, orders)
    requires Expenses(db.despesas, db.sequence) == SyncAnos(t0, anos[..k], orders, gastos, listFault, saveFault)
    modifies db
    ensures db.Valid() && db.deputados == old(db.deputados)
    ensures r.Failure? <==> listFault(anos[k])
    ensures Listings(old(db.deputados), anos, stepFault, nextListings, nextOrders)
    ensures r.Failure? ==>
      && nextListings == listings && |nextOrders| == |anos| && |Reached(anos, listFault)| == k
      && Expenses(db.despesas, db.sequence) == SyncAnos(t0, anos, nextOrders, gastos, listFault, saveFault)
    ensures r.Success? ==>
      && |nextListings| == k + 1 && |nextOrders| == k + 1
      && Expenses(db.despesas, db.sequence) ==
           SyncAnos(t0, anos[..k + 1], nextOrders, gastos, listFault, saveFault)
  {
    ghost var listing, order;
    r, listing, order := SincronizarGastos(db, anos[k], gastos(anos[k]), listFault(anos[k]),
                                           stepFault(anos[k]), saveFault);
    if r.Failure? {
      ghost var pad := seq(|anos| - k, _ => []);
      SyncAnosFailed(t0, anos, k, orders, pad, gastos, listFault, saveFault);
      ListingsPadded(old(db.deputados), anos, stepFault, listings, orders, pad);
      return r, listings, orders + pad;
    }
    SyncAnosRan(t0, anos, k, orders, order, gastos, listFault, saveFault);
    ListingsSnoc(old(db.deputados), anos, stepFault, listings, orders, listing, order);
    return r, listings + [listing], orders + [order];
  }

  /** Year by year, each listing is a listing of the deputies and each
      order is what was read of it. */
  ghost predicate Listings(deps: seq<Deputado>, anos: seq<int>, stepFault: int -> Option<nat>,
                           listings: seq<seq<Deputado>>, orders: seq<seq<Deputado>>) {
    && |listings| <= |orders| && |listings| <= |anos|
    && forall j :: 0 <= j < |listings| ==> ReadOf(deps, listings[j], stepFault(anos[j]), orders[j])
  }

  lemma ListingsSnoc(deps: seq<Deputado>, anos: seq<int>, stepFault: int -> Option<nat>,
                     listings: seq<seq<Deputado>>, orders: seq<seq<Deputado>>,
                     listing: seq<Deputado>, order: seq<Deputado>)
    requires Listings(deps, anos, stepFault, listings, orders)
    requires |listings| == |orders| < |anos|
    requires ReadOf(deps, listing, stepFault(anos[|orders|]), order)
    ensures Listings(deps, anos, stepFault, listings + [listing], orders + [order])
  {
    var ls, os := listings + [listing], orders + [order];
    forall j | 0 <= j < |ls| ensures ReadOf(deps, ls[j], stepFault(anos[j]), os[j]) {
      if j < |listings| {
        assert ls[j] == listings[j] && os[j] == orders[j];
      }
    }
  }

  /** The listings of the years reached keep their orders in front of any padding. */
  lemma ListingsPadded(deps: seq<Deputado>, anos: seq<int>, stepFault: int -> Option<nat>,
                       listings: seq<seq<Deputado>>, orders: seq<seq<Deputado>>,
                       pad: seq<seq<Deputado>>)
    requires Listings(deps, anos, stepFault, listings, orders)
    ensures Listings(deps, anos, stepFault, listings, orders + pad)
  {
    forall k | 0 <= k < |listings|
      ensures ReadOf(deps, listings[k], stepFault(anos[k]), (orders + pad)[k])
    {
      assert (orders + pad)[k] == orders[k];
    }
  }

  /** Year k ran after years that all ran. */
  lemma SyncAnosRan(t: Expenses, anos: seq<int>, k: nat, orders: seq<seq<Deputado>>,
                    order: seq<Deputado>, gastos: int -> int -> Feed,
                    listFault: int -> bool, saveFault: Despesa -> bool)
    requires k < |anos| && !listFault(anos[k]) && |orders| == k
    requires forall j :: 0 <= j < k ==> !listFault(anos[j])
    ensures SyncAnos(t, anos[..k + 1], orders + [order], gastos, listFault, saveFault) ==
      SyncGastos(SyncAnos(t, anos[..k], orders, gastos, listFault, saveFault), order, anos[k],
                 gastos(anos[k]), saveFault)
  {
    SyncAnosSnoc(t, anos[..k], orders, anos[k], order, gastos, listFault, saveFault);
    assert anos[..k + 1] == anos[..k] + [anos[k]];
  }

  /** Every year ran: all of them are reached. */
  lemma SyncAnosAll(t: Expenses, anos: seq<int>, orders: seq<seq<Deputado>>,
                    gastos: int -> int -> Feed, listFault: int -> bool, saveFault: Despesa -> bool)
    requires |orders| == |anos|
    requires forall j :: 0 <= j < |anos| ==> !listFault(anos[j])
    ensures SyncAnos(t, anos[..|anos|], orders, gastos, listFault, saveFault) ==
      SyncAnos(t, anos, orders, gastos, listFault, saveFault)
    ensures Reached(anos, listFault) == anos
  {
    assert anos[..|anos|] == anos;
    ReachedAll(anos, listFault);
  }

  /** When year k is the first that fails, the years after it do not run
      and exactly the years before it are reached. */
  lemma SyncAnosFailed(t: Expenses, anos: seq<int>, k: nat, orders: seq<seq<Deputado>>,
                       pad: seq<seq<Deputado>>, gastos: int -> int -> Feed,
                       listFault: int -> bool, saveFault: Despesa -> bool)
    requires k < |anos| && listFault(anos[k]) && |orders| == k && |pad| == |anos| - k
    requires forall j :: 0 <= j < k ==> !listFault(anos[j])
    ensures SyncAnos(t, anos, orders + pad, gastos, listFault, saveFault) ==
      SyncAnos(t, anos[..k], orders, gastos, listFault, saveFault)
    ensures |Reached(anos, listFault)| == k
  {
    SyncAnosStops(t, anos[..k], orders, anos[k..], pad, gastos, listFault, saveFault);
    assert anos[..k] + anos[k..] == anos;
    ReachedPrefix(anos, k, listFault);
  }

  /** The years reached are the years before the first failing one. */
  lemma {:induction false} ReachedPrefix(anos: seq<int>, k: nat, listFault: int -> bool)
    requires k < |anos| && listFault(anos[k])
    requires forall j :: 0 <= j < k ==> !listFault(anos[j])
    ensures |Reached(anos, listFault)| == k
    decreases k
  {
    if k > 0 {
      ReachedPrefix(anos[1..], k - 1, listFault);
    }
  }

  /** When no year fails, every year is reached. */
  lemma {:induction false} ReachedAll(anos: seq<int>, listFault: int -> bool)
    requires forall j :: 0 <= j < |anos| ==> !listFault(anos[j])
    ensures Reached(anos, listFault) == anos
    decreases |anos|
  {
    if |anos| > 0 {
      ReachedAll(anos[1..], listFault);
    }
  }

  /** The two years of SincronizarDados: a failing 2024 stores no expense,
      a failing 2025 stores only 2024 expenses, and the 2024 rows come
      before the 2025 rows. */
  lemma SyncDadosYears(t: Expenses, orders: seq<seq<Deputado>>, gastos: int -> int -> Feed,
                       listFault: int -> bool, saveFault: Despesa -> bool)
    requires Keyed(t) && |orders| == 2
    ensures var r := SyncAnos(t, [2024, 2025], orders, gastos, listFault, saveFault).rows;
      && t.rows <= r
      && (listFault(2024) ==> r == t.rows)
      && (forall i :: |t.rows| <= i < |r| ==> r[i].ano == 2024 || (r[i].ano == 2025 && !listFault(2024)))
      && (listFault(2025) ==> forall i :: |t.rows| <= i < |r| ==> r[i].ano == 2024)
      && (forall i, j :: |t.rows| <= i < j < |r| && r[j].ano == 2024 ==> r[i].ano == 2024)
  {
    var anos := [2024, 2025];
    SyncAnosSpec(t, anos, orders, gastos, listFault, saveFault);
    assert anos[1..] == [2025];
    var reached := Reached(anos, listFault);
    assert reached == if listFault(2024) then [] else if listFault(2025) then [2024] else [2024, 2025];
  }

  /** SincronizarDados (handlers.go:72-93): the deputies, then the expenses
      of 2024 and 2025. `gastos(ano)` answers the expense requests of a year,
      `listFault(ano)` and `stepFault(ano)` are the store failures of that
      year's BuscarDeputados. Once the deputies are synced, `listings`
      names each reached year's whole listing of them and `orders` the
      deputies that year visited. */
  method SincronizarDados(db: Store, deputadosFeed: Feed, gastos: int -> int -> Feed,
                          listFault: int -> bool, stepFault: int -> Option<nat>,
                          saveDeputadoFault: Deputado -> bool, saveDespesaFault: Despesa -> bool)
    returns (resp: Response<string>, ghost listings: seq<seq<Deputado>>,
             ghost orders: seq<seq<Deputado>>)
    requires db.Valid()
    modifies db
    ensures db.Valid()
    ensures db.deputados == SyncFrom(old(db.deputados), deputadosFeed, 1, saveDeputadoFault).0
    ensures old(db.despesas) <= db.despesas
    ensures var outcome := SyncFrom(old(db.deputados), deputadosFeed, 1, saveDeputadoFault).1;
      && (outcome.FetchFailed? ==>
            resp == ErrorResponse(500, "Erro ao sincronizar deputados: " +
                                       SyncErrorText(outcome.pagina, outcome.error)))
      && (outcome.Panicked? ==> resp == Crashed)
      && (outcome != Synced ==> db.despesas == old(db.despesas) && db.sequence == old(db.sequence))
      && (outcome == Synced && listFault(2024) ==>
            resp == ErrorResponse(500, GastosError(2024)))
      && (outcome == Synced && !listFault(2024) && listFault(2025) ==>
            resp == ErrorResponse(500, GastosError(2025)))
      && (resp == Ok(SyncMessage) <==> outcome == Synced && !listFault(2024) && !listFault(2025))
    ensures SyncFrom(old(db.deputados), deputadosFeed, 1, saveDeputadoFault).1 == Synced ==>
      && |orders| == 2
      && Expenses(db.despesas, db.sequence) ==
           SyncAnos(Expenses(old(db.despesas), old(db.sequence)), [2024, 2025], orders,
                    gastos, listFault, saveDespesaFault)
      && |listings| == (if listFault(2024) then 0 else if listFault(2025) then 1 else 2)
      && (!listFault(2024) ==>
            IsListing(db.deputados, listings[0]) && orders[0] == Stepped(listings[0], stepFault(2024)))
      && (!listFault(2024) && !listFault(2025) ==>
            IsListing(db.deputados, listings[1]) && orders[1] == Stepped(listings[1], stepFault(2025)))
      && (listFault(2024) ==> db.despesas == old(db.despesas))
      && (forall i :: |old(db.despesas)| <= i < |db.despesas| ==>
            db.despesas[i].ano == 2024 || (db.despesas[i].ano == 2025 && !listFault(2024)))
      && (listFault(2025) ==> forall i :: |old(db.despesas)| <= i < |db.despesas| ==>
            db.despesas[i].ano == 2024)
      && (forall i, j :: |old(db.despesas)| <= i < j < |db.despesas| && db.despesas[j].ano == 2024 ==>
            db.despesas[i].ano == 2024)
  {
    listings, orders := [], [];
    var outcome := SincronizarDeputados(db, deputadosFeed, saveDeputadoFault);
    if outcome.FetchFailed? {
      return ErrorResponse(500, "Erro ao sincronizar deputados: " +
                                SyncErrorText(outcome.pagina, outcome.error)), listings, orders;
    }
    if outcome.Panicked? {
      return Crashed, listings, orders;
    }
    ghost var t := Expenses(db.despesas, db.sequence);
    var anos := [2024, 2025];
    var failed;
    failed, listings, orders := SincronizarAnos(db, anos, gastos, listFault, stepFault, saveDespesaFault);
    assert anos[0] == 2024 && anos[1] == 2025;
    ghost var reached := Reached(anos, listFault);
    assert anos[1..] == [2025];
    assert reached == if listFault(2024) then [] else if listFault(2025) then [2024] else [2024, 2025];
    SyncDadosYears(t, orders, gastos, listFault, saveDespesaFault);
    if failed.Some? {
      return ErrorResponse(500, GastosError(failed.value)), listings, orders;
    }
    return Ok(SyncMessage), listings, orders;
  }

  datatype Stats = Stats(totalDeputados: int, totalGastos2024: int, totalGastos2025: int,
                         ultimaAtualizacao: string)

  /** Estatisticas (handlers.go:96-107): store errors are discarded and
      count as 0. */
  method Estatisticas(db: Store, faultDeputados: bool, fault2024: bool, fault2025: bool)
    returns (resp: Response<Stats>)
    ensures resp.Ok? && resp.body.ultimaAtualizacao == "Agora"
    ensures resp.body.totalDeputados == if faultDeputados then 0 else |db.deputados|
    ensures resp.body.totalGastos2024 == if fault2024 then 0 else CountAno(db.despesas, 2024)
    ensures resp.body.totalGastos2025 == if fault2025 then 0 else CountAno(db.despesas, 2025)
    ensures resp.body.totalGastos2024 + resp.body.totalGastos2025 <= |db.despesas|
  {
    var deputados := db.ContarDeputados(faultDeputados);
    var g2024 := db.ContarDespesas(2024, fault2024);
    var g2025 := db.ContarDespesas(2025, fault2025);
    CountAnoDisjoint(db.despesas, 2024, 2025);
    CountAnoSpec(db.despesas, 2024);
    CountAnoSpec(db.despesas, 2025);
    var totalDeputados := if deputados.Success? then deputados.value else 0;
    var total2024 := if g2024.Success? then g2024.value else 0;
    var total2025 := if g2025.Success? then g2025.value else 0;
    return Ok(Stats(totalDeputados, total2024, total2025, "Agora"));
  }

  /** BuscarProjetosDeputado (handlers.go:110-132): GET /deputados/:id/projetos;
      `projetos(id)` answers the bill requests for the deputy id. */
  method BuscarProjetosDeputado(idParam: string, projetos: int -> Feed)
    returns (resp: Response<Option<seq<Projeto>>>)
    ensures Atoi(idParam).err != NoError ==> resp == ErrorResponse(400, "ID inválido")
    ensures Atoi(idParam).err == NoError ==>
      (FetchProjetos(projetos(Atoi(idParam).value)).Failure? <==>
         resp == ErrorResponse(500, "Erro ao buscar projetos"))
    ensures resp.Ok? <==> Atoi(idParam).err == NoError && FetchProjetos(projetos(Atoi(idParam).value)).Success?
    ensures resp.Ok? ==> resp.body.GetOr([]) == FetchProjetos(projetos(Atoi(idParam).value)).value
  {
    var id := Atoi(idParam);
    if id.err != NoError {
      return ErrorResponse(400, "ID inválido");
    }
    var r := Camara.BuscarProjetosPorDeputado(projetos(id.value));
    if r.Failure? {
      return ErrorResponse(500, "Erro ao buscar projetos");
    }
    return Ok(EncodeSlice(r.value));
  }
}
