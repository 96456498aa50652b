/** The synchronisation service of backend/services/camara.go: paging
    through the Câmara dos Deputados open-data API, converting its JSON
    records and saving them in the store. Each HTTP request and its decoding
    is one entry of a `Feed`, given as an argument. */
module Camara {
  import opened Wrappers
  import opened Models
  import opened Database

  /** A decoded JSON value, as encoding/json decodes into interface{}. */
  datatype Json =
    | JNull
    | JBool(b: bool)
    | JNumber(n: real)
    | JString(s: string)
    | JArray(elems: seq<Json>)
    | JObject(fields: map<string, Json>)

  /** One element of the API's "dados" array. A null element behaves as an
      empty object: every lookup misses. */
  type JsonObject = map<string, Json>

  /** The API returns up to this many records a page (itens=100). */
  const PageSize: nat := 100

  /** The field is present and holds a string (not null, not another type). */
  predicate HasString(m: JsonObject, key: string) {
    key in m && m[key].JString?
  }

  /** The field is present and holds a number (not null, not another type). */
  predicate HasNumber(m: JsonObject, key: string) {
    key in m && m[key].JNumber?
  }

  /** getStr: the value when it is a string; a missing field, a null and a
      value of any other type all read as "". */
  function GetStr(m: JsonObject, key: string): (r: string)
    ensures HasString(m, key) ==> r == m[key].s
    ensures !HasString(m, key) ==> r == ""
    ensures key !in m || m[key].JNull? ==> r == ""
  {
    if key in m && m[key].JString? then m[key].s else ""
  }

  /** getFloat: the value when it is a number; a missing field, a null and a
      value of any other type all read as 0. */
  function GetFloat(m: JsonObject, key: string): (r: real)
    ensures HasNumber(m, key) ==> r == m[key].n
    ensures !HasNumber(m, key) ==> r == 0.0
    ensures key !in m || m[key].JNull? ==> r == 0.0
  {
    if key in m && m[key].JNumber? then m[key].n else 0.0
  }

  /** Go's int(f): truncation toward zero. Out-of-range conversions are
      implementation-defined in Go and not modelled. */
  function Trunc(x: real): (r: int)
    ensures 0.0 <= x ==> 0 <= r && r as real <= x < r as real + 1.0
    ensures x < 0.0 ==> r <= 0 && r as real - 1.0 < x <= r as real
  {
    if x >= 0.0 then x.Floor else -((-x).Floor)
  }

  /** Converting a deputy record; None is the panic of d["id"].(float64)
      when "id" is missing or not a number. */
  function ToDeputado(m: JsonObject): Option<Deputado> {
    if "id" in m && m["id"].JNumber? then
      Some(Deputado(Trunc(m["id"].n), GetStr(m, "nome"), GetStr(m, "nomeCivil"),
                    GetStr(m, "siglaPartido"), GetStr(m, "siglaUf"), GetStr(m, "urlFoto"),
                    GetStr(m, "email")))
    else None
  }

  /** Converting an expense record of the given deputy and year; the id is
      left 0 for the store to assign. */
  function ToDespesa(m: JsonObject, deputadoId: int, ano: int): Despesa {
    Despesa(0, deputadoId, ano, Trunc(GetFloat(m, "mes")), GetStr(m, "tipoDespesa"),
            GetStr(m, "dataDocumento"), GetFloat(m, "valorDocumento"),
            GetFloat(m, "valorLiquido"), GetStr(m, "nomeFornecedor"),
            GetStr(m, "cnpjCPFFornecedor"), GetStr(m, "numDocumento"))
  }

  /** Converting a bill record. */
  function ToProjeto(m: JsonObject): Projeto {
    Projeto(Trunc(GetFloat(m, "id")), GetStr(m, "siglaTipo"), Trunc(GetFloat(m, "numero")),
            Trunc(GetFloat(m, "ano")), GetStr(m, "ementa"), GetStr(m, "dataApresentacao"),
            GetStr(m, "urlInteiroTeor"))
  }

  // ----- the API's record shapes, to state what the conversions recover -----

  function DeputadoRecord(d: Deputado): JsonObject {
    map["id" := JNumber(d.id as real), "nome" := JString(d.nome),
        "nomeCivil" := JString(d.nomeCivil), "siglaPartido" := JString(d.partido),
        "siglaUf" := JString(d.uf), "urlFoto" := JString(d.foto), "email" := JString(d.email)]
  }

  function DespesaRecord(d: Despesa): JsonObject {
    map["mes" := JNumber(d.mes as real), "tipoDespesa" := JString(d.tipoDespesa),
        "dataDocumento" := JString(d.dataDocumento),
        "valorDocumento" := JNumber(d.valorDocumento),
        "valorLiquido" := JNumber(d.valorLiquido),
        "nomeFornecedor" := JString(d.nomeFornecedor),
        "cnpjCPFFornecedor" := JString(d.cnpjFornecedor),
        "numDocumento" := JString(d.numDocumento)]
  }

  function ProjetoRecord(p: Projeto): JsonObject {
    map["id" := JNumber(p.id as real), "siglaTipo" := JString(p.tipo),
        "numero" := JNumber(p.numero as real), "ano" := JNumber(p.ano as real),
        "ementa" := JString(p.ementa), "dataApresentacao" := JString(p.dataApresentacao),
        "urlInteiroTeor" := JString(p.urlInteiro)]
  }

  lemma TruncInt(n: int)
    ensures Trunc(n as real) == n
  {
    if n < 0 {
      assert -(n as real) == (-n) as real;
    }
  }

  /** Every field of a deputy record that is missing, null or of the wrong
      type reads as "" (the id aside, which panics instead). */
  lemma ToDeputadoFallbacks(m: JsonObject)
    ensures ToDeputado(m).Some? <==> HasNumber(m, "id")
    ensures ToDeputado(m).Some? && !HasString(m, "nome") ==> ToDeputado(m).value.nome == ""
    ensures ToDeputado(m).Some? && !HasString(m, "nomeCivil") ==> ToDeputado(m).value.nomeCivil == ""
    ensures ToDeputado(m).Some? && !HasString(m, "siglaPartido") ==> ToDeputado(m).value.partido == ""
    ensures ToDeputado(m).Some? && !HasString(m, "siglaUf") ==> ToDeputado(m).value.uf == ""
    ensures ToDeputado(m).Some? && !HasString(m, "urlFoto") ==> ToDeputado(m).value.foto == ""
    ensures ToDeputado(m).Some? && !HasString(m, "email") ==> ToDeputado(m).value.email == ""
  {
  }

  /** Every field of an expense record that is missing, null or of the
      wrong type reads as "" or 0; the month is int(0) = 0. */
  lemma ToDespesaFallbacks(m: JsonObject, deputadoId: int, ano: int)
    ensures !HasNumber(m, "mes") ==> ToDespesa(m, deputadoId, ano).mes == 0
    ensures !HasString(m, "tipoDespesa") ==> ToDespesa(m, deputadoId, ano).tipoDespesa == ""
    ensures !HasString(m, "dataDocumento") ==> ToDespesa(m, deputadoId, ano).dataDocumento == ""
    ensures !HasNumber(m, "valorDocumento") ==> ToDespesa(m, deputadoId, ano).valorDocumento == 0.0
    ensures !HasNumber(m, "valorLiquido") ==> ToDespesa(m, deputadoId, ano).valorLiquido == 0.0
    ensures !HasString(m, "nomeFornecedor") ==> ToDespesa(m, deputadoId, ano).nomeFornecedor == ""
    ensures !HasString(m, "cnpjCPFFornecedor") ==> ToDespesa(m, deputadoId, ano).cnpjFornecedor == ""
    ensures !HasString(m, "numDocumento") ==> ToDespesa(m, deputadoId, ano).numDocumento == ""
  {
    TruncInt(0);
  }

  /** Every field of a bill record that is missing, null or of the wrong
      type reads as "" or int(0) = 0. */
  lemma ToProjetoFallbacks(m: JsonObject)
    ensures !HasNumber(m, "id") ==> ToProjeto(m).id == 0
    ensures !HasString(m, "siglaTipo") ==> ToProjeto(m).tipo == ""
    ensures !HasNumber(m, "numero") ==> ToProjeto(m).numero == 0
    ensures !HasNumber(m, "ano") ==> ToProjeto(m).ano == 0
    ensures !HasString(m, "ementa") ==> ToProjeto(m).ementa == ""
    ensures !HasString(m, "dataApresentacao") ==> ToProjeto(m).dataApresentacao == ""
    ensures !HasString(m, "urlInteiroTeor") ==> ToProjeto(m).urlInteiro == ""
  {
    TruncInt(0);
  }

  /** A null element of "dados" is an empty object: an expense or a bill
      with every field at its fallback, and a panic for a deputy. */
  lemma NullElement(deputadoId: int, ano: int)
    ensures ToDespesa(map[], deputadoId, ano) ==
      Despesa(0, deputadoId, ano, 0, "", "", 0.0, 0.0, "", "", "")
    ensures ToProjeto(map[]) == Projeto(0, "", 0, 0, "", "", "")
    ensures ToDeputado(map[]).None?
  {
    ToDespesaFallbacks(map[], deputadoId, ano);
    ToProjetoFallbacks(map[]);
  }

  /** A well-formed deputy record converts back to the deputy it describes. */
  lemma ToDeputadoRecord(d: Deputado)
    ensures ToDeputado(DeputadoRecord(d)) == Some(d)
  {
    TruncInt(d.id);
  }

  /** A well-formed expense record converts to the expense it describes,
      under the deputy and year of the request and with no id yet. */
  lemma ToDespesaRecord(d: Despesa)
    ensures ToDespesa(DespesaRecord(d), d.deputadoId, d.ano) == d.(id := 0)
  {
    TruncInt(d.mes);
  }

  /** A well-formed bill record converts to the bill it describes. */
  lemma ToProjetoRecord(p: Projeto)
    ensures ToProjeto(ProjetoRecord(p)) == p
  {
    TruncInt(p.id);
    TruncInt(p.numero);
    TruncInt(p.ano);
  }

  /** A record without a numeric "id" stops the deputy sync. */
  lemma ToDeputadoPanics(m: JsonObject)
    ensures ToDeputado(m).None? <==> !("id" in m && m["id"].JNumber?)
  {
  }

  // ----- pagination -----

  datatype FetchError = HttpError(msg: string) | DecodeError(msg: string)

  /** One request: the decoded "dados" array, or why there is none. */
  type Page = Result<seq<JsonObject>, FetchError>

  /** The answers to pagina=1, 2, ...; past the end the API has no data. */
  type Feed = seq<Page>

  function PageAt(feed: Feed, pagina: nat): Page {
    if 1 <= pagina <= |feed| then feed[pagina - 1] else Success([])
  }

  /** The records of pages `pagina`, `pagina`+1, ... up to the first empty or
      short page, or the first failing page with its number. */
  function Fetched(feed: Feed, pagina: nat): Result<seq<JsonObject>, (nat, FetchError)>
    requires pagina >= 1
    decreases |feed| + 1 - pagina
  {
    match PageAt(feed, pagina)
    case Failure(e) => Failure((pagina, e))
    case Success(items) =>
      if |items| == 0 then Success([])
      else if |items| < PageSize then Success(items)
      else
        match Fetched(feed, pagina + 1)
        case Failure(e) => Failure(e)
        case Success(rest) => Success(items + rest)
  }

  /** A page is full: the API may have more. */
  predicate Full(p: Page) {
    p.Success? && |p.value| >= PageSize
  }

  function Flatten(pages: seq<Page>): seq<JsonObject> {
    if |pages| == 0 then [] else
      (if pages[0].Success? then pages[0].value else []) + Flatten(pages[1..])
  }

  /** When pages pagina .. k-1 are full and page k ends the listing (empty,
      short or past the end), the result is exactly those pages' records. */
  lemma {:induction false} FetchedAll(feed: Feed, pagina: nat, k: nat)
    requires 1 <= pagina <= k
    requires forall j :: pagina <= j < k ==> Full(PageAt(feed, j))
    requires PageAt(feed, k).Success? && |PageAt(feed, k).value| < PageSize
    ensures Fetched(feed, pagina) ==
      Success(Flatten(seq(k + 1 - pagina, j requires 0 <= j < k + 1 - pagina => PageAt(feed, pagina + j))))
    decreases k - pagina
  {
    var pages := seq(k + 1 - pagina, j requires 0 <= j < k + 1 - pagina => PageAt(feed, pagina + j));
    if pagina < k {
      FetchedAll(feed, pagina + 1, k);
      var rest := seq(k - pagina, j requires 0 <= j < k - pagina => PageAt(feed, pagina + 1 + j));
      assert pages[1..] == rest;
    } else {
      assert pages[0] == PageAt(feed, k);
      assert pages[1..] == [];
      assert Flatten(pages) == PageAt(feed, k).value + [];
      assert Flatten(pages) == PageAt(feed, k).value;
    }
  }

  /** When pages pagina .. k-1 are full and page k fails, the whole listing
      fails with page k's error; none of the records fetched before survive. */
  lemma {:induction false} FetchedFails(feed: Feed, pagina: nat, k: nat)
    requires 1 <= pagina <= k
    requires forall j :: pagina <= j < k ==> Full(PageAt(feed, j))
    requires PageAt(feed, k).Failure?
    ensures Fetched(feed, pagina) == Failure((k, PageAt(feed, k).error))
    decreases k - pagina
  {
    if pagina < k {
      FetchedFails(feed, pagina + 1, k);
    }
  }

  /** The records of the pages fetched so far, followed by the rest. */
  function Join<E>(done: seq<JsonObject>, rest: Result<seq<JsonObject>, E>): Result<seq<JsonObject>, E> {
    match rest
    case Failure(e) => Failure(e)
    case Success(items) => Success(done + items)
  }

  /** Proof helpers for the page loops: joining nothing, and joining in two steps. */
  lemma JoinEmpty<E>(r: Result<seq<JsonObject>, E>)
    ensures Join([], r) == r
  {
    if r.Success? {
      assert [] + r.value == r.value;
    }
  }

  lemma JoinAssoc<E>(a: seq<JsonObject>, b: seq<JsonObject>, r: Result<seq<JsonObject>, E>)
    ensures Join(a, Join(b, r)) == Join(a + b, r)
  {
    if r.Success? {
      assert a + (b + r.value) == (a + b) + r.value;
    }
  }

  /** A proof step of the page loops: reading one more full page moves its
      records from the rest to the records fetched so far. */
  lemma FetchedStep(feed: Feed, done: seq<JsonObject>, pagina: nat)
    requires pagina >= 1 && Full(PageAt(feed, pagina))
    ensures Join(done, Fetched(feed, pagina)) ==
      Join(done + PageAt(feed, pagina).value, Fetched(feed, pagina + 1))
  {
    JoinAssoc(done, PageAt(feed, pagina).value, Fetched(feed, pagina + 1));
  }

  function ToDespesas(items: seq<JsonObject>, deputadoId: int, ano: int): (r: seq<Despesa>)
    ensures |r| == |items|
    ensures forall i :: 0 <= i < |r| ==> r[i] == ToDespesa(items[i], deputadoId, ano)
  {
    seq(|items|, i requires 0 <= i < |items| => ToDespesa(items[i], deputadoId, ano))
  }

  function ToProjetos(items: seq<JsonObject>): (r: seq<Projeto>)
    ensures |r| == |items|
    ensures forall i :: 0 <= i < |r| ==> r[i] == ToProjeto(items[i])
  {
    seq(|items|, i requires 0 <= i < |items| => ToProjeto(items[i]))
  }

  /** buscarGastosPaginados: every expense of the listing, or the error. */
  function FetchDespesas(feed: Feed, deputadoId: int, ano: int): Result<seq<Despesa>, (nat, FetchError)> {
    match Fetched(feed, 1)
    case Failure(e) => Failure(e)
    case Success(items) => Success(ToDespesas(items, deputadoId, ano))
  }

  /** buscarGastosPaginados (camara.go:120-171). The Go loop appends the
      converted records of each page; a failing page discards them all. */
  method BuscarGastosPaginados(feed: Feed, deputadoId: int, ano: int)
    returns (r: Result<seq<Despesa>, (nat, FetchError)>)
    ensures r == FetchDespesas(feed, deputadoId, ano)
    ensures r.Success? ==> forall g :: g in r.value ==> g.deputadoId == deputadoId && g.ano == ano
  {
    var todas: seq<Despesa> := [];
    ghost var done: seq<JsonObject> := [];
    JoinEmpty(Fetched(feed, 1));
    var pagina := 1;
    while true
      invariant pagina >= 1
      invariant Fetched(feed, 1) == Join(done, Fetched(feed, pagina))
      invariant todas == ToDespesas(done, deputadoId, ano)
      decreases |feed| + 1 - pagina
    {
      var page := PageAt(feed, pagina);
      if page.Failure? {
        return Failure((pagina, page.error));
      }
      var dados := page.value;
      if |dados| == 0 {
        assert done + [] == done;
        break;
      }
      var i := 0;
      while i < |dados|
        invariant 0 <= i <= |dados|
        invariant todas == ToDespesas(done + dados[..i], deputadoId, ano)
      {
        todas := todas + [ToDespesa(dados[i], deputadoId, ano)];
        i := i + 1;
      }
      assert dados[..i] == dados;
      if |dados| >= PageSize {
        FetchedStep(feed, done, pagina);
      }
      done := done + dados;
      if |dados| < PageSize {
        break;
      }
      pagina := pagina + 1;
    }
    return Success(todas);
  }

  /** BuscarProjetosPorDeputado: every bill of the listing, or the error. */
  function FetchProjetos(feed: Feed): Result<seq<Projeto>, (nat, FetchError)> {
    match Fetched(feed, 1)
    case Failure(e) => Failure(e)
    case Success(items) => Success(ToProjetos(items))
  }

  /** BuscarProjetosPorDeputado (camara.go:174-232); `feed` answers the
      requests for the deputy's id. */
  method BuscarProjetosPorDeputado(feed: Feed) returns (r: Result<seq<Projeto>, (nat, FetchError)>)
    ensures r == FetchProjetos(feed)
  {
    var todos: seq<Projeto> := [];
    ghost var done: seq<JsonObject> := [];
    JoinEmpty(Fetched(feed, 1));
    var pagina := 1;
    while true
      invariant pagina >= 1
      invariant Fetched(feed, 1) == Join(done, Fetched(feed, pagina))
      invariant todos == ToProjetos(done)
      decreases |feed| + 1 - pagina
    {
      var page := PageAt(feed, pagina);
      if page.Failure? {
        return Failure((pagina, page.error));
      }
      var dados := page.value;
      if |dados| == 0 {
        assert done + [] == done;
        break;
      }
      var i := 0;
      while i < |dados|
        invariant 0 <= i <= |dados|
        invariant todos == ToProjetos(done + dados[..i])
      {
        todos := todos + [ToProjeto(dados[i])];
        i := i + 1;
      }
      assert dados[..i] == dados;
      if |dados| >= PageSize {
        FetchedStep(feed, done, pagina);
      }
      done := done + dados;
      if |dados| < PageSize {
        break;
      }
      pagina := pagina + 1;
    }
    return Success(todos);
  }
}

module CamaraSync {
  import opened Wrappers
  import opened Models
  import opened Database
  import opened Camara

  // ----- SincronizarDeputados -----

  /** How a deputy sync ends: every page read, a page that could not be
      fetched or decoded, or a panic on a record without a numeric id. */
  datatype SyncOutcome = Synced | FetchFailed(pagina: nat, error: FetchError) | Panicked

  /** One save of the loop; a failed save is logged and skipped. */
  function SaveDeputado(rows: seq<Deputado>, d: Deputado, saveFault: Deputado -> bool): seq<Deputado> {
    if saveFault(d) then rows else Upsert(rows, d)
  }

  /** The save loop over one page: the table after it, and whether a record
      stopped it by panicking. Saves before the panic stay in the table. */
  function SaveItems(rows: seq<Deputado>, items: seq<JsonObject>, saveFault: Deputado -> bool)
    : (seq<Deputado>, bool)
    decreases |items|
  {
    if |items| == 0 then (rows, false)
    else match ToDeputado(items[0])
      case None => (rows, true)
      case Some(d) => SaveItems(SaveDeputado(rows, d, saveFault), items[1..], saveFault)
  }

  /** The page loop from page `pagina` on. */
  function SyncFrom(rows: seq<Deputado>, feed: Feed, pagina: nat, saveFault: Deputado -> bool)
    : (seq<Deputado>, SyncOutcome)
    requires pagina >= 1
    decreases |feed| + 1 - pagina
  {
    match PageAt(feed, pagina)
    case Failure(e) => (rows, FetchFailed(pagina, e))
    case Success(items) =>
      if |items| == 0 then (rows, Synced)
      else
        var (after, panicked) := SaveItems(rows, items, saveFault);
        if panicked then (after, Panicked)
        else if |items| < PageSize then (after, Synced)
        else SyncFrom(after, feed, pagina + 1, saveFault)
  }

  /** SincronizarDeputados (camara.go:22-81). */
  method SincronizarDeputados(db: Store, feed: Feed, saveFault: Deputado -> bool)
    returns (outcome: SyncOutcome)
    requires db.Valid()
    modifies db
    ensures db.Valid()
    ensures (db.deputados, outcome) == SyncFrom(old(db.deputados), feed, 1, saveFault)
    ensures db.despesas == old(db.despesas) && db.sequence == old(db.sequence)
  {
    var pagina := 1;
    while true
      invariant pagina >= 1 && db.Valid() && db.despesas == old(db.despesas) && db.sequence == old(db.sequence)
      invariant SyncFrom(old(db.deputados), feed, 1, saveFault) ==
        SyncFrom(db.deputados, feed, pagina, saveFault)
      decreases |feed| + 1 - pagina
    {
      var page := PageAt(feed, pagina);
      if page.Failure? {
        return FetchFailed(pagina, page.error);
      }
      var dados := page.value;
      if |dados| == 0 {
        break;
      }
      ghost var before := db.deputados;
      var i := 0;
      while i < |dados|
        invariant 0 <= i <= |dados| && db.Valid()
        invariant db.despesas == old(db.despesas) && db.sequence == old(db.sequence)
        invariant SaveItems(before, dados, saveFault) == SaveItems(db.deputados, dados[i..], saveFault)
      {
        assert dados[i..][1..] == dados[i + 1..];
        var d := ToDeputado(dados[i]);
        if d.None? {
          return Panicked;
        }
        var ok := db.SalvarDeputado(d.value, saveFault(d.value));
        i := i + 1;
      }
      if |dados| < PageSize {
        break;
      }
      pagina := pagina + 1;
    }
    return Synced;
  }

  lemma UpsertKeepsIds(rows: seq<Deputado>, d: Deputado)
    ensures forall id :: HasId(rows, id) ==> HasId(Upsert(rows, d), id)
    ensures HasId(Upsert(rows, d), d.id)
  {
    UpsertMembers(rows, d);
    forall id | HasId(rows, id) ensures HasId(Upsert(rows, d), id) {
      var k :| 0 <= k < |rows| && rows[k].id == id;
      var i := FirstWithId(rows, d.id);
      UpsertAt(rows, d, i);
      if i < |rows| {
        if k != i {
          assert Upsert(rows, d)[k].id == id;
        } else {
          assert Upsert(rows, d)[i].id == id;
        }
      } else {
        assert Upsert(rows, d)[k].id == id;
      }
    }
    var r := Upsert(rows, d);
    var j :| 0 <= j < |r| && r[j] == d;
  }

  /** The index of the first row with the id, or the length when none has it. */
  function FirstWithId(rows: seq<Deputado>, id: int): (i: nat)
    ensures i <= |rows|
    ensures forall k :: 0 <= k < i ==> rows[k].id != id
    ensures i < |rows| ==> rows[i].id == id
  {
    if |rows| == 0 then 0
    else if rows[0].id == id then 0
    else 1 + FirstWithId(rows[1..], id)
  }

  /** One page's save loop never loses a deputy; when no record panics,
      every record converts and each deputy whose save did not fail has a row. */
  lemma {:induction false} SaveItemsSpec(rows: seq<Deputado>, items: seq<JsonObject>,
                                         saveFault: Deputado -> bool)
    decreases |items|
    ensures forall id :: HasId(rows, id) ==> HasId(SaveItems(rows, items, saveFault).0, id)
    ensures !SaveItems(rows, items, saveFault).1 ==>
      forall m :: m in items ==>
        (ToDeputado(m).Some? &&
         (!saveFault(ToDeputado(m).value) ==>
            HasId(SaveItems(rows, items, saveFault).0, ToDeputado(m).value.id)))
  {
    if |items| > 0 && ToDeputado(items[0]).Some? {
      var d := ToDeputado(items[0]).value;
      var next := SaveDeputado(rows, d, saveFault);
      UpsertKeepsIds(rows, d);
      SaveItemsSpec(next, items[1..], saveFault);
      assert items == [items[0]] + items[1..];
    }
  }

  /** What a deputy sync promises: no deputy is ever removed; a fetch
      failure reports the same page and error as the whole listing would;
      and a complete sync read every record of the listing and gave a row
      to every deputy whose save did not fail. */
  lemma {:induction false} SyncFromSpec(rows: seq<Deputado>, feed: Feed, pagina: nat,
                                        saveFault: Deputado -> bool)
    requires pagina >= 1
    ensures forall id :: HasId(rows, id) ==> HasId(SyncFrom(rows, feed, pagina, saveFault).0, id)
    ensures SyncFrom(rows, feed, pagina, saveFault).1.FetchFailed? ==>
      var o := SyncFrom(rows, feed, pagina, saveFault).1;
      Fetched(feed, pagina) == Failure((o.pagina, o.error))
    ensures SyncFrom(rows, feed, pagina, saveFault).1 == Synced ==>
      Fetched(feed, pagina).Success? &&
      forall m :: m in Fetched(feed, pagina).value ==>
        (ToDeputado(m).Some? &&
         (!saveFault(ToDeputado(m).value) ==>
            HasId(SyncFrom(rows, feed, pagina, saveFault).0, ToDeputado(m).value.id)))
    decreases |feed| + 1 - pagina
  {
    var page := PageAt(feed, pagina);
    if page.Success? && |page.value| > 0 {
      var items := page.value;
      SaveItemsSpec(rows, items, saveFault);
      var (after, panicked) := SaveItems(rows, items, saveFault);
      if !panicked && |items| >= PageSize {
        SyncFromSpec(after, feed, pagina + 1, saveFault);
      }
    }
  }

  // ----- SincronizarGastos -----

  /** The expenses table together with its AUTOINCREMENT counter. */
  datatype Expenses = Expenses(rows: seq<Despesa>, sequence: nat)

  /** The unique key and the id numbering hold. */
  predicate Keyed(t: Expenses) {
    UniqueKeys(t.rows) && Numbered(t.rows, t.sequence)
  }

  /** One save of the loop: a failed save changes nothing; otherwise the
      insert uses up an id whether or not it is ignored. */
  function SaveDespesa(t: Expenses, g: Despesa, saveFault: Despesa -> bool): Expenses {
    if saveFault(g) then t else Expenses(InsertOrIgnore(t.rows, t.sequence, g), t.sequence + 1)
  }

  /** The save loop over one deputy's expenses; a failed save is skipped. */
  function SaveDespesas(t: Expenses, gastos: seq<Despesa>, saveFault: Despesa -> bool): Expenses
    decreases |gastos|
  {
    if |gastos| == 0 then t
    else SaveDespesas(SaveDespesa(t, gastos[0], saveFault), gastos[1..], saveFault)
  }

  /** The loop over the deputies in the order listed: a deputy whose
      expenses cannot be fetched is skipped. */
  function SyncGastos(t: Expenses, deps: seq<Deputado>, ano: int, feeds: int -> Feed,
                      saveFault: Despesa -> bool): Expenses
    decreases |deps|
  {
    if |deps| == 0 then t
    else
      var next :=
        match FetchDespesas(feeds(deps[0].id), deps[0].id, ano)
        case Failure(_) => t
        case Success(gastos) => SaveDespesas(t, gastos, saveFault);
      SyncGastos(next, deps[1..], ano, feeds, saveFault)
  }

  /** The inner loop of SincronizarGastos: save each expense of one deputy. */
  method SalvarGastos(db: Store, gastos: seq<Despesa>, saveFault: Despesa -> bool)
    requires db.Valid()
    modifies db
    ensures db.Valid() && db.deputados == old(db.deputados)
    ensures Expenses(db.despesas, db.sequence) ==
      SaveDespesas(Expenses(old(db.despesas), old(db.sequence)), gastos, saveFault)
  {
    var j := 0;
    while j < |gastos|
      invariant 0 <= j <= |gastos| && db.Valid() && db.deputados == old(db.deputados)
      invariant SaveDespesas(Expenses(old(db.despesas), old(db.sequence)), gastos, saveFault) ==
        SaveDespesas(Expenses(db.despesas, db.sequence), gastos[j..], saveFault)
    {
      assert gastos[j..][1..] == gastos[j + 1..];
      var ok := db.SalvarDespesa(gastos[j], saveFault(gastos[j]));
      j := j + 1;
    }
  }

  /** SincronizarGastos (camara.go:84-117); `feeds` answers the expense
      requests of each deputy id for this year; `listFault` and `stepFault`
      are the failures of its BuscarDeputados. The deputies are visited in
      the order BuscarDeputados returns, which `order` names: the whole
      `listing`, or only its first rows when a step of the listing fails. */
  method SincronizarGastos(db: Store, ano: int, feeds: int -> Feed, listFault: bool,
                           stepFault: Option<nat>, saveFault: Despesa -> bool)
    returns (r: Result<(), DbError>, ghost listing: seq<Deputado>, ghost order: seq<Deputado>)
    requires db.Valid()
    modifies db
    ensures db.Valid() && db.deputados == old(db.deputados)
    ensures r.Failure? <==> listFault
    ensures listFault ==> db.despesas == old(db.despesas) && db.sequence == old(db.sequence)
    ensures old(db.despesas) <= db.despesas
    ensures !listFault ==>
      (ReadOf(old(db.deputados), listing, stepFault, order) &&
       Expenses(db.despesas, db.sequence) ==
         SyncGastos(Expenses(old(db.despesas), old(db.sequence)), order, ano, feeds, saveFault))
  {
    var listed;
    listed, listing := db.BuscarDeputados(listFault, stepFault);
    if listed.Failure? {
      return Failure(listed.error), listing, [];
    }
    var deputados := listed.value;
    order := deputados;
    var i := 0;
    while i < |deputados|
      invariant 0 <= i <= |deputados| && db.Valid() && db.deputados == old(db.deputados)
      invariant SyncGastos(Expenses(old(db.despesas), old(db.sequence)), deputados, ano, feeds, saveFault) ==
        SyncGastos(Expenses(db.despesas, db.sequence), deputados[i..], ano, feeds, saveFault)
    {
      assert deputados[i..][1..] == deputados[i + 1..];
      var dep := deputados[i];
      var gastos := BuscarGastosPaginados(feeds(dep.id), dep.id, ano);
      if gastos.Success? {
        SalvarGastos(db, gastos.value, saveFault);
      }
      i := i + 1;
    }
    SyncGastosSpec(Expenses(old(db.despesas), old(db.sequence)), deputados, ano, feeds, saveFault);
    return Success(()), listing, order;
  }

  function KeysOf(gastos: seq<Despesa>): set<(int, int, string, real)> {
    set g | g in gastos :: Key(g)
  }

  /** The expense saves only ever append, and the counter only grows;
      every expense whose save did not fail has its key in the table
      afterwards; every appended row carries the key of one of the
      expenses. */
  lemma {:induction false} SaveDespesasSpec(t: Expenses, gastos: seq<Despesa>,
                                            saveFault: Despesa -> bool)
    decreases |gastos|
    requires Keyed(t)
    ensures Keyed(SaveDespesas(t, gastos, saveFault))
    ensures t.rows <= SaveDespesas(t, gastos, saveFault).rows
    ensures t.sequence <= SaveDespesas(t, gastos, saveFault).sequence
    ensures forall g :: g in gastos && !saveFault(g) ==> HasKey(SaveDespesas(t, gastos, saveFault).rows, Key(g))
    ensures forall i :: |t.rows| <= i < |SaveDespesas(t, gastos, saveFault).rows| ==>
      Key(SaveDespesas(t, gastos, saveFault).rows[i]) in KeysOf(gastos)
  {
    if |gastos| > 0 {
      var g := gastos[0];
      var next := SaveDespesa(t, g, saveFault);
      InsertOrIgnoreSpec(t.rows, t.sequence, g);
      SaveDespesasSpec(next, gastos[1..], saveFault);
      var r := SaveDespesas(t, gastos, saveFault).rows;
      assert gastos == [g] + gastos[1..];
      forall h | h in gastos && !saveFault(h) ensures HasKey(r, Key(h)) {
        if h == g {
          var k :| 0 <= k < |next.rows| && Key(next.rows[k]) == Key(g);
          assert r[k] == next.rows[k];
        }
      }
      forall i | |t.rows| <= i < |r| ensures Key(r[i]) in KeysOf(gastos) {
        if i < |next.rows| {
          assert r[i] == next.rows[i];
          assert Key(next.rows[i]) == Key(g);
        }
      }
    }
  }

  function IdsOf(deps: seq<Deputado>): set<int> {
    set d | d in deps :: d.id
  }

  lemma PrefixHasKey(a: seq<Despesa>, b: seq<Despesa>, k: (int, int, string, real))
    requires a <= b && HasKey(a, k)
    ensures HasKey(b, k)
  {
    var i :| 0 <= i < |a| && Key(a[i]) == k;
    assert b[i] == a[i];
  }

  /** What an expense sync of one year promises: existing rows are kept as
      they were; each appended row is an expense of that year of a listed
      deputy; and for every listed deputy whose listing was fetched, every
      expense whose save did not fail is in the table. */
  lemma {:induction false} SyncGastosSpec(t: Expenses, deps: seq<Deputado>, ano: int,
                                          feeds: int -> Feed, saveFault: Despesa -> bool)
    requires Keyed(t)
    decreases |deps|
    ensures Keyed(SyncGastos(t, deps, ano, feeds, saveFault))
    ensures t.rows <= SyncGastos(t, deps, ano, feeds, saveFault).rows
    ensures t.sequence <= SyncGastos(t, deps, ano, feeds, saveFault).sequence
    ensures forall i :: |t.rows| <= i < |SyncGastos(t, deps, ano, feeds, saveFault).rows| ==>
      SyncGastos(t, deps, ano, feeds, saveFault).rows[i].ano == ano &&
      SyncGastos(t, deps, ano, feeds, saveFault).rows[i].deputadoId in IdsOf(deps)
    ensures forall dep, g ::
      (dep in deps && FetchDespesas(feeds(dep.id), dep.id, ano).Success? &&
       g in FetchDespesas(feeds(dep.id), dep.id, ano).value && !saveFault(g)) ==>
        HasKey(SyncGastos(t, deps, ano, feeds, saveFault).rows, Key(g))
  {
    if |deps| > 0 {
      var dep := deps[0];
      var fetched := FetchDespesas(feeds(dep.id), dep.id, ano);
      var next := match fetched case Failure(_) => t case Success(gastos) => SaveDespesas(t, gastos, saveFault);
      if fetched.Success? {
        SaveDespesasSpec(t, fetched.value, saveFault);
        forall i | |t.rows| <= i < |next.rows| ensures next.rows[i].ano == ano && next.rows[i].deputadoId == dep.id {
          var g :| g in fetched.value && Key(g) == Key(next.rows[i]);
        }
      }
      SyncGastosSpec(next, deps[1..], ano, feeds, saveFault);
      var r := SyncGastos(t, deps, ano, feeds, saveFault).rows;
      assert deps == [dep] + deps[1..];
      forall i | |t.rows| <= i < |r| ensures r[i].ano == ano && r[i].deputadoId in IdsOf(deps) {
        if i < |next.rows| {
          assert r[i] == next.rows[i];
        }
      }
      forall d, g | d in deps && FetchDespesas(feeds(d.id), d.id, ano).Success? &&
        g in FetchDespesas(feeds(d.id), d.id, ano).value && !saveFault(g)
        ensures HasKey(r, Key(g))
      {
        if d == dep {
          PrefixHasKey(next.rows, r, Key(g));
        }
      }
    }
  }
}
