/** The SQLite store of backend/database/db.go, as two in-memory tables.
    Only the semantics the statements imply are modelled: the primary key of
    `deputados`, the four-column UNIQUE constraint and AUTOINCREMENT id of
    `despesas`, and what each query selects, aggregates and orders. A failure
    of the engine itself is the `fault` argument of each call. */
module Database {
  import opened Wrappers
  import opened Models
  import opened Sorting
  import opened Collation

  datatype DbError = EngineError

  // ----- table deputados: id INTEGER PRIMARY KEY -----

  predicate UniqueIds(rows: seq<Deputado>) {
    forall i, j :: 0 <= i < j < |rows| ==> rows[i].id != rows[j].id
  }

  predicate HasId(rows: seq<Deputado>, id: int) {
    exists i :: 0 <= i < |rows| && rows[i].id == id
  }

  /** INSERT ... ON CONFLICT(id) DO UPDATE: the row holding d's id takes all of
      d's columns; when there is none, d is added. */
  function Upsert(rows: seq<Deputado>, d: Deputado): seq<Deputado> {
    if |rows| == 0 then [d]
    else if rows[0].id == d.id then [d] + rows[1..]
    else [rows[0]] + Upsert(rows[1..], d)
  }

  /** The rows whose id is not `id`, in table order. */
  function Others(rows: seq<Deputado>, id: int): seq<Deputado> {
    if |rows| == 0 then []
    else if rows[0].id == id then Others(rows[1..], id)
    else [rows[0]] + Others(rows[1..], id)
  }

  /** The upsert adds d and nothing but d. */
  lemma {:induction false} UpsertMembers(rows: seq<Deputado>, d: Deputado)
    ensures d in Upsert(rows, d)
    ensures forall x :: x in Upsert(rows, d) ==> x == d || x in rows
  {
    if |rows| > 0 && rows[0].id != d.id {
      UpsertMembers(rows[1..], d);
      assert Upsert(rows, d) == [rows[0]] + Upsert(rows[1..], d);
      assert rows == [rows[0]] + rows[1..];
    }
  }

  /** The primary key survives the upsert, and the one row with d's id is d. */
  lemma {:induction false} UpsertUnique(rows: seq<Deputado>, d: Deputado)
    requires UniqueIds(rows)
    ensures UniqueIds(Upsert(rows, d))
    ensures forall x :: x in Upsert(rows, d) && x.id == d.id ==> x == d
  {
    if |rows| > 0 && rows[0].id != d.id {
      var tail := rows[1..];
      UpsertUnique(tail, d);
      UpsertMembers(tail, d);
      var r := Upsert(rows, d);
      assert r == [rows[0]] + Upsert(tail, d);
      forall i | 1 <= i < |r| ensures r[i].id != rows[0].id {
        assert r[i] in Upsert(tail, d);
        if r[i] != d {
          var k :| 0 <= k < |tail| && tail[k] == r[i];
          assert rows[k + 1] == r[i];
        }
      }
    }
  }

  /** The rows with other ids are the same rows in the same order. */
  lemma {:induction false} UpsertOthers(rows: seq<Deputado>, d: Deputado)
    ensures Others(Upsert(rows, d), d.id) == Others(rows, d.id)
  {
    if |rows| > 0 && rows[0].id != d.id {
      UpsertOthers(rows[1..], d);
      assert Upsert(rows, d) == [rows[0]] + Upsert(rows[1..], d);
    }
  }

  /** The table grows by one row exactly when d's id was not there. */
  lemma {:induction false} UpsertLength(rows: seq<Deputado>, d: Deputado)
    ensures |Upsert(rows, d)| == if HasId(rows, d.id) then |rows| else |rows| + 1
  {
    if |rows| > 0 {
      if rows[0].id == d.id {
        assert HasId(rows, d.id);
      } else {
        var tail := rows[1..];
        UpsertLength(tail, d);
        if HasId(rows, d.id) {
          var k :| 0 <= k < |rows| && rows[k].id == d.id;
          assert tail[k - 1].id == d.id;
        }
        if HasId(tail, d.id) {
          var k :| 0 <= k < |tail| && tail[k].id == d.id;
          assert rows[k + 1].id == d.id;
        }
      }
    }
  }

  /** After an upsert the table holds exactly one row with d's id, and it is d;
      the rows with other ids are the same rows in the same order. */
  lemma UpsertSpec(rows: seq<Deputado>, d: Deputado)
    requires UniqueIds(rows)
    ensures UniqueIds(Upsert(rows, d))
    ensures d in Upsert(rows, d)
    ensures forall x :: x in Upsert(rows, d) && x.id == d.id ==> x == d
    ensures forall x :: x in Upsert(rows, d) ==> x == d || x in rows
    ensures Others(Upsert(rows, d), d.id) == Others(rows, d.id)
    ensures |Upsert(rows, d)| == if HasId(rows, d.id) then |rows| else |rows| + 1
  {
    UpsertMembers(rows, d);
    UpsertUnique(rows, d);
    UpsertOthers(rows, d);
    UpsertLength(rows, d);
  }

  /** Saving the same deputy twice leaves the table as saving it once. */
  lemma {:induction false} UpsertIdempotent(rows: seq<Deputado>, d: Deputado)
    ensures Upsert(Upsert(rows, d), d) == Upsert(rows, d)
  {
    if |rows| > 0 && rows[0].id != d.id {
      UpsertIdempotent(rows[1..], d);
    }
  }

  /** Where the upsert loop stops: at the first row with d's id, or past the end. */
  lemma {:induction false} UpsertAt(rows: seq<Deputado>, d: Deputado, i: nat)
    requires i <= |rows|
    requires forall k :: 0 <= k < i ==> rows[k].id != d.id
    requires i < |rows| ==> rows[i].id == d.id
    ensures Upsert(rows, d) == if i < |rows| then rows[i := d] else rows + [d]
  {
    if i > 0 {
      UpsertAt(rows[1..], d, i - 1);
      assert rows == [rows[0]] + rows[1..];
    }
  }

  // ----- table despesas: AUTOINCREMENT id,
  //       UNIQUE(deputado_id, ano, num_documento, valor_documento) -----

  function Key(d: Despesa): (int, int, string, real) {
    (d.deputadoId, d.ano, d.numDocumento, d.valorDocumento)
  }

  predicate HasKey(rows: seq<Despesa>, k: (int, int, string, real)) {
    exists i :: 0 <= i < |rows| && Key(rows[i]) == k
  }

  predicate UniqueKeys(rows: seq<Despesa>) {
    forall i, j :: 0 <= i < j < |rows| ==> Key(rows[i]) != Key(rows[j])
  }

  /** The ids AUTOINCREMENT has handed out: strictly increasing in table
      order (rows are never deleted), from 1 and never above the counter
      `sequence` that SQLite keeps for the table. */
  predicate Numbered(rows: seq<Despesa>, sequence: nat) {
    && (forall i, j :: 0 <= i < j < |rows| ==> rows[i].id < rows[j].id)
    && (forall i :: 0 <= i < |rows| ==> 1 <= rows[i].id <= sequence)
  }

  /** INSERT OR IGNORE under AUTOINCREMENT: the statement draws the id
      `sequence` + 1 before the unique key is checked, so a row whose key is
      taken is dropped silently but uses up its id all the same (the counter
      moves to `sequence` + 1 either way). */
  function InsertOrIgnore(rows: seq<Despesa>, sequence: nat, d: Despesa): seq<Despesa> {
    if HasKey(rows, Key(d)) then rows else rows + [d.(id := sequence + 1)]
  }

  /** The insert keeps each key at most once; afterwards d's key is present;
      a taken key leaves the rows as they were; a free key appends d under
      an id above every id before it. */
  lemma InsertOrIgnoreSpec(rows: seq<Despesa>, sequence: nat, d: Despesa)
    requires UniqueKeys(rows) && Numbered(rows, sequence)
    ensures UniqueKeys(InsertOrIgnore(rows, sequence, d))
    ensures Numbered(InsertOrIgnore(rows, sequence, d), sequence + 1)
    ensures HasKey(InsertOrIgnore(rows, sequence, d), Key(d))
    ensures HasKey(rows, Key(d)) ==> InsertOrIgnore(rows, sequence, d) == rows
    ensures !HasKey(rows, Key(d)) ==>
      && InsertOrIgnore(rows, sequence, d) == rows + [d.(id := sequence + 1)]
      && forall i :: 0 <= i < |rows| ==> rows[i].id < sequence + 1
  {
    if !HasKey(rows, Key(d)) {
      var r := InsertOrIgnore(rows, sequence, d);
      assert Key(r[|rows|]) == Key(d);
    }
  }

  /** Saving A, saving A again (ignored) and then saving B gives B the id 3,
      not 2: the ignored insert used up id 2. */
  lemma IgnoredInsertUsesId(a: Despesa, b: Despesa)
    requires Key(a) != Key(b)
    ensures var r1 := InsertOrIgnore([], 0, a);
      var r2 := InsertOrIgnore(r1, 1, a);
      var r3 := InsertOrIgnore(r2, 2, b);
      r2 == r1 && r3 == [a.(id := 1), b.(id := 3)]
  {
    var r1 := InsertOrIgnore([], 0, a);
    assert Key(r1[0]) == Key(a);
    assert !HasKey(r1, Key(b));
  }

  /** WHERE deputado_id = ? AND ano = ?: the matching rows in table order. */
  function Select(rows: seq<Despesa>, deputadoId: int, ano: int): seq<Despesa> {
    if |rows| == 0 then []
    else
      var init := Select(rows[..|rows| - 1], deputadoId, ano);
      var last := rows[|rows| - 1];
      if last.deputadoId == deputadoId && last.ano == ano then init + [last] else init
  }

  lemma {:induction false} SelectSpec(rows: seq<Despesa>, deputadoId: int, ano: int)
    ensures forall x :: x in Select(rows, deputadoId, ano) <==>
      x in rows && x.deputadoId == deputadoId && x.ano == ano
  {
    if |rows| > 0 {
      var init := rows[..|rows| - 1];
      SelectSpec(init, deputadoId, ano);
      assert rows == init + [rows[|rows| - 1]];
    }
  }

  /** SUM(valor_documento) over a sequence of rows. */
  function SumValor(rows: seq<Despesa>): real {
    if |rows| == 0 then 0.0 else SumValor(rows[..|rows| - 1]) + rows[|rows| - 1].valorDocumento
  }

  lemma {:induction false} SumValorAppend(a: seq<Despesa>, b: seq<Despesa>)
    ensures SumValor(a + b) == SumValor(a) + SumValor(b)
    decreases |b|
  {
    if |b| > 0 {
      SumValorAppend(a, b[..|b| - 1]);
      assert (a + b)[..|a + b| - 1] == a + b[..|b| - 1];
    } else {
      assert a + b == a;
    }
  }

  /** A sum does not depend on the order of the rows. */
  lemma {:induction false} SumValorPermutation(a: seq<Despesa>, b: seq<Despesa>)
    requires multiset(a) == multiset(b)
    ensures SumValor(a) == SumValor(b)
    decreases |a|
  {
    if |a| > 0 {
      var x := a[|a| - 1];
      var a' := a[..|a| - 1];
      assert a == a' + [x];
      assert x in multiset(b);
      var k :| 0 <= k < |b| && b[k] == x;
      var b' := b[..k] + b[k + 1..];
      assert b == b[..k] + [x] + b[k + 1..];
      assert multiset(b) == multiset(b[..k]) + multiset{x} + multiset(b[k + 1..]);
      assert multiset(b') == multiset(b[..k]) + multiset(b[k + 1..]);
      assert multiset(a) == multiset(a') + multiset{x};
      assert multiset(b') == multiset(b) - multiset{x};
      assert multiset(a') == multiset(a) - multiset{x};
      SumValorPermutation(a', b');
      SumValorAppend(b[..k], [x]);
      SumValorAppend(b[..k] + [x], b[k + 1..]);
      SumValorAppend(b[..k], b[k + 1..]);
    }
  }

  /** COALESCE(SUM(valor_documento), 0) over one deputy's rows of one year. */
  function TotalGasto(rows: seq<Despesa>, deputadoId: int, ano: int): real {
    SumValor(Select(rows, deputadoId, ano))
  }

  /** Saving an expense adds its amount to its own deputy's total of its own
      year when it is inserted, and changes no other total. */
  lemma SalvarDespesaTotals(rows: seq<Despesa>, sequence: nat, d: Despesa, deputadoId: int, ano: int)
    ensures TotalGasto(InsertOrIgnore(rows, sequence, d), deputadoId, ano) ==
      TotalGasto(rows, deputadoId, ano) +
      (if !HasKey(rows, Key(d)) && d.deputadoId == deputadoId && d.ano == ano
       then d.valorDocumento else 0.0)
  {
    if !HasKey(rows, Key(d)) {
      var r := InsertOrIgnore(rows, sequence, d);
      assert r[..|r| - 1] == rows;
    }
  }

  /** COUNT(*) ... WHERE ano = ? */
  function CountAno(rows: seq<Despesa>, ano: int): nat {
    if |rows| == 0 then 0
    else CountAno(rows[..|rows| - 1], ano) + (if rows[|rows| - 1].ano == ano then 1 else 0)
  }

  /** Saving an expense raises the count of its year by one exactly when it is
      inserted, and leaves every other year's count alone. */
  lemma SalvarDespesaCounts(rows: seq<Despesa>, sequence: nat, d: Despesa, ano: int)
    ensures CountAno(InsertOrIgnore(rows, sequence, d), ano) ==
      CountAno(rows, ano) + (if !HasKey(rows, Key(d)) && d.ano == ano then 1 else 0)
  {
    if !HasKey(rows, Key(d)) {
      var r := InsertOrIgnore(rows, sequence, d);
      assert r[..|r| - 1] == rows;
    }
  }

  /** A year's count is the number of rows of that year, over all deputies. */
  lemma {:induction false} CountAnoSpec(rows: seq<Despesa>, ano: int)
    ensures CountAno(rows, ano) <= |rows|
    ensures CountAno(rows, ano) == |rows| <==> forall x :: x in rows ==> x.ano == ano
    ensures CountAno(rows, ano) == 0 <==> forall x :: x in rows ==> x.ano != ano
  {
    if |rows| > 0 {
      var init := rows[..|rows| - 1];
      CountAnoSpec(init, ano);
      assert rows == init + [rows[|rows| - 1]];
    }
  }

  /** Rows of two different years are counted apart: the two counts never
      exceed the table size. */
  lemma {:induction false} CountAnoDisjoint(rows: seq<Despesa>, a: int, b: int)
    requires a != b
    ensures CountAno(rows, a) + CountAno(rows, b) <= |rows|
  {
    if |rows| > 0 {
      CountAnoDisjoint(rows[..|rows| - 1], a, b);
    }
  }

  // ----- orders of the queries -----

  /** ORDER BY nome */
  function NomeAsc(a: Deputado, b: Deputado): bool { LexLe(a.nome, b.nome) }

  /** ORDER BY data_documento DESC */
  function DataDesc(a: Despesa, b: Despesa): bool { LexLe(b.dataDocumento, a.dataDocumento) }

  /** ORDER BY total_gasto DESC */
  function TotalDesc(a: RankingDeputado, b: RankingDeputado): bool { a.totalGasto >= b.totalGasto }

  lemma NomeAscPreorder()
    ensures TotalPreorder(NomeAsc)
  {
    forall a: Deputado, b: Deputado ensures NomeAsc(a, b) || NomeAsc(b, a) {
      LexLeTotal(a.nome, b.nome);
    }
    forall a: Deputado, b: Deputado, c: Deputado | NomeAsc(a, b) && NomeAsc(b, c)
      ensures NomeAsc(a, c)
    {
      LexLeTransitive(a.nome, b.nome, c.nome);
    }
  }

  lemma DataDescPreorder()
    ensures TotalPreorder(DataDesc)
  {
    forall a: Despesa, b: Despesa ensures DataDesc(a, b) || DataDesc(b, a) {
      LexLeTotal(a.dataDocumento, b.dataDocumento);
    }
    forall a: Despesa, b: Despesa, c: Despesa | DataDesc(a, b) && DataDesc(b, c)
      ensures DataDesc(a, c)
    {
      LexLeTransitive(c.dataDocumento, b.dataDocumento, a.dataDocumento);
    }
  }

  lemma TotalDescPreorder()
    ensures TotalPreorder(TotalDesc)
  {
  }

  // ----- what each query returns -----

  /** BuscarDeputados: every deputy row, ordered by nome. */
  ghost predicate IsListing(deps: seq<Deputado>, out: seq<Deputado>) {
    multiset(out) == multiset(deps) && Sorted(out, NomeAsc)
  }

  /** BuscarGastos: exactly the rows of that deputy and year, newest document first. */
  ghost predicate IsGastos(rows: seq<Despesa>, deputadoId: int, ano: int, out: seq<Despesa>) {
    multiset(out) == multiset(Select(rows, deputadoId, ano)) && Sorted(out, DataDesc)
  }

  /** The aggregate row of the LEFT JOIN ... GROUP BY d.id for one deputy. */
  function Entry(d: Deputado, rows: seq<Despesa>, ano: int): RankingDeputado {
    RankingDeputado(d, TotalGasto(rows, d.id, ano), |Select(rows, d.id, ano)|, 0)
  }

  /** The groups that pass HAVING total_gasto > 0, in table order. */
  function Candidates(deps: seq<Deputado>, rows: seq<Despesa>, ano: int): seq<RankingDeputado> {
    if |deps| == 0 then []
    else
      var init := Candidates(deps[..|deps| - 1], rows, ano);
      var e := Entry(deps[|deps| - 1], rows, ano);
      if e.totalGasto > 0.0 then init + [e] else init
  }

  lemma {:induction false} CandidatesSpec(deps: seq<Deputado>, rows: seq<Despesa>, ano: int)
    ensures forall e :: e in Candidates(deps, rows, ano) ==>
      e.deputado in deps && e == Entry(e.deputado, rows, ano) && e.totalGasto > 0.0
    ensures forall d :: d in deps && Entry(d, rows, ano).totalGasto > 0.0 ==>
      Entry(d, rows, ano) in Candidates(deps, rows, ano)
  {
    if |deps| > 0 {
      var init := deps[..|deps| - 1];
      CandidatesSpec(init, rows, ano);
      assert deps == init + [deps[|deps| - 1]];
    }
  }

  /** The rows a `for rows.Next()` loop hands over when the engine's step
      `k` (counting from 0) fails and `rows.Err()` is never read: the loop
      ends quietly, keeping the rows read before that step. */
  function Stepped<T>(full: seq<T>, stepFault: Option<nat>): seq<T> {
    full[..Cut(|full|, stepFault)]
  }

  /** How many of `n` rows are read: all of them unless step `k < n` fails. */
  function Cut(n: nat, stepFault: Option<nat>): (c: nat)
    ensures c <= n
  {
    if stepFault.Some? && stepFault.value < n then stepFault.value else n
  }

  /** What is handed over is the front of the whole result: all of it when
      no step fails, else the `k` rows before the failing step `k` (the whole
      result when it ends first). It keeps the order of the whole result and
      holds no row more often than the whole result does. */
  lemma SteppedSpec<T>(full: seq<T>, stepFault: Option<nat>, le: (T, T) -> bool)
    ensures Stepped(full, stepFault) <= full
    ensures stepFault.None? ==> Stepped(full, stepFault) == full
    ensures stepFault.Some? ==>
      |Stepped(full, stepFault)| == if stepFault.value < |full| then stepFault.value else |full|
    ensures Sorted(full, le) ==> Sorted(Stepped(full, stepFault), le)
    ensures multiset(Stepped(full, stepFault)) <= multiset(full)
  {
    var r := Stepped(full, stepFault);
    assert full == r + full[|r|..];
  }

  /** `listing` is the whole listing of the deputies and `read` the rows of
      it that a listing query hands over under `stepFault`. */
  ghost predicate ReadOf(deps: seq<Deputado>, listing: seq<Deputado>, stepFault: Option<nat>,
                         read: seq<Deputado>) {
    IsListing(deps, listing) && read == Stepped(listing, stepFault)
  }

  /** LIMIT ?: SQLite reads a negative limit as no limit. */
  function LimitCount(n: nat, limite: int): nat {
    if limite < 0 || n <= limite then n else limite
  }

  /** The ranking rows with their position blanked, to compare with Candidates. */
  function Unranked(out: seq<RankingDeputado>): seq<RankingDeputado> {
    seq(|out|, i requires 0 <= i < |out| => out[i].(posicao := 0))
  }

  /** ORDER BY total_gasto DESC over the groups: a reordering of them with
      the largest totals first. */
  ghost predicate OrderedByTotal(cands: seq<RankingDeputado>, s: seq<RankingDeputado>) {
    |s| == |cands| && multiset(s) == multiset(cands) && Sorted(s, TotalDesc)
  }

  /** BuscarRanking: some ordering of the groups by descending total (equal
      totals may come in any order), cut at `limite`, numbered 1, 2, ... */
  ghost predicate IsRanking(deps: seq<Deputado>, rows: seq<Despesa>, ano: int, limite: int,
                            out: seq<RankingDeputado>) {
    var cands := Candidates(deps, rows, ano);
    && |out| == LimitCount(|cands|, limite)
    && (forall i :: 0 <= i < |out| ==> out[i].posicao == i + 1)
    && exists s :: OrderedByTotal(cands, s) && Unranked(out) == s[..|out|]
  }

  /** Every ranking row is a deputy of the table with a positive total of
      that year, carrying that deputy's true total and number of expenses;
      with a limit there are at most `limite` rows, and the totals descend. */
  lemma RankingRows(deps: seq<Deputado>, rows: seq<Despesa>, ano: int, limite: int,
                    out: seq<RankingDeputado>)
    requires IsRanking(deps, rows, ano, limite, out)
    ensures limite >= 0 ==> |out| <= limite
    ensures Sorted(out, TotalDesc)
    ensures forall i :: 0 <= i < |out| ==>
      && out[i].deputado in deps
      && out[i].totalGasto > 0.0
      && out[i].totalGasto == TotalGasto(rows, out[i].deputado.id, ano)
      && out[i].numeroGastos == |Select(rows, out[i].deputado.id, ano)|
  {
    var cands := Candidates(deps, rows, ano);
    CandidatesSpec(deps, rows, ano);
    var s: seq<RankingDeputado> :| OrderedByTotal(cands, s) && Unranked(out) == s[..|out|];
    forall i | 0 <= i < |out|
      ensures out[i].deputado in deps && out[i].totalGasto > 0.0
      ensures out[i].totalGasto == TotalGasto(rows, out[i].deputado.id, ano)
      ensures out[i].numeroGastos == |Select(rows, out[i].deputado.id, ano)|
      ensures out[i].totalGasto == s[i].totalGasto
    {
      assert Unranked(out)[i] == s[i];
      assert s[i] in multiset(cands);
    }
  }

  /** A deputy with a positive total is missing from the ranking only when
      the limit was reached, and then every listed total is at least that deputy's. */
  lemma RankingComplete(deps: seq<Deputado>, rows: seq<Despesa>, ano: int, limite: int,
                        out: seq<RankingDeputado>, d: Deputado)
    requires IsRanking(deps, rows, ano, limite, out)
    requires d in deps && TotalGasto(rows, d.id, ano) > 0.0
    requires forall i :: 0 <= i < |out| ==> out[i].deputado != d
    ensures limite >= 0 && |out| == limite
    ensures forall i :: 0 <= i < |out| ==> TotalGasto(rows, d.id, ano) <= out[i].totalGasto
  {
    var cands := Candidates(deps, rows, ano);
    CandidatesSpec(deps, rows, ano);
    var s: seq<RankingDeputado> :| OrderedByTotal(cands, s) && Unranked(out) == s[..|out|];
    var e := Entry(d, rows, ano);
    assert e in multiset(s);
    var j :| 0 <= j < |s| && s[j] == e;
    forall i | 0 <= i < |out| ensures s[i] == out[i].(posicao := 0) && s[i] != e {
      assert Unranked(out)[i] == s[i];
    }
    assert |out| <= j < |cands|;
    forall i | 0 <= i < |out| ensures e.totalGasto <= out[i].totalGasto {
      assert TotalDesc(s[i], s[j]);
    }
  }

  // ----- the store -----

  class Store {
    var deputados: seq<Deputado>
    var despesas: seq<Despesa>
    /** The AUTOINCREMENT counter of `despesas` (its sqlite_sequence entry). */
    var sequence: nat

    ghost predicate Valid()
      reads this
    {
      UniqueIds(deputados) && UniqueKeys(despesas) && Numbered(despesas, sequence)
    }

    constructor ()
      ensures Valid() && deputados == [] && despesas == [] && sequence == 0
    {
      deputados := [];
      despesas := [];
      sequence := 0;
    }

    /** SalvarDeputado (db.go:92-107): upsert keyed by id. */
    method SalvarDeputado(d: Deputado, fault: bool) returns (ok: bool)
      requires Valid()
      modifies this
      ensures Valid()
      ensures ok == !fault
      ensures deputados == if ok then Upsert(old(deputados), d) else old(deputados)
      ensures despesas == old(despesas) && sequence == old(sequence)
    {
      if fault {
        return false;
      }
      var i := 0;
      while i < |deputados| && deputados[i].id != d.id
        invariant 0 <= i <= |deputados|
        invariant forall k :: 0 <= k < i ==> deputados[k].id != d.id
      {
        i := i + 1;
      }
      UpsertAt(deputados, d, i);
      UpsertSpec(deputados, d);
      if i < |deputados| {
        deputados := deputados[i := d];
      } else {
        deputados := deputados + [d];
      }
      return true;
    }

    /** SalvarDespesa (db.go:110-120): insert, ignoring a taken unique key. */
    method SalvarDespesa(d: Despesa, fault: bool) returns (ok: bool)
      requires Valid()
      modifies this
      ensures Valid()
      ensures ok == !fault
      ensures despesas == if ok then InsertOrIgnore(old(despesas), old(sequence), d) else old(despesas)
      ensures sequence == if ok then old(sequence) + 1 else old(sequence)
      ensures deputados == old(deputados)
    {
      if fault {
        return false;
      }
      var i := 0;
      while i < |despesas| && Key(despesas[i]) != Key(d)
        invariant 0 <= i <= |despesas|
        invariant forall k :: 0 <= k < i ==> Key(despesas[k]) != Key(d)
      {
        i := i + 1;
      }
      InsertOrIgnoreSpec(despesas, sequence, d);
      if i == |despesas| {
        despesas := despesas + [d.(id := sequence + 1)];
      }
      sequence := sequence + 1;
      return true;
    }

    /** BuscarDeputados (db.go:123-142): `fault` is a failing Query or Scan,
        `stepFault` the step at which reading the rows fails, which the loop
        swallows; `full` is the whole ordered result of the query. */
    method BuscarDeputados(fault: bool, stepFault: Option<nat>)
      returns (r: Result<seq<Deputado>, DbError>, ghost full: seq<Deputado>)
      ensures r.Failure? <==> fault
      ensures IsListing(deputados, full)
      ensures r.Success? ==> r.value == Stepped(full, stepFault)
    {
      NomeAscPreorder();
      var out: seq<Deputado> := [];
      var i := 0;
      while i < |deputados|
        invariant 0 <= i <= |deputados|
        invariant Sorted(out, NomeAsc)
        invariant multiset(out) == multiset(deputados[..i])
      {
        InsertSorted(deputados[i], out, NomeAsc);
        out := Insert(deputados[i], out, NomeAsc);
        assert deputados[..i + 1] == deputados[..i] + [deputados[i]];
        i := i + 1;
      }
      assert deputados[..i] == deputados;
      full := out;
      if fault {
        return Failure(EngineError), full;
      }
      return Success(Stepped(out, stepFault)), full;
    }

    /** BuscarGastos (db.go:145-172), with `fault`, `stepFault` and `full`
        as in BuscarDeputados. */
    method BuscarGastos(deputadoId: int, ano: int, fault: bool, stepFault: Option<nat>)
      returns (r: Result<seq<Despesa>, DbError>, ghost full: seq<Despesa>)
      ensures r.Failure? <==> fault
      ensures IsGastos(despesas, deputadoId, ano, full)
      ensures forall x :: x in full <==> x in despesas && x.deputadoId == deputadoId && x.ano == ano
      ensures r.Success? ==> r.value == Stepped(full, stepFault)
    {
      DataDescPreorder();
      var out: seq<Despesa> := [];
      var i := 0;
      while i < |despesas|
        invariant 0 <= i <= |despesas|
        invariant Sorted(out, DataDesc)
        invariant multiset(out) == multiset(Select(despesas[..i], deputadoId, ano))
      {
        assert despesas[..i + 1][..i] == despesas[..i];
        if despesas[i].deputadoId == deputadoId && despesas[i].ano == ano {
          InsertSorted(despesas[i], out, DataDesc);
          out := Insert(despesas[i], out, DataDesc);
        }
        i := i + 1;
      }
      assert despesas[..i] == despesas;
      SelectSpec(despesas, deputadoId, ano);
      forall x ensures x in out <==> x in Select(despesas, deputadoId, ano) {
        assert x in out <==> x in multiset(out);
      }
      full := out;
      if fault {
        return Failure(EngineError), full;
      }
      return Success(Stepped(out, stepFault)), full;
    }

    /** The groups of BuscarRanking as the engine orders them. */
    method RankingGroups(ano: int) returns (cands: seq<RankingDeputado>)
      ensures OrderedByTotal(Candidates(deputados, despesas, ano), cands)
    {
      TotalDescPreorder();
      cands := [];
      var i := 0;
      while i < |deputados|
        invariant 0 <= i <= |deputados|
        invariant Sorted(cands, TotalDesc)
        invariant multiset(cands) == multiset(Candidates(deputados[..i], despesas, ano))
      {
        assert deputados[..i + 1][..i] == deputados[..i];
        var e := Entry(deputados[i], despesas, ano);
        if e.totalGasto > 0.0 {
          InsertSorted(e, cands, TotalDesc);
          cands := Insert(e, cands, TotalDesc);
        }
        i := i + 1;
      }
      assert deputados[..i] == deputados;
      ghost var all := Candidates(deputados, despesas, ano);
      assert |cands| == |multiset(cands)| == |multiset(all)| == |all|;
    }

    /** BuscarRanking (db.go:175-209): aggregate, HAVING, ORDER BY, LIMIT in
        the engine, then the scan loop numbers the rows with `posicao`;
        `fault`, `stepFault` and `full` as in BuscarDeputados. */
    method BuscarRanking(ano: int, limite: int, fault: bool, stepFault: Option<nat>)
      returns (r: Result<seq<RankingDeputado>, DbError>, ghost full: seq<RankingDeputado>)
      ensures r.Failure? <==> fault
      ensures IsRanking(deputados, despesas, ano, limite, full)
      ensures r.Success? ==> r.value == Stepped(full, stepFault)
    {
      var cands := RankingGroups(ano);
      ghost var all := Candidates(deputados, despesas, ano);
      var n := LimitCount(|cands|, limite);
      var ranking: seq<RankingDeputado> := [];
      var posicao := 1;
      while posicao <= n
        invariant 1 <= posicao <= n + 1
        invariant |ranking| == posicao - 1
        invariant forall k :: 0 <= k < |ranking| ==> ranking[k] == cands[k].(posicao := k + 1)
      {
        ranking := ranking + [cands[posicao - 1].(posicao := posicao)];
        posicao := posicao + 1;
      }
      CandidatesSpec(deputados, despesas, ano);
      forall k | 0 <= k < n ensures Unranked(ranking)[k] == cands[k] {
        assert cands[k] in multiset(all);
      }
      assert Unranked(ranking) == cands[..n];
      full := ranking;
      if fault {
        return Failure(EngineError), full;
      }
      return Success(Stepped(ranking, stepFault)), full;
    }

    /** ContarDeputados (db.go:212-216). */
    method ContarDeputados(fault: bool) returns (r: Result<nat, DbError>)
      ensures r.Failure? <==> fault
      ensures r.Success? ==> r.value == |deputados|
    {
      if fault {
        return Failure(EngineError);
      }
      return Success(|deputados|);
    }

    /** ContarDespesas (db.go:219-223). */
    method ContarDespesas(ano: int, fault: bool) returns (r: Result<nat, DbError>)
      ensures r.Failure? <==> fault
      ensures r.Success? ==> r.value == CountAno(despesas, ano)
    {
      if fault {
        return Failure(EngineError);
      }
      return Success(CountAno(despesas, ano));
    }
  }
}
