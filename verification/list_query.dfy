/**
 * The data-access layer's list operations (`getEstudantes`, `getEmpresas`, `getOrientadores`,
 * `getEstagiosObrigatorios`, `getEstagiosNaoObrigatorios`, `getAlertas`) and the dashboard tally
 * of `getDashboardStats`.  A list call builds a query for the hosted database step by step; here
 * the query is the list of clauses in the order they are chained.  What the database does with
 * the clauses is not modelled: rows, counts and errors come back as inputs.
 */
module ListQuery {
  import opened Types

  /** The six paginated listings. */
  datatype Entity = Estudantes | Empresas | Orientadores | EstagiosObrigatorios | EstagiosNaoObrigatorios | Alertas

  function TableName(e: Entity): string
  {
    match e
    case Estudantes => "estudantes"
    case Empresas => "empresas"
    case Orientadores => "orientadores"
    case EstagiosObrigatorios => "estagios_obrigatorios"
    case EstagiosNaoObrigatorios => "estagios_nao_obrigatorios"
    case Alertas => "alertas"
  }

  predicate IsInternship(e: Entity)
  {
    e.EstagiosObrigatorios? || e.EstagiosNaoObrigatorios?
  }

  /** Listings whose free-text search is applied (students, companies, advisors). */
  predicate SearchesText(e: Entity)
  {
    e.Estudantes? || e.Empresas? || e.Orientadores?
  }

  /** `*` or an explicit column list. */
  datatype ColumnSet = AllColumns | Columns(names: seq<string>)

  /** A related table embedded into each row under `alias`. */
  datatype Embed = Embed(alias: string, table: string, columns: ColumnSet)

  /** The argument of `.select(...)`: own columns plus embedded relations. */
  datatype Projection = Projection(columns: ColumnSet, embeds: seq<Embed>)

  /** The query builder calls, in the order the list operations chain them. */
  datatype Clause =
    | SelectCounted(table: string, projection: Projection)  // `.from(t).select(p, { count: 'exact' })`
    | SearchAny(columns: seq<string>, term: string)         // `.or('c1.ilike.%term%,c2.ilike.%term%,...')`
    | Eq(column: string, value: string)
    | Gte(column: string, value: string)
    | Lte(column: string, value: string)
    | OrderBy(column: string, ascending: bool)
    | Range(from: int, to: int)                             // inclusive row range

  /** `FilterOptions`, restricted to the fields some listing reads. */
  datatype Filters = Filters(
    search: Option<string>,
    status: Option<string>,
    tipo: Option<string>,
    orientadorId: Option<string>,
    dataInicio: Option<string>,
    dataTermino: Option<string>)

  datatype SortSpec = SortSpec(field: string, direction: Direction)

  /** `filters?.x` reads `undefined` when no filter object is passed. */
  function Given(filters: Option<Filters>): Filters
  {
    if filters.Some? then filters.value else Filters(None, None, None, None, None, None)
  }

  /** Columns of the advisors table that leave the server; the password hash `senha` is not one. */
  const AdvisorColumns: seq<string> :=
    ["id", "nome", "email", "telefone", "departamento", "status", "created_at", "updated_at"]

  const PasswordColumn: string := "senha"

  predicate Includes(cs: ColumnSet, column: string)
  {
    cs.AllColumns? || column in cs.names
  }

  /** Whether a projection read from `base` can return `column` of `table`. */
  predicate Exposes(p: Projection, base: string, table: string, column: string)
  {
    (base == table && Includes(p.columns, column))
    || exists em :: em in p.embeds && em.table == table && Includes(em.columns, column)
  }

  function SearchColumns(e: Entity): seq<string>
  {
    match e
    case Estudantes => ["nome", "email", "matricula"]
    case Empresas => ["nome", "cnpj", "email"]
    case Orientadores => ["nome", "email"]
    case _ => []
  }

  function ProjectionOf(e: Entity): (p: Projection)
    ensures !Exposes(p, TableName(e), "orientadores", PasswordColumn)
    ensures IsInternship(e) ==> |p.embeds| == 3 && p.embeds[2].table == "orientadores"
    ensures !IsInternship(e) ==> p.embeds == []
  {
    match e
    case Orientadores => Projection(Columns(AdvisorColumns), [])
    case EstagiosObrigatorios | EstagiosNaoObrigatorios =>
      Projection(AllColumns, [
        Embed("estudante", "estudantes", AllColumns),
        Embed("empresa", "empresas", AllColumns),
        Embed("orientador", "orientadores", Columns(AdvisorColumns))])
    case _ => Projection(AllColumns, [])
  }

  /** Ordering of a listing: the caller's sort spec, else the listing's default; alerts always newest first. */
  function OrderFor(e: Entity, sort: Option<SortSpec>): (c: Clause)
    ensures c.OrderBy?
    ensures e.Alertas? ==> c == OrderBy("created_at", false)
    ensures !e.Alertas? && sort.Some? ==> c.column == sort.value.field && (c.ascending <==> sort.value.direction == Asc)
    ensures !e.Alertas? && sort.None? && SearchesText(e) ==> c == OrderBy("nome", true)
    ensures !e.Alertas? && sort.None? && IsInternship(e) ==> c == OrderBy("data_inicio", false)
  {
    if e.Alertas? then OrderBy("created_at", false)
    else if sort.Some? then OrderBy(sort.value.field, sort.value.direction == Asc)
    else if IsInternship(e) then OrderBy("data_inicio", false)
    else OrderBy("nome", true)
  }

  /** First row of page `page`: `(page - 1) * limit`. */
  function RangeFrom(page: int, limit: int): int
  {
    (page - 1) * limit
  }

  /** Last row of page `page`: `from + limit - 1`. */
  function RangeTo(page: int, limit: int): int
  {
    RangeFrom(page, limit) + limit - 1
  }

  /** The string a filter carries, or the empty string when it is absent. */
  function ValueOf(o: Option<string>): string
  {
    if o.Some? then o.value else ""
  }

  /** One conditional step of the chain: the clause when its condition holds, nothing otherwise. */
  function Step(condition: bool, c: Clause): seq<Clause>
  {
    if condition then [c] else []
  }

  /** The filter clauses of a listing, in the order the operation adds them. */
  function FilterClauses(e: Entity, f: Filters): seq<Clause>
  {
    Step(SearchesText(e) && Truthy(f.search), SearchAny(SearchColumns(e), ValueOf(f.search)))
    + Step(Truthy(f.status), Eq("status", ValueOf(f.status)))
    + Step(IsInternship(e) && Truthy(f.orientadorId), Eq("orientador_id", ValueOf(f.orientadorId)))
    + Step(e.EstagiosObrigatorios? && Truthy(f.dataInicio), Gte("data_inicio", ValueOf(f.dataInicio)))
    + Step(e.EstagiosObrigatorios? && Truthy(f.dataTermino), Lte("data_termino", ValueOf(f.dataTermino)))
    + Step(e.Alertas? && Truthy(f.tipo), Eq("tipo", ValueOf(f.tipo)))
  }

  /** `if (condition) { query = query.<c> }`. */
  method ChainIf(query: seq<Clause>, condition: bool, c: Clause) returns (next: seq<Clause>)
    ensures next == query + Step(condition, c)
  {
    next := query;
    if condition {
      next := next + [c];
    }
  }

  /** A proof step: appending is associative. */
  lemma AppendAssoc(a: seq<Clause>, b: seq<Clause>, c: seq<Clause>)
    ensures (a + b) + c == a + (b + c)
  {
  }

  /** The six conditional filter steps of a list operation, applied to `query` in order. */
  method ChainFilters(query: seq<Clause>, e: Entity, f: Filters) returns (next: seq<Clause>)
    ensures next == query + FilterClauses(e, f)
  {
    var b1, c1 := SearchesText(e) && Truthy(f.search), SearchAny(SearchColumns(e), ValueOf(f.search));
    var b2, c2 := Truthy(f.status), Eq("status", ValueOf(f.status));
    var b3, c3 := IsInternship(e) && Truthy(f.orientadorId), Eq("orientador_id", ValueOf(f.orientadorId));
    var b4, c4 := e.EstagiosObrigatorios? && Truthy(f.dataInicio), Gte("data_inicio", ValueOf(f.dataInicio));
    var b5, c5 := e.EstagiosObrigatorios? && Truthy(f.dataTermino), Lte("data_termino", ValueOf(f.dataTermino));
    var b6, c6 := e.Alertas? && Truthy(f.tipo), Eq("tipo", ValueOf(f.tipo));
    next := ChainIf(query, b1, c1);
    next := ChainIf(next, b2, c2);
    AppendAssoc(query, Step(b1, c1), Step(b2, c2));
    next := ChainIf(next, b3, c3);
    AppendAssoc(query, Step(b1, c1) + Step(b2, c2), Step(b3, c3));
    next := ChainIf(next, b4, c4);
    AppendAssoc(query, Step(b1, c1) + Step(b2, c2) + Step(b3, c3), Step(b4, c4));
    next := ChainIf(next, b5, c5);
    AppendAssoc(query, Step(b1, c1) + Step(b2, c2) + Step(b3, c3) + Step(b4, c4), Step(b5, c5));
    next := ChainIf(next, b6, c6);
    AppendAssoc(query, Step(b1, c1) + Step(b2, c2) + Step(b3, c3) + Step(b4, c4) + Step(b5, c5), Step(b6, c6));
  }

  /**
   * The query chain of a list operation, clause by clause.  `sort` is ignored for `Alertas`,
   * whose operation takes no sort argument.
   */
  method BuildQuery(e: Entity, page: int, limit: int, filters: Option<Filters>, sort: Option<SortSpec>)
    returns (query: seq<Clause>)
    ensures query == [SelectCounted(TableName(e), ProjectionOf(e))] + FilterClauses(e, Given(filters))
                     + [OrderFor(e, sort), Range(RangeFrom(page, limit), RangeTo(page, limit))]
  {
    query := [SelectCounted(TableName(e), ProjectionOf(e))];
    query := ChainFilters(query, e, Given(filters));
    query := query + [OrderFor(e, sort)];
    var from := (page - 1) * limit;
    var to := from + limit - 1;
    query := query + [Range(from, to)];
  }

  /**
   * Exactly which filter clauses a listing adds: the search disjunction only for students,
   * companies and advisors, the advisor filter only for internships, the date bounds only for
   * mandatory internships, the type filter only for alerts, each only when its value is truthy.
   */
  lemma FilterClauseMembership(e: Entity, f: Filters, c: Clause)
    ensures c in FilterClauses(e, f) <==>
      || (SearchesText(e) && Truthy(f.search) && c == SearchAny(SearchColumns(e), f.search.value))
      || (Truthy(f.status) && c == Eq("status", f.status.value))
      || (IsInternship(e) && Truthy(f.orientadorId) && c == Eq("orientador_id", f.orientadorId.value))
      || (e.EstagiosObrigatorios? && Truthy(f.dataInicio) && c == Gte("data_inicio", f.dataInicio.value))
      || (e.EstagiosObrigatorios? && Truthy(f.dataTermino) && c == Lte("data_termino", f.dataTermino.value))
      || (e.Alertas? && Truthy(f.tipo) && c == Eq("tipo", f.tipo.value))
  {
  }

  /** The whole chain: one select first, the filters, then exactly one ordering and the range last. */
  lemma QueryShape(e: Entity, page: int, limit: int, f: Filters, sort: Option<SortSpec>)
    ensures var q := [SelectCounted(TableName(e), ProjectionOf(e))] + FilterClauses(e, f)
                     + [OrderFor(e, sort), Range(RangeFrom(page, limit), RangeTo(page, limit))];
      && (forall i :: 0 < i < |q| ==> !q[i].SelectCounted?)
      && (forall i :: 0 <= i < |q| && q[i].OrderBy? ==> i == |q| - 2)
      && (forall i :: 0 <= i < |q| && q[i].Range? ==> i == |q| - 1)
  {
    var q := [SelectCounted(TableName(e), ProjectionOf(e))] + FilterClauses(e, f)
             + [OrderFor(e, sort), Range(RangeFrom(page, limit), RangeTo(page, limit))];
    forall i | 0 < i < |q| - 2
      ensures !q[i].SelectCounted? && !q[i].OrderBy? && !q[i].Range?
    {
      assert q[i] == FilterClauses(e, f)[i - 1];
      FilterClauseMembership(e, f, q[i]);
    }
  }

  /** Internship listings never search free text, whatever the filters say. */
  lemma InternshipsIgnoreSearch(e: Entity, f: Filters)
    requires IsInternship(e)
    ensures forall c :: c in FilterClauses(e, f) ==> !c.SearchAny?
  {
    forall c | c in FilterClauses(e, f) {
      FilterClauseMembership(e, f, c);
    }
  }

  /** Only the mandatory-internship listing bounds the dates. */
  lemma OnlyMandatoryInternshipsBoundDates(e: Entity, f: Filters)
    requires !e.EstagiosObrigatorios?
    ensures forall c :: c in FilterClauses(e, f) ==> !c.Gte? && !c.Lte?
  {
    forall c | c in FilterClauses(e, f) {
      FilterClauseMembership(e, f, c);
    }
  }

  /** A page's range is inclusive and exactly `limit` rows wide; page 1 starts at row 0. */
  lemma RangeWidth(page: int, limit: int)
    ensures RangeTo(page, limit) - RangeFrom(page, limit) + 1 == limit
    ensures RangeFrom(1, limit) == 0
  {
  }

  /** The page and page size a listing uses when the caller leaves them out. */
  const DefaultPage: int := 1
  const DefaultLimit: int := 10

  /** A listing called without page arguments asks for rows 0 to 9 and counts pages of ten. */
  lemma DefaultPageIsFirstTen(total: nat)
    ensures RangeFrom(DefaultPage, DefaultLimit) == 0 && RangeTo(DefaultPage, DefaultLimit) == 9
    ensures TotalPages(total, DefaultLimit) == Finite(CeilDiv(total, 10))
  {
  }

  /** Consecutive pages tile the rows: one ends right before the next starts. */
  lemma PagesTile(page: int, limit: int)
    ensures RangeTo(page, limit) + 1 == RangeFrom(page + 1, limit)
  {
  }

  /** Every row index belongs to exactly one page: page `row / limit + 1`. */
  lemma RowOnExactlyOnePage(row: nat, limit: int, page: int)
    requires limit > 0
    ensures RangeFrom(page, limit) <= row <= RangeTo(page, limit) <==> page == row / limit + 1
  {
    if RangeFrom(page, limit) <= row <= RangeTo(page, limit) {
      DivUnique(row, limit, page - 1);
    }
  }

  lemma MulMonotone(a: int, b: int, k: int)
    requires a <= b && k > 0
    ensures a * k <= b * k
  {
  }

  lemma DivUnique(n: int, d: int, q: int)
    requires d > 0 && q * d <= n < q * d + d
    ensures n / d == q
  {
    var k := n / d;
    assert k * d <= n < k * d + d;
    if k < q {
      MulMonotone(k + 1, q, d);
    } else if k > q {
      MulMonotone(q + 1, k, d);
    }
  }

  /** `Math.ceil(a / b)` for a non-negative count and a positive page size. */
  function CeilDiv(a: nat, b: int): (r: nat)
    requires b > 0
    ensures r * b >= a
    ensures r == 0 || (r - 1) * b < a
  {
    if a % b == 0 then a / b else a / b + 1
  }

  /** `totalPages` is the least number of pages of `limit` rows that holds `total` rows. */
  lemma TotalPagesIsLeast(total: nat, limit: int, n: nat)
    requires limit > 0
    requires n * limit >= total
    ensures CeilDiv(total, limit) <= n
  {
    var r := CeilDiv(total, limit);
    if r > n {
      MulMonotone(n, r - 1, limit);
    }
  }

  /** A JavaScript number as `Math.ceil(total / limit)` can produce it. */
  datatype PageCount = Finite(n: int) | Infinity | NaN

  /**
   * `Math.ceil(total / limit)`: the ceiling for a positive page size, `NaN` for `0 / 0`,
   * `Infinity` for a positive count over a zero page size, and a page count of zero or below
   * for a negative page size.
   */
  function TotalPages(total: nat, limit: int): (r: PageCount)
    ensures limit > 0 ==> r == Finite(CeilDiv(total, limit))
    ensures limit == 0 ==> (r == NaN <==> total == 0) && (r == Infinity <==> total > 0)
    ensures limit < 0 ==> r.Finite? && r.n <= 0 && r.n * limit <= total < (r.n - 1) * limit
  {
    if limit > 0 then Finite(CeilDiv(total, limit))
    else if limit == 0 then (if total == 0 then NaN else Infinity)
    else Finite(-(total / -limit))
  }

  /** The rows the database returns for a list query: rows and count may each be null. */
  datatype QueryResult<T> = Threw | Failed(message: string) | Rows(data: Option<seq<T>>, count: Option<nat>)

  /** `PaginatedResponse`. */
  datatype Page<T> = Page(data: seq<T>, total: nat, page: int, limit: int, totalPages: PageCount)

  /** The envelope every list operation wraps its result in. */
  function Envelope<T>(page: int, limit: int, result: QueryResult<T>): (r: ApiResponse<Page<T>>)
    ensures result.Threw? ==> r == Err(InternalError)
    ensures result.Failed? ==> r == Err(result.message)
    ensures result.Rows? <==> r.Ok?
    ensures r.Ok? ==> r.message == None && r.data.page == page && r.data.limit == limit
    ensures r.Ok? ==> r.data.total == (if result.count.Some? then result.count.value else 0)
    ensures r.Ok? ==> r.data.data == (if result.data.Some? then result.data.value else [])
    ensures r.Ok? && limit > 0 ==>
              && r.data.totalPages.Finite?
              && r.data.totalPages.n * limit >= r.data.total
              && (r.data.totalPages.n == 0 <==> r.data.total == 0)
              && (r.data.totalPages.n == 0 || (r.data.totalPages.n - 1) * limit < r.data.total)
    ensures r.Ok? ==> r.data.totalPages == TotalPages(r.data.total, limit)
  {
    match result
    case Threw => Err(InternalError)
    case Failed(msg) => Err(msg)
    case Rows(data, count) =>
      var total := if count.Some? then count.value else 0;
      Ok(Page(if data.Some? then data.value else [], total, page, limit, TotalPages(total, limit)), None)
  }

  // ---------------------------------------------------------------------------------------------
  // getDashboardStats

  const EmAndamento: string := "Em Andamento"
  const Concluido: string := "Concluído"
  const Cancelado: string := "Cancelado"

  /** `rows.filter(e => e.status === label).length`. */
  function CountStatus(statuses: seq<string>, status: string): (n: nat)
    ensures n <= |statuses|
    ensures n == 0 <==> status !in statuses
  {
    if statuses == [] then 0
    else CountStatus(statuses[1..], status) + (if statuses[0] == status then 1 else 0)
  }

  /** The per-kind record of `getDashboardStats`: in progress, completed and all rows. */
  datatype ApiTally = ApiTally(emAndamento: nat, concluidos: nat, total: nat)

  function ApiTallyOf(statuses: seq<string>): (t: ApiTally)
    ensures t.total == |statuses|
    ensures t.emAndamento + t.concluidos <= t.total
  {
    var t := ApiTally(CountStatus(statuses, EmAndamento), CountStatus(statuses, Concluido), |statuses|);
    CountsOfTwoLabels(statuses, EmAndamento, Concluido);
    t
  }

  /** Two different labels never count the same row twice. */
  lemma {:induction false} CountsOfTwoLabels(statuses: seq<string>, a: string, b: string)
    requires a != b
    ensures CountStatus(statuses, a) + CountStatus(statuses, b) <= |statuses|
  {
    if statuses != [] {
      CountsOfTwoLabels(statuses[1..], a, b);
    }
  }

  /** As written, a cancelled internship is counted in `total` and in no bucket. */
  lemma ApiTallyDropsCancelled()
    ensures var t := ApiTallyOf([Cancelado]); t.total == 1 && t.emAndamento + t.concluidos == 0
  {
  }

  /** A tally that also has the cancelled bucket the dashboard page displays. */
  datatype Tally = Tally(emAndamento: nat, concluidos: nat, cancelados: nat, total: nat)

  function TallyOf(statuses: seq<string>): (t: Tally)
    ensures t.total == |statuses|
    ensures t.emAndamento == ApiTallyOf(statuses).emAndamento && t.concluidos == ApiTallyOf(statuses).concluidos
    ensures t.emAndamento + t.concluidos + t.cancelados + CountOthers(statuses) == t.total
  {
    PartitionByStatus(statuses);
    Tally(CountStatus(statuses, EmAndamento), CountStatus(statuses, Concluido), CountStatus(statuses, Cancelado), |statuses|)
  }

  /** Rows whose status is none of the three known labels. */
  function CountOthers(statuses: seq<string>): nat
  {
    if statuses == [] then 0
    else CountOthers(statuses[1..]) + (if statuses[0] in {EmAndamento, Concluido, Cancelado} then 0 else 1)
  }

  lemma {:induction false} PartitionByStatus(statuses: seq<string>)
    ensures CountStatus(statuses, EmAndamento) + CountStatus(statuses, Concluido)
            + CountStatus(statuses, Cancelado) + CountOthers(statuses) == |statuses|
  {
    if statuses != [] {
      PartitionByStatus(statuses[1..]);
    }
  }

  /** The seven sub-results of the fan-out; a `None` is a `null` count or data. */
  datatype StatsQueries = StatsQueries(
    estudantes: Option<nat>,
    empresas: Option<nat>,
    orientadores: Option<nat>,
    obrigatorios: Option<seq<string>>,
    naoObrigatorios: Option<seq<string>>,
    alertasPendentes: Option<nat>,
    certificados: Option<nat>)

  /** `DashboardStats` as `getDashboardStats` fills it. */
  datatype ApiDashboardStats = ApiDashboardStats(
    totalEstudantes: nat,
    totalEmpresas: nat,
    totalOrientadores: nat,
    obrigatorios: ApiTally,
    naoObrigatorios: ApiTally,
    alertasPendentes: nat,
    certificadosEmitidos: nat)

  function OrZero(n: Option<nat>): nat
  {
    if n.Some? then n.value else 0
  }

  function OrEmpty(rows: Option<seq<string>>): seq<string>
  {
    if rows.Some? then rows.value else []
  }

  /**
   * `getDashboardStats`: `fanOut` is `None` when the combined promise rejects.  A sub-query that
   * returns an error yields a null count or null data, which reads as 0 or as no rows.
   */
  function GetDashboardStats(fanOut: Option<StatsQueries>): (r: ApiResponse<ApiDashboardStats>)
    ensures fanOut.None? <==> r == Err(InternalError)
    ensures r.Ok? ==> r.message == None
    ensures r.Ok? ==> r.data.obrigatorios.total == |OrEmpty(fanOut.value.obrigatorios)|
                      && r.data.naoObrigatorios.total == |OrEmpty(fanOut.value.naoObrigatorios)|
    ensures r.Ok? ==> r.data.obrigatorios.emAndamento + r.data.obrigatorios.concluidos <= r.data.obrigatorios.total
                      && r.data.naoObrigatorios.emAndamento + r.data.naoObrigatorios.concluidos <= r.data.naoObrigatorios.total
    ensures r.Ok? && fanOut.value.estudantes.None? ==> r.data.totalEstudantes == 0
    ensures r.Ok? ==>
              var q := fanOut.value;
              && r.data.totalEstudantes == OrZero(q.estudantes)
              && r.data.totalEmpresas == OrZero(q.empresas)
              && r.data.totalOrientadores == OrZero(q.orientadores)
              && r.data.alertasPendentes == OrZero(q.alertasPendentes)
              && r.data.certificadosEmitidos == OrZero(q.certificados)
    ensures r.Ok? ==>
              var q := fanOut.value;
              && r.data.obrigatorios.emAndamento == CountStatus(OrEmpty(q.obrigatorios), EmAndamento)
              && r.data.obrigatorios.concluidos == CountStatus(OrEmpty(q.obrigatorios), Concluido)
              && r.data.naoObrigatorios.emAndamento == CountStatus(OrEmpty(q.naoObrigatorios), EmAndamento)
              && r.data.naoObrigatorios.concluidos == CountStatus(OrEmpty(q.naoObrigatorios), Concluido)
  {
    match fanOut
    case None => Err(InternalError)
    case Some(q) =>
      Ok(ApiDashboardStats(
        OrZero(q.estudantes), OrZero(q.empresas), OrZero(q.orientadores),
        ApiTallyOf(OrEmpty(q.obrigatorios)), ApiTallyOf(OrEmpty(q.naoObrigatorios)),
        OrZero(q.alertasPendentes), OrZero(q.certificados)), None)
  }
}
