/**
 * The `GET /api/dashboard/stats` route: a method guard, a Bearer-token guard, then a zeroed
 * statistics record that is filled field by field from the database, the two internship
 * kinds by folding `SELECT status, COUNT(*) ... GROUP BY status` rows into four buckets.
 *
 * Token verification, the database and `Math.random` are parameters: `verifies(token, key)`
 * stands for `jwt.verify`, `db` is `None` when opening the database or a query throws, and
 * `alertSample` is the value `Math.floor(Math.random() * 5)` produced.
 */
module StatsEndpoint {
  import opened Types
  import ListQuery

  /** One row of the grouped count query. */
  datatype GroupRow = GroupRow(status: string, count: int)

  /** The per-kind record `{total, em_andamento, concluidos, cancelados}`. */
  datatype Buckets = Buckets(total: int, emAndamento: int, concluidos: int, cancelados: int)

  /** The statistics record the route answers with. */
  datatype Stats = Stats(
    totalEstudantes: nat,
    totalEmpresas: nat,
    totalOrientadores: nat,
    obrigatorios: Buckets,
    naoObrigatorios: Buckets,
    certificadosEmitidos: nat,
    alertasPendentes: nat)

  /** What the database answers: a `None` count is a missing row or a `null`/`0` count. */
  datatype StatsDb = StatsDb(
    estudantes: Option<nat>,
    empresas: Option<nat>,
    orientadores: Option<nat>,
    obrigatorios: seq<GroupRow>,
    naoObrigatorios: seq<GroupRow>,
    certificados: Option<nat>)

  const MissingToken: string := "Token de autenticação necessário"
  const InvalidToken: string := "Token inválido"
  const BearerPrefix: string := "Bearer "

  const NoBuckets: Buckets := Buckets(0, 0, 0, 0)

  /** The record before any query has been answered. */
  const ZeroStats: Stats := Stats(0, 0, 0, NoBuckets, NoBuckets, 0, 0)

  /**
   * The token of an `Authorization` header in the Bearer scheme (section 2.1 of RFC 6750):
   * present only when the header starts with `Bearer `, and then everything after those
   * seven characters.
   */
  function BearerToken(header: Option<string>): (token: Option<string>)
    ensures token.Some? <==> header.Some? && |BearerPrefix| <= |header.value| && header.value[..|BearerPrefix|] == BearerPrefix
    ensures token.Some? ==> header.value == BearerPrefix + token.value
  {
    if header.Some? && |BearerPrefix| <= |header.value| && header.value[..|BearerPrefix|] == BearerPrefix
    then Some(header.value[|BearerPrefix|..])
    else None
  }

  /** A header built from any token, even an empty one, gives that token back. */
  lemma BearerRoundTrip(token: string)
    ensures BearerToken(Some(BearerPrefix + token)) == Some(token)
  {
    assert (BearerPrefix + token)[..|BearerPrefix|] == BearerPrefix;
  }

  /** Sum of `count` over all rows, whatever their status. */
  function SumCounts(rows: seq<GroupRow>): int
  {
    if rows == [] then 0 else SumCounts(rows[..|rows| - 1]) + rows[|rows| - 1].count
  }

  /** The count of the last row carrying `status`, or 0 when no row carries it. */
  function LastCount(rows: seq<GroupRow>, status: string): int
  {
    if rows == [] then 0
    else if rows[|rows| - 1].status == status then rows[|rows| - 1].count
    else LastCount(rows[..|rows| - 1], status)
  }

  /** What the fold computes, stated bucket by bucket. */
  function BucketsOf(rows: seq<GroupRow>): Buckets
  {
    Buckets(SumCounts(rows), LastCount(rows, ListQuery.EmAndamento),
            LastCount(rows, ListQuery.Concluido), LastCount(rows, ListQuery.Cancelado))
  }

  /**
   * The `forEach` over the grouped rows: every count is added to `total`, and a row with one of
   * the three known labels overwrites that label's bucket.
   */
  method FoldStatusRows(rows: seq<GroupRow>) returns (b: Buckets)
    ensures b == BucketsOf(rows)
  {
    b := NoBuckets;
    for i := 0 to |rows|
      invariant b == BucketsOf(rows[..i])
    {
      var row := rows[i];
      assert rows[..i + 1][..i] == rows[..i];
      b := b.(total := b.total + row.count);
      if row.status == ListQuery.EmAndamento {
        b := b.(emAndamento := row.count);
      } else if row.status == ListQuery.Concluido {
        b := b.(concluidos := row.count);
      } else if row.status == ListQuery.Cancelado {
        b := b.(cancelados := row.count);
      }
    }
    assert rows[..|rows|] == rows;
  }

  /** The route: 405, 401 for a missing or malformed header, 401 for a rejected token, 500, 200. */
  method Handle(httpMethod: string, authorization: Option<string>, env: Option<string>,
                verifies: (string, string) -> bool, db: Option<StatsDb>, alertSample: nat)
    returns (res: HttpResponse<Stats>)
    requires alertSample < 5
    ensures httpMethod != "GET" ==> res == HttpResponse(405, Err(MethodNotAllowed))
    ensures httpMethod == "GET" && BearerToken(authorization).None? ==> res == HttpResponse(401, Err(MissingToken))
    ensures httpMethod == "GET" && BearerToken(authorization).Some? && !verifies(BearerToken(authorization).value, Secret(env))
            ==> res == HttpResponse(401, Err(InvalidToken))
    ensures res.status == 200 <==> (httpMethod == "GET" && BearerToken(authorization).Some?
                                    && verifies(BearerToken(authorization).value, Secret(env)) && db.Some?)
    ensures res.status == 500 ==> res.body == Err(InternalError)
    ensures (httpMethod == "GET" && BearerToken(authorization).Some? && verifies(BearerToken(authorization).value, Secret(env))
             && db.None?)
            ==> res == HttpResponse(500, Err(InternalError))
    ensures res.status == 200 ==> res.body.Ok? && res.body.message == None
    ensures res.status == 200 ==>
              var s := res.body.data;
              && s.totalEstudantes == ListQuery.OrZero(db.value.estudantes)
              && s.totalEmpresas == ListQuery.OrZero(db.value.empresas)
              && s.totalOrientadores == ListQuery.OrZero(db.value.orientadores)
              && s.obrigatorios == BucketsOf(db.value.obrigatorios)
              && s.naoObrigatorios == BucketsOf(db.value.naoObrigatorios)
              && s.certificadosEmitidos == ListQuery.OrZero(db.value.certificados)
              && s.alertasPendentes < 5
  {
    if httpMethod != "GET" {
      return HttpResponse(405, Err(MethodNotAllowed));
    }
    var token := BearerToken(authorization);
    if token.None? {
      return HttpResponse(401, Err(MissingToken));
    }
    if !verifies(token.value, Secret(env)) {
      return HttpResponse(401, Err(InvalidToken));
    }
    if db.None? {
      return HttpResponse(500, Err(InternalError));
    }
    var stats := ZeroStats;
    stats := stats.(totalEstudantes := ListQuery.OrZero(db.value.estudantes));
    stats := stats.(totalEmpresas := ListQuery.OrZero(db.value.empresas));
    stats := stats.(totalOrientadores := ListQuery.OrZero(db.value.orientadores));
    var obrigatorios := FoldStatusRows(db.value.obrigatorios);
    stats := stats.(obrigatorios := obrigatorios);
    var naoObrigatorios := FoldStatusRows(db.value.naoObrigatorios);
    stats := stats.(naoObrigatorios := naoObrigatorios);
    stats := stats.(certificadosEmitidos := ListQuery.OrZero(db.value.certificados));
    stats := stats.(alertasPendentes := alertSample);
    return HttpResponse(200, Ok(stats, None));
  }

  /** A status no row carries keeps the zero it started with. */
  lemma {:induction false} AbsentStatusIsZero(rows: seq<GroupRow>, status: string)
    requires forall i :: 0 <= i < |rows| ==> rows[i].status != status
    ensures LastCount(rows, status) == 0
  {
    if rows != [] {
      AbsentStatusIsZero(rows[..|rows| - 1], status);
    }
  }

  /** No two rows share a status, as `GROUP BY status` guarantees. */
  predicate DistinctStatuses(rows: seq<GroupRow>)
  {
    forall i, j :: 0 <= i < j < |rows| ==> rows[i].status != rows[j].status
  }

  /** With distinct statuses, a bucket holds exactly the count of the row carrying its label. */
  lemma {:induction false} BucketIsThatRowsCount(rows: seq<GroupRow>, k: nat)
    requires DistinctStatuses(rows)
    requires k < |rows|
    ensures LastCount(rows, rows[k].status) == rows[k].count
  {
    if k < |rows| - 1 {
      BucketIsThatRowsCount(rows[..|rows| - 1], k);
    }
  }

  /** Sum of the counts of the rows whose status is none of the three known labels. */
  function OtherCounts(rows: seq<GroupRow>): int
  {
    if rows == [] then 0
    else OtherCounts(rows[..|rows| - 1])
         + (if rows[|rows| - 1].status in {ListQuery.EmAndamento, ListQuery.Concluido, ListQuery.Cancelado}
            then 0 else rows[|rows| - 1].count)
  }

  function KnownCount(rows: seq<GroupRow>): int
  {
    LastCount(rows, ListQuery.EmAndamento) + LastCount(rows, ListQuery.Concluido) + LastCount(rows, ListQuery.Cancelado)
  }

  /** Appending a row whose status is new to the prefix moves its count into one side of the split. */
  lemma KnownCountStep(rows: seq<GroupRow>)
    requires rows != []
    requires forall i :: 0 <= i < |rows| - 1 ==> rows[i].status != rows[|rows| - 1].status
    ensures var last := rows[|rows| - 1];
            KnownCount(rows) == KnownCount(rows[..|rows| - 1])
              + (if last.status in {ListQuery.EmAndamento, ListQuery.Concluido, ListQuery.Cancelado} then last.count else 0)
  {
    var last := rows[|rows| - 1];
    if last.status in {ListQuery.EmAndamento, ListQuery.Concluido, ListQuery.Cancelado} {
      AbsentStatusIsZero(rows[..|rows| - 1], last.status);
    }
  }

  /**
   * With distinct statuses the total splits exactly into the three buckets and the counts of the
   * other labels, which touch only the total.
   */
  lemma {:induction false} TotalSplits(rows: seq<GroupRow>)
    requires DistinctStatuses(rows)
    ensures SumCounts(rows) == KnownCount(rows) + OtherCounts(rows)
  {
    if rows != [] {
      TotalSplits(rows[..|rows| - 1]);
      KnownCountStep(rows);
    }
  }

  /** Counts of labels other than the three only add to the total. */
  lemma {:induction false} OtherCountsNonNegative(rows: seq<GroupRow>)
    requires forall i :: 0 <= i < |rows| ==> rows[i].count >= 0
    ensures OtherCounts(rows) >= 0
  {
    if rows != [] {
      OtherCountsNonNegative(rows[..|rows| - 1]);
    }
  }

  /** With distinct statuses and non-negative counts, the three buckets never exceed the total. */
  lemma BucketsWithinTotal(rows: seq<GroupRow>)
    requires DistinctStatuses(rows)
    requires forall i :: 0 <= i < |rows| ==> rows[i].count >= 0
    ensures var b := BucketsOf(rows); b.emAndamento + b.concluidos + b.cancelados <= b.total
  {
    TotalSplits(rows);
    OtherCountsNonNegative(rows);
  }

  /** Without distinct statuses the bound fails: a repeated label is added twice to the total but kept once. */
  lemma RepeatedStatusKeepsLastCount()
    ensures var b := BucketsOf([GroupRow(ListQuery.Cancelado, 2), GroupRow(ListQuery.Cancelado, 3)]);
            b.total == 5 && b.cancelados == 3
  {
    var rows := [GroupRow(ListQuery.Cancelado, 2), GroupRow(ListQuery.Cancelado, 3)];
    assert rows[..1] == [rows[0]] && rows[..1][..0] == [];
    assert SumCounts(rows[..1]) == 2;
  }

  // ---------------------------------------------------------------------------------------------
  // Agreement with the list service's tally

  /** `rows` is the answer of `GROUP BY status` over the internships whose statuses are `statuses`. */
  predicate IsGrouping(rows: seq<GroupRow>, statuses: seq<string>)
  {
    && DistinctStatuses(rows)
    && (forall i :: 0 <= i < |rows| ==> rows[i].count == ListQuery.CountStatus(statuses, rows[i].status))
    && (forall s :: s in statuses ==> exists i :: 0 <= i < |rows| && rows[i].status == s)
  }

  /** `statuses` without every occurrence of `status`. */
  function Without(statuses: seq<string>, status: string): (r: seq<string>)
    ensures forall s :: s in r <==> s in statuses && s != status
    ensures |r| == |statuses| - ListQuery.CountStatus(statuses, status)
  {
    if statuses == [] then []
    else if statuses[0] == status then Without(statuses[1..], status)
    else [statuses[0]] + Without(statuses[1..], status)
  }

  lemma {:induction false} CountWithout(statuses: seq<string>, status: string, other: string)
    requires other != status
    ensures ListQuery.CountStatus(Without(statuses, status), other) == ListQuery.CountStatus(statuses, other)
  {
    if statuses != [] {
      CountWithout(statuses[1..], status, other);
      if statuses[0] != status {
        assert ([statuses[0]] + Without(statuses[1..], status))[1..] == Without(statuses[1..], status);
      }
    }
  }

  /** A proof step: the first status of a non-empty list is one of its statuses. */
  lemma HeadIsMember(statuses: seq<string>)
    ensures statuses == [] || statuses[0] in statuses
  {
  }

  /** The grouped counts add up to the number of internships. */
  lemma {:induction false} GroupedTotal(rows: seq<GroupRow>, statuses: seq<string>)
    requires IsGrouping(rows, statuses)
    ensures SumCounts(rows) == |statuses|
  {
    if rows == [] {
      HeadIsMember(statuses);
    } else {
      var last := rows[|rows| - 1];
      var prefix := rows[..|rows| - 1];
      var rest := Without(statuses, last.status);
      forall i | 0 <= i < |prefix|
        ensures prefix[i].count == ListQuery.CountStatus(rest, prefix[i].status)
      {
        CountWithout(statuses, last.status, prefix[i].status);
      }
      forall s | s in rest
        ensures exists i :: 0 <= i < |prefix| && prefix[i].status == s
      {
        var i :| 0 <= i < |rows| && rows[i].status == s;
        assert prefix[i].status == s;
      }
      GroupedTotal(prefix, rest);
    }
  }

  /** Every bucket of a grouping is the number of internships with that status. */
  lemma GroupedBucket(rows: seq<GroupRow>, statuses: seq<string>, status: string)
    requires IsGrouping(rows, statuses)
    ensures LastCount(rows, status) == ListQuery.CountStatus(statuses, status)
  {
    if k :| 0 <= k < |rows| && rows[k].status == status {
      BucketIsThatRowsCount(rows, k);
    } else {
      AbsentStatusIsZero(rows, status);
    }
  }

  /**
   * Folding the grouped rows of any list of internships gives the four numbers of the corrected
   * per-status tally, and in particular the same total, in-progress and completed numbers as the
   * list service's tally, which has no cancelled bucket.
   */
  lemma FoldAgreesWithTally(rows: seq<GroupRow>, statuses: seq<string>)
    requires IsGrouping(rows, statuses)
    ensures var b, t := BucketsOf(rows), ListQuery.TallyOf(statuses);
            b == Buckets(t.total, t.emAndamento, t.concluidos, t.cancelados)
    ensures var b, t := BucketsOf(rows), ListQuery.ApiTallyOf(statuses);
            b.total == t.total && b.emAndamento == t.emAndamento && b.concluidos == t.concluidos
  {
    GroupedTotal(rows, statuses);
    GroupedBucket(rows, statuses, ListQuery.EmAndamento);
    GroupedBucket(rows, statuses, ListQuery.Concluido);
    GroupedBucket(rows, statuses, ListQuery.Cancelado);
  }
}
