/** The client page's financial summary and its record-type labels
    (src/pages/ClienteDetalhes.tsx). */
module ClienteDetalhes {
  import opened Rows

  datatype FinancialSummary = FinancialSummary(
    totalSpent: int,
    totalServices: nat,
    avgTicket: real,
    pendingAmount: int)

  /** `s.payment_status === 'pending'`: a null or any other status is not pending. */
  predicate IsPending(s: ServiceRow)
  {
    s.paymentStatus == Some("pending")
  }

  predicate IsNotPending(s: ServiceRow)
  {
    !IsPending(s)
  }

  /** The financial query: `.eq("client_id", id)` over the `services` table. */
  function ClientServices(table: seq<ServiceRow>, id: string): (r: seq<ServiceRow>)
    ensures forall s :: s in r <==> s in table && s.clientId == id
    ensures |r| <= |table|
  {
    FilterMembers(table, (s: ServiceRow) => s.clientId == id);
    Filter(table, (s: ServiceRow) => s.clientId == id)
  }

  /** The summary built from the client's services; `None` when the query gave no
      data, in which case the page keeps the summary it had. */
  function Summarize(data: Option<seq<ServiceRow>>): (r: Option<FinancialSummary>)
    ensures r.Some? <==> data.Some?
    ensures r.Some? ==> r.value.totalServices == |data.value|
    ensures r.Some? ==> r.value.totalSpent == TotalAmount(data.value)
    ensures r.Some? ==> r.value.pendingAmount == TotalAmount(Filter(data.value, IsPending))
    ensures r.Some? ==>
      r.value.totalSpent == r.value.pendingAmount + TotalAmount(Filter(data.value, IsNotPending))
    ensures r.Some? && AmountsNonNegative(data.value) ==> 0 <= r.value.pendingAmount <= r.value.totalSpent
    ensures r.Some? ==> r.value.avgTicket == AverageTicket(r.value.totalSpent, r.value.totalServices)
    ensures r.Some? && |data.value| == 0 ==> r.value.totalSpent == 0 && r.value.pendingAmount == 0
  {
    match data
    case None => None
    case Some(rows) =>
      var total := TotalAmount(rows);
      var pending := TotalAmount(Filter(rows, IsPending));
      TotalAmountPartition(rows, IsPending, IsNotPending);
      assert AmountsNonNegative(rows) ==> 0 <= pending <= total by {
        if AmountsNonNegative(rows) { PendingAtMostTotal(rows); }
      }
      Some(FinancialSummary(total, |rows|, AverageTicket(total, |rows|), pending))
  }

  /** Only the amounts of pending services are in the pending sum, so with
      non-negative amounts it never exceeds the total. */
  lemma PendingAtMostTotal(rows: seq<ServiceRow>)
    requires AmountsNonNegative(rows)
    ensures 0 <= TotalAmount(Filter(rows, IsPending)) <= TotalAmount(rows)
  {
    TotalAmountPartition(rows, IsPending, IsNotPending);
    FilterNonNegative(rows, IsPending);
    FilterNonNegative(rows, IsNotPending);
    TotalAmountNonNegative(Filter(rows, IsPending));
    TotalAmountNonNegative(Filter(rows, IsNotPending));
  }

  /** A partial payment is not pending: in any list of services its row stays
      out of the pending rows, and adding it leaves the pending sum as it was. */
  lemma PartialIsNotPending(rows: seq<ServiceRow>, s: ServiceRow)
    requires s.paymentStatus == Some("partial")
    ensures s !in Filter(rows, IsPending)
    ensures s in rows ==> s in Filter(rows, IsNotPending)
    ensures Filter(rows + [s], IsPending) == Filter(rows, IsPending)
    ensures TotalAmount(Filter(rows + [s], IsPending)) == TotalAmount(Filter(rows, IsPending))
  {
    FilterMembers(rows, IsPending);
    FilterMembers(rows, IsNotPending);
    assert (rows + [s])[..|rows + [s]| - 1] == rows;
  }

  const RecordTypeLabels: map<string, string> := map[
    "consultation" := "Consulta",
    "procedure" := "Procedimento",
    "follow_up" := "Retorno",
    "emergency" := "Emergência",
    "evaluation" := "Avaliação"]

  /** `types[type] || type`. */
  function RecordTypeLabel(t: string): (shown: string)
    ensures t in RecordTypeLabels ==> shown == RecordTypeLabels[t]
    ensures shown == t <==> t !in RecordTypeLabels
    ensures shown == "" <==> t == ""
  {
    LookupOr(RecordTypeLabels, t, t)
  }
}
