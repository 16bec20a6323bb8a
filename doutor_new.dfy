/** The doctor dashboard's daily summary and its two badge tables
    (src/pages/DoutorNew.tsx). */
module DoutorNew {
  import opened Rows

  datatype DailySummary = DailySummary(
    totalRevenue: int,
    totalServices: nat,
    totalClients: nat,
    avgTicket: real)

  predicate CompletedOn(s: ServiceRow, date: string)
  {
    s.serviceDate == date && s.status == Some("completed")
  }

  /** The summary query: `.eq("service_date", selectedDate).eq("status", "completed")`. */
  function DailyQuery(table: seq<ServiceRow>, date: string): (r: seq<ServiceRow>)
    ensures forall s :: s in r <==> s in table && CompletedOn(s, date)
  {
    FilterMembers(table, s => CompletedOn(s, date));
    Filter(table, s => CompletedOn(s, date))
  }

  /** `new Set(rows.map(s => s.client_id))`. */
  function ClientIds(rows: seq<ServiceRow>): (ids: set<string>)
    ensures forall i :: 0 <= i < |rows| ==> rows[i].clientId in ids
  {
    if rows == [] then {} else ClientIds(rows[..|rows| - 1]) + {rows[|rows| - 1].clientId}
  }

  /** The set holds exactly the client ids of the rows, and there are no more of
      them than rows; a non-empty list has at least one. */
  lemma {:induction false} ClientIdsBounds(rows: seq<ServiceRow>)
    ensures forall c :: c in ClientIds(rows) <==> exists s :: s in rows && s.clientId == c
    ensures |ClientIds(rows)| <= |rows|
    ensures |ClientIds(rows)| == 0 <==> |rows| == 0
  {
    if rows != [] {
      var front, last := rows[..|rows| - 1], rows[|rows| - 1];
      ClientIdsBounds(front);
      assert rows == front + [last];
      assert last.clientId in ClientIds(rows);
    }
  }

  /** The dashboard's day summary; `None` when the query gave no data, in which
      case the page keeps the summary it had. */
  function Summarize(data: Option<seq<ServiceRow>>): (r: Option<DailySummary>)
    ensures r.Some? <==> data.Some?
    ensures r.Some? ==> r.value.totalServices == |data.value|
    ensures r.Some? ==> r.value.totalRevenue == TotalAmount(data.value)
    ensures r.Some? ==> r.value.totalClients <= r.value.totalServices
    ensures r.Some? ==> (r.value.totalClients == 0 <==> r.value.totalServices == 0)
    ensures r.Some? ==> r.value.totalClients == |set s | s in data.value :: s.clientId|
    ensures r.Some? ==> r.value.avgTicket == AverageTicket(r.value.totalRevenue, r.value.totalServices)
    ensures r.Some? && AmountsNonNegative(data.value) ==> r.value.totalRevenue >= 0
  {
    match data
    case None => None
    case Some(rows) =>
      var total := TotalAmount(rows);
      var clients := ClientIds(rows);
      ClientIdsBounds(rows);
      assert clients == set s | s in rows :: s.clientId;
      assert AmountsNonNegative(rows) ==> total >= 0 by {
        if AmountsNonNegative(rows) { TotalAmountNonNegative(rows); }
      }
      Some(DailySummary(total, |rows|, |clients|, AverageTicket(total, |rows|)))
  }

  datatype Variant = Default | Secondary | Destructive | Outline

  datatype StatusBadge = StatusBadge(text: string, variant: Variant)

  const StatusBadges: map<string, StatusBadge> := map[
    "scheduled" := StatusBadge("Agendado", Outline),
    "in_progress" := StatusBadge("Em Andamento", Default),
    "completed" := StatusBadge("Concluído", Secondary),
    "cancelled" := StatusBadge("Cancelado", Destructive)]

  /** `statusMap[status] || { label: status, variant: "outline" }`. */
  function GetStatusBadge(status: string): (b: StatusBadge)
    ensures status in StatusBadges ==> b == StatusBadges[status]
    ensures b.text == status <==> status !in StatusBadges
    ensures b.variant == Outline <==> status == "scheduled" || status !in StatusBadges
  {
    LookupOr(StatusBadges, status, StatusBadge(status, Outline))
  }

  datatype PaymentBadge = PaymentBadge(text: string, className: string)

  const MutedClass := "bg-muted text-muted-foreground"

  const PaymentBadges: map<string, PaymentBadge> := map[
    "pending" := PaymentBadge("Pendente", "bg-yellow-500/10 text-yellow-700"),
    "partial" := PaymentBadge("Parcial", "bg-blue-500/10 text-blue-700"),
    "completed" := PaymentBadge("Pago", "bg-green-500/10 text-green-700"),
    "cancelled" := PaymentBadge("Cancelado", "bg-red-500/10 text-red-700")]

  /** `statusMap[status] || { label: status, className: "bg-muted ..." }`. */
  function GetPaymentBadge(status: string): (b: PaymentBadge)
    ensures status in PaymentBadges ==> b == PaymentBadges[status]
    ensures b.text == status <==> status !in PaymentBadges
    ensures b.className == MutedClass <==> status !in PaymentBadges
  {
    LookupOr(PaymentBadges, status, PaymentBadge(status, MutedClass))
  }
}
