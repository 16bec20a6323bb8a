/** Row shapes of the backing store (the generated `Row` types of the schema) and the
    one fold every report page shares: a sum of `total_amount` in which a null
    amount counts as 0 (`s.total_amount || 0`).

    Monetary amounts and quantities are integers; fetched rows are plain inputs. */
module Rows {

  datatype Option<+T> = None | Some(value: T)

  /** The `app_role` enum. */
  datatype AppRole = Recepcionista | Medicacao | Doutor

  /** The text the store uses for each role. */
  function RoleText(r: AppRole): (s: string)
    ensures s != ""
  {
    match r
    case Recepcionista => "recepcionista"
    case Medicacao => "medicacao"
    case Doutor => "doutor"
  }

  lemma RoleTextInjective(a: AppRole, b: AppRole)
    ensures RoleText(a) == RoleText(b) <==> a == b
  {
  }

  /** The role a text names, if any. */
  function ParseRole(s: string): (r: Option<AppRole>)
    ensures r.Some? ==> RoleText(r.value) == s
    ensures r.None? ==> forall a :: RoleText(a) != s
  {
    if s == "recepcionista" then Some(Recepcionista)
    else if s == "medicacao" then Some(Medicacao)
    else if s == "doutor" then Some(Doutor)
    else None
  }

  /** Reading back the text of a role gives the role. */
  lemma ParseRoleText(a: AppRole)
    ensures ParseRole(RoleText(a)) == Some(a)
  {
  }

  /** A `services` row. */
  datatype ServiceRow = ServiceRow(
    clientId: string,
    completedAt: Option<string>,
    completedBy: Option<string>,
    createdAt: string,
    createdBy: string,
    id: string,
    notes: Option<string>,
    paymentStatus: Option<string>,
    serviceDate: string,
    serviceTime: string,
    serviceType: string,
    status: Option<string>,
    totalAmount: Option<int>,
    updatedAt: string)

  /** A `service_items` row. */
  datatype ServiceItemRow = ServiceItemRow(
    createdAt: string,
    discount: Option<int>,
    id: string,
    notes: Option<string>,
    productId: string,
    quantity: int,
    serviceId: string,
    subtotal: int,
    unitPrice: int)

  /** A `queue` row. `called_at` is a timestamp, kept as its instant (an integer). */
  datatype QueueRow = QueueRow(
    calledAt: Option<int>,
    createdAt: string,
    id: string,
    queueDate: string,
    queueNumber: int,
    serviceId: string,
    status: Option<string>,
    updatedAt: string)

  /** `s.total_amount || 0`: a null amount contributes nothing. */
  function AmountOrZero(s: ServiceRow): (a: int)
    ensures s.totalAmount.None? ==> a == 0
    ensures s.totalAmount.Some? ==> a == s.totalAmount.value
  {
    match s.totalAmount
    case Some(v) => v
    case None => 0
  }

  /** `rows.reduce((sum, s) => sum + (s.total_amount || 0), 0)`, folded left to right. */
  function TotalAmount(rows: seq<ServiceRow>): (t: int)
    ensures rows == [] ==> t == 0
    ensures |rows| == 1 ==> t == AmountOrZero(rows[0])
  {
    if rows == [] then 0 else TotalAmount(rows[..|rows| - 1]) + AmountOrZero(rows[|rows| - 1])
  }

  /** The sum of two runs of rows is the sum of their sums. */
  lemma {:induction false} TotalAmountAppend(a: seq<ServiceRow>, b: seq<ServiceRow>)
    ensures TotalAmount(a + b) == TotalAmount(a) + TotalAmount(b)
    decreases |b|
  {
    if b != [] {
      var front := b[..|b| - 1];
      TotalAmountAppend(a, front);
      assert (a + b)[..|a + b| - 1] == a + front;
    } else {
      assert a + b == a;
    }
  }

  /** `table[key] || fallback` for a table whose entries are all truthy: the
      entry when the key has one, the fallback otherwise. */
  function LookupOr<K, V>(table: map<K, V>, key: K, fallback: V): (v: V)
    ensures key in table ==> v == table[key]
    ensures key !in table ==> v == fallback
  {
    if key in table then table[key] else fallback
  }

  /** `rows.filter(keep)`, or a `.eq(...)` condition of a query. */
  function Filter<T>(rows: seq<T>, keep: T -> bool): (r: seq<T>)
    ensures |r| <= |rows|
  {
    if rows == [] then []
    else if keep(rows[|rows| - 1]) then Filter(rows[..|rows| - 1], keep) + [rows[|rows| - 1]]
    else Filter(rows[..|rows| - 1], keep)
  }

  /** The filtered rows are exactly the rows `keep` accepts. */
  lemma {:induction false} FilterMembers<T>(rows: seq<T>, keep: T -> bool)
    ensures forall s :: s in Filter(rows, keep) <==> s in rows && keep(s)
  {
    if rows != [] {
      FilterMembers(rows[..|rows| - 1], keep);
      assert rows == rows[..|rows| - 1] + [rows[|rows| - 1]];
    }
  }

  /** A filter keeps each row at most as often as the input holds it. */
  lemma {:induction false} FilterSubMultiset<T>(rows: seq<T>, keep: T -> bool)
    ensures multiset(Filter(rows, keep)) <= multiset(rows)
  {
    if rows != [] {
      var front := rows[..|rows| - 1];
      FilterSubMultiset(front, keep);
      assert rows == front + [rows[|rows| - 1]];
    }
  }

  predicate AmountsNonNegative(rows: seq<ServiceRow>)
  {
    forall s :: s in rows ==> AmountOrZero(s) >= 0
  }

  /** The total splits into the part `keep` selects and the part `drop`, its
      complement, selects. */
  lemma {:induction false} TotalAmountPartition(rows: seq<ServiceRow>, keep: ServiceRow -> bool, drop: ServiceRow -> bool)
    requires forall s :: drop(s) == !keep(s)
    ensures TotalAmount(rows) == TotalAmount(Filter(rows, keep)) + TotalAmount(Filter(rows, drop))
  {
    if rows != [] {
      var front, last := rows[..|rows| - 1], rows[|rows| - 1];
      TotalAmountPartition(front, keep, drop);
      var kept, dropped := Filter(front, keep), Filter(front, drop);
      if keep(last) {
        assert Filter(rows, keep) == kept + [last];
        assert (kept + [last])[..|kept + [last]| - 1] == kept;
      } else {
        assert Filter(rows, drop) == dropped + [last];
        assert (dropped + [last])[..|dropped + [last]| - 1] == dropped;
      }
    }
  }

  lemma FilterNonNegative(rows: seq<ServiceRow>, keep: ServiceRow -> bool)
    requires AmountsNonNegative(rows)
    ensures AmountsNonNegative(Filter(rows, keep))
  {
    FilterMembers(rows, keep);
  }

  lemma {:induction false} TotalAmountNonNegative(rows: seq<ServiceRow>)
    requires AmountsNonNegative(rows)
    ensures TotalAmount(rows) >= 0
  {
    if rows != [] {
      assert rows[|rows| - 1] in rows;
      assert forall s :: s in rows[..|rows| - 1] ==> s in rows;
      TotalAmountNonNegative(rows[..|rows| - 1]);
    }
  }

  /** `count > 0 ? total / count : 0`. */
  function AverageTicket(total: int, count: nat): (r: real)
    ensures count > 0 ==> r * count as real == total as real
    ensures count == 0 ==> r == 0.0
  {
    if count > 0 then total as real / count as real else 0.0
  }
}
