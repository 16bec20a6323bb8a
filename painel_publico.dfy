/** The public queue display (src/pages/PainelPublico.tsx): which entry is shown as
    being attended, which entries are listed as waiting, and how a ticket number is
    written. The two queries become a filter, an order and a limit over the rows of
    the `queue` table; "today" is an input. */
module PainelPublico {
  import opened Rows
  import opened NumberText
  import Sorting

  /** How many waiting entries the panel lists (`.limit(10)`). */
  const WaitingLimit: nat := 10

  predicate IsToday(e: QueueRow, today: string)
  {
    e.queueDate == today
  }

  predicate IsAttending(e: QueueRow)
  {
    e.status == Some("attending")
  }

  predicate IsWaiting(e: QueueRow)
  {
    e.status == Some("waiting")
  }

  /** `e` comes no later than `f` under `ORDER BY called_at DESC`, in which the
      store puts a null `called_at` first (its default for a descending order). */
  predicate CalledNoEarlier(e: QueueRow, f: QueueRow)
  {
    match e.calledAt
    case None => true
    case Some(t) => f.calledAt.Some? && t >= f.calledAt.value
  }

  /** The `current` query: today's `attending` entries, latest `called_at` first,
      at most one kept. Entries that tie are taken in table order. */
  function CurrentEntry(table: seq<QueueRow>, today: string): (r: Option<QueueRow>)
    ensures r.None? <==> forall i :: 0 <= i < |table| ==> !(IsToday(table[i], today) && IsAttending(table[i]))
    ensures r.Some? ==> r.value in table && IsToday(r.value, today) && IsAttending(r.value)
    ensures r.Some? ==> forall i :: 0 <= i < |table| && IsToday(table[i], today) && IsAttending(table[i]) ==>
      CalledNoEarlier(r.value, table[i])
  {
    if table == [] then None
    else
      var e, rest := table[0], CurrentEntry(table[1..], today);
      if IsToday(e, today) && IsAttending(e) && (rest.None? || CalledNoEarlier(e, rest.value)) then Some(e)
      else rest
  }

  function QueueNumber(e: QueueRow): int
  {
    e.queueNumber
  }

  /** Today's `waiting` entries, in table order, before the order and the limit. */
  function WaitingCandidates(table: seq<QueueRow>, today: string): (r: seq<QueueRow>)
    ensures forall e :: e in r <==> e in table && IsToday(e, today) && IsWaiting(e)
    ensures multiset(r) <= multiset(table)
  {
    FilterMembers(table, (e: QueueRow) => IsToday(e, today) && IsWaiting(e));
    FilterSubMultiset(table, (e: QueueRow) => IsToday(e, today) && IsWaiting(e));
    Filter(table, (e: QueueRow) => IsToday(e, today) && IsWaiting(e))
  }

  /** The `waiting` query: today's `waiting` entries by ascending `queue_number`,
      at most ten. */
  function WaitingEntries(table: seq<QueueRow>, today: string): (r: seq<QueueRow>)
    ensures |r| == if |WaitingCandidates(table, today)| < WaitingLimit then |WaitingCandidates(table, today)| else WaitingLimit
    ensures multiset(r) <= multiset(WaitingCandidates(table, today))
    ensures multiset(r) <= multiset(table)
    ensures forall e :: e in r ==> e in table && IsToday(e, today) && IsWaiting(e)
    ensures Sorting.SortedBy(r, QueueNumber)
    ensures forall e, f :: e in table && IsToday(e, today) && IsWaiting(e) && e !in r && f in r ==>
      f.queueNumber <= e.queueNumber
    ensures |r| < WaitingLimit ==> forall e :: e in table && IsToday(e, today) && IsWaiting(e) ==> e in r
  {
    var candidates := WaitingCandidates(table, today);
    Sorting.LowestIsLowest(candidates, QueueNumber, WaitingLimit);
    Sorting.Lowest(candidates, QueueNumber, WaitingLimit)
  }

  /** What the panel holds after `fetchQueue`. */
  datatype Panel = Panel(current: Option<QueueRow>, waiting: seq<QueueRow>)

  /** `fetchQueue`: both queries replace the panel's state wholesale. A query that
      returns no data leaves no current entry, or an empty waiting list. */
  function FetchQueue(table: seq<QueueRow>, today: string, currentAnswered: bool, waitingAnswered: bool): (p: Panel)
    ensures p.current == if currentAnswered then CurrentEntry(table, today) else None
    ensures p.waiting == if waitingAnswered then WaitingEntries(table, today) else []
    ensures p.current.Some? ==> IsToday(p.current.value, today) && IsAttending(p.current.value)
    ensures p.current.Some? ==> p.current.value !in p.waiting
    ensures |p.waiting| <= WaitingLimit
    ensures forall e :: e in p.waiting ==> IsToday(e, today) && IsWaiting(e)
  {
    Panel(
      if currentAnswered then CurrentEntry(table, today) else None,
      if waitingAnswered then WaitingEntries(table, today) else [])
  }

  /** `queue_number.toString().padStart(3, "0")`. */
  function Ticket(n: int): (t: string)
    ensures |t| == if |IntToString(n)| >= 3 then |IntToString(n)| else 3
    ensures |IntToString(n)| >= 3 ==> t == IntToString(n)
    ensures t[|t| - |IntToString(n)|..] == IntToString(n)
    ensures forall i :: 0 <= i < |t| - |IntToString(n)| ==> t[i] == '0'
  {
    PadStart(IntToString(n), 3, '0')
  }

  /** Reading a ticket of a non-negative number as a decimal gives the number back. */
  lemma TicketRoundTrip(n: nat)
    ensures AllDigits(Ticket(n)) && DigitsValue(Ticket(n)) == n
  {
    var s := NatToString(n);
    NatToStringRoundTrip(n);
    if |s| < 3 {
      LeadingZerosValue(3 - |s|, s);
    }
  }

  /** Dropping the padding of a positive number's ticket gives its decimal text. */
  lemma TicketStripsToDecimal(n: int)
    requires n > 0
    ensures StripLeadingZeros(Ticket(n)) == IntToString(n)
  {
    var s := NatToString(n);
    if |s| < 3 {
      StripRepeatedZeros(3 - |s|, s);
    } else {
      StripRepeatedZeros(0, s);
      assert Repeat('0', 0) + s == s;
    }
  }

  /** Distinct non-negative numbers get distinct tickets. */
  lemma TicketInjective(m: nat, n: nat)
    requires Ticket(m) == Ticket(n)
    ensures m == n
  {
    TicketRoundTrip(m);
    TicketRoundTrip(n);
  }

  /** A one-digit number gets two zeros in front. */
  lemma OneDigitTicket(n: nat)
    requires n < 10
    ensures Ticket(n) == ['0', '0', DigitChar(n)]
  {
    assert IntToString(n) == [DigitChar(n)];
  }

  /** A two-digit number gets one zero in front. */
  lemma TwoDigitTicket(n: nat)
    requires 10 <= n < 100
    ensures Ticket(n) == ['0', DigitChar(n / 10), DigitChar(n % 10)]
  {
    assert NatToString(n / 10) == [DigitChar(n / 10)];
    assert IntToString(n) == [DigitChar(n / 10)] + [DigitChar(n % 10)];
  }

  /** Padding only widens short texts. */
  lemma TicketExamples()
    ensures Ticket(7) == "007" && Ticket(42) == "042" && Ticket(1234) == "1234"
  {
    OneDigitTicket(7);
    TwoDigitTicket(42);
    assert NatToString(12) == [DigitChar(1), DigitChar(2)];
    assert NatToString(1234) == NatToString(12) + [DigitChar(3)] + [DigitChar(4)];
  }

  /** A negative one-digit number keeps its sign after the filler. */
  lemma NegativeTicket()
    ensures Ticket(-5) == "0-5"
  {
  }
}
