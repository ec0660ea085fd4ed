/**
 * Journals, accounting periods and the trial balance.
 * Accounts, periods and journals are tables keyed by position; a deleted journal leaves None. Debits and credits
 * count ten-thousandths of a currency unit, rates millionths: the scales of the database columns.
 */
module GeneralLedger {
  import opened Results
  import opened Sums

  datatype PeriodStatus = Open | Closed | Locked

  datatype Period = Period(month: int, status: PeriodStatus)

  /** A journal line as it is posted. */
  datatype Entry = Entry(account: nat, debit: int, credit: int, rate: int)

  /** A journal line as it is stored, with its own copy of the date. */
  datatype Line = Line(entry: Entry, date: int)

  datatype Journal = Journal(period: nat, date: int, lines: seq<Line>, reversalOf: Option<nat>)

  /**
   * `accounts` holds the active flags; `linked` the journals a buyer invoice or a bank transaction points at, which
   * deletion looks up; `charged` those a gratuity provision or a provident fund transaction points at, which only
   * their foreign keys protect.
   */
  datatype State = State(
    accounts: seq<bool>, periods: seq<Period>, journals: seq<Option<Journal>>, linked: set<nat>, charged: set<nat>)

  datatype Outcome = Outcome(state: State, reply: Reply)

  const INITIAL := State([], [], [], {}, {})

  /** The line table has partitions for 2025 to 2027, in days since 1970-01-01. */
  const FIRST_DAY := 20089
  const LAST_DAY := 21183

  // ---------------------------------------------------------------------------
  // Validation
  // ---------------------------------------------------------------------------

  function Debit(e: Entry): int { e.debit }

  function Credit(e: Entry): int { e.credit }

  predicate OneSided(e: Entry) {
    !((e.debit > 0 && e.credit > 0) || (e.debit == 0 && e.credit == 0) || e.debit < 0 || e.credit < 0)
  }

  predicate BalancedEntries(entries: seq<Entry>) {
    && |entries| >= 2
    && (forall i :: 0 <= i < |entries| ==> OneSided(entries[i]))
    && Sum(entries, Debit) == Sum(entries, Credit)
  }

  predicate ActiveAccounts(accounts: seq<bool>, entries: seq<Entry>) {
    forall i :: 0 <= i < |entries| ==> entries[i].account < |accounts| && accounts[entries[i].account]
  }

  /** The line table has no partition for other dates; the request refuses negative rates. */
  predicate Storable(entries: seq<Entry>, date: int) {
    FIRST_DAY <= date <= LAST_DAY && forall i :: 0 <= i < |entries| ==> entries[i].rate >= 0
  }

  predicate IsOpen(periods: seq<Period>, period: nat) {
    period < |periods| && periods[period].status == Open
  }

  predicate Exists(journals: seq<Option<Journal>>, id: nat) {
    id < |journals| && journals[id].Some?
  }

  // ---------------------------------------------------------------------------
  // Lines
  // ---------------------------------------------------------------------------

  function Stamped(entries: seq<Entry>, date: int): (lines: seq<Line>)
    ensures |lines| == |entries|
  {
    seq(|entries|, i requires 0 <= i < |entries| => Line(entries[i], date))
  }

  function Entries(lines: seq<Line>): (entries: seq<Entry>)
    ensures |entries| == |lines|
  {
    seq(|lines|, i requires 0 <= i < |lines| => lines[i].entry)
  }

  /** Larger debits first, then larger credits. */
  predicate Before(a: Entry, b: Entry) {
    a.debit > b.debit || (a.debit == b.debit && a.credit >= b.credit)
  }

  function Insert(sorted: seq<Entry>, e: Entry): (r: seq<Entry>)
    ensures |r| == |sorted| + 1
  {
    var n := |sorted| - 1;
    if |sorted| == 0 || Before(sorted[n], e) then sorted + [e]
    else Insert(sorted[..n], e) + [sorted[n]]
  }

  /** The order in which the lines of a journal are read back. */
  function Ordered(entries: seq<Entry>): (r: seq<Entry>)
    ensures |r| == |entries|
  {
    if |entries| == 0 then [] else Insert(Ordered(entries[..|entries| - 1]), entries[|entries| - 1])
  }

  // ---------------------------------------------------------------------------
  // Journal calls
  // ---------------------------------------------------------------------------

  function PostJournal(s: State, period: nat, date: int, entries: seq<Entry>, reversalOf: Option<nat>): Outcome {
    if !BalancedEntries(entries) then Outcome(s, Refused)
    else if period >= |s.periods| then Outcome(s, NotFound)
    else if s.periods[period].status != Open then Outcome(s, Refused)
    else if !ActiveAccounts(s.accounts, entries) then Outcome(s, Refused)
    else if reversalOf.Some? && !Exists(s.journals, reversalOf.value) then Outcome(s, Refused)
    else if !Storable(entries, date) then Outcome(s, Refused)
    else Outcome(s.(journals := s.journals + [Some(Journal(period, date, Stamped(entries, date), reversalOf))]), Done)
  }

  /** Absent fields keep their value; lines are replaced when lines or a date are given. */
  function UpdateJournal(s: State, id: nat, period: Option<nat>, date: Option<int>, entries: Option<seq<Entry>>): Outcome {
    if !Exists(s.journals, id) then Outcome(s, NotFound)
    else
      var j := s.journals[id].value;
      if !IsOpen(s.periods, j.period) then Outcome(s, Refused)
      else if period.Some? && period.value != j.period && period.value >= |s.periods| then Outcome(s, NotFound)
      else if period.Some? && period.value != j.period && s.periods[period.value].status != Open then Outcome(s, Refused)
      else if entries.Some? && !(BalancedEntries(entries.value) && ActiveAccounts(s.accounts, entries.value))
      then Outcome(s, Refused)
      else
        var newPeriod := if period.Some? then period.value else j.period;
        var newDate := if date.Some? then date.value else j.date;
        var replacing := if entries.Some? then entries.value else Ordered(Entries(j.lines));
        if entries.None? && date.None? then
          Outcome(s.(journals := s.journals[id := Some(j.(period := newPeriod))]), Done)
        else if !Storable(replacing, newDate) then Outcome(s, Refused)
        else Outcome(
               s.(journals := s.journals[id :=
                 Some(j.(period := newPeriod, date := newDate, lines := Stamped(replacing, newDate)))]),
               Done)
  }

  predicate HasReversal(journals: seq<Option<Journal>>, id: nat) {
    exists r :: 0 <= r < |journals| && journals[r].Some? && journals[r].value.reversalOf == Some(id)
  }

  function DeleteJournal(s: State, id: nat): Outcome {
    if !Exists(s.journals, id) then Outcome(s, NotFound)
    else if !IsOpen(s.periods, s.journals[id].value.period) then Outcome(s, Refused)
    else if id in s.linked then Outcome(s, Refused)
    else if HasReversal(s.journals, id) then Outcome(s, Refused)
    else if id in s.charged then Outcome(s, Refused)
    else Outcome(s.(journals := s.journals[id := None]), Done)
  }

  // ---------------------------------------------------------------------------
  // Period calls
  // ---------------------------------------------------------------------------

  function CreatePeriod(s: State, month: int): Outcome {
    if exists p :: 0 <= p < |s.periods| && s.periods[p].month == month then Outcome(s, Refused)
    else Outcome(s.(periods := s.periods + [Period(month, Open)]), Done)
  }

  function MovePeriod(s: State, period: nat, from: PeriodStatus, to: PeriodStatus): Outcome {
    if period >= |s.periods| then Outcome(s, NotFound)
    else if s.periods[period].status != from then Outcome(s, Refused)
    else Outcome(s.(periods := s.periods[period := s.periods[period].(status := to)]), Done)
  }

  // ---------------------------------------------------------------------------
  // Trial balance
  // ---------------------------------------------------------------------------

  const UNIT := 1_000_000

  /** The generated base amount: amount times rate, rounded to four decimals, halves up. */
  function Base(amount: int, rate: int): int {
    (amount * rate + UNIT / 2) / UNIT
  }

  datatype TrialRow = TrialRow(account: nat, debit: int, credit: int)

  /** The lines of the period's journals, in journal order. */
  function PeriodLines(journals: seq<Option<Journal>>, period: nat): seq<Line> {
    if |journals| == 0 then [] else
      var n := |journals| - 1;
      PeriodLines(journals[..n], period)
      + if journals[n].Some? && journals[n].value.period == period then journals[n].value.lines else []
  }

  function BaseDebitOf(account: nat): Line -> int {
    (l: Line) => if l.entry.account == account then Base(l.entry.debit, l.entry.rate) else 0
  }

  function BaseCreditOf(account: nat): Line -> int {
    (l: Line) => if l.entry.account == account then Base(l.entry.credit, l.entry.rate) else 0
  }

  /** One row per active account with a total that is not zero, among the first n accounts. */
  function TrialRows(accounts: seq<bool>, lines: seq<Line>, n: nat): seq<TrialRow>
    requires n <= |accounts|
  {
    if n == 0 then [] else
      var debit, credit := Sum(lines, BaseDebitOf(n - 1)), Sum(lines, BaseCreditOf(n - 1));
      TrialRows(accounts, lines, n - 1)
      + if accounts[n - 1] && (debit != 0 || credit != 0) then [TrialRow(n - 1, debit, credit)] else []
  }

  function TrialBalance(s: State, period: nat): Result<seq<TrialRow>> {
    if period >= |s.periods| then Throws
    else Ok(TrialRows(s.accounts, PeriodLines(s.journals, period), |s.accounts|))
  }

  function Net(r: TrialRow): int { r.debit - r.credit }

  // ---------------------------------------------------------------------------
  // Runs
  // ---------------------------------------------------------------------------

  datatype Op =
    | OpAddAccount
    | OpSetAccount(account: nat, active: bool)
    | OpSetLink(journal: nat, linked: bool)
    | OpSetCharge(journal: nat, charged: bool)
    | OpPost(period: nat, date: int, entries: seq<Entry>, reversalOf: Option<nat>)
    | OpUpdate(id: nat, newPeriod: Option<nat>, newDate: Option<int>, newEntries: Option<seq<Entry>>)
    | OpDelete(id: nat)
    | OpCreatePeriod(month: int)
    | OpClose(period: nat)
    | OpLock(period: nat)
    | OpUnlock(period: nat)

  function Step(s: State, op: Op): Outcome {
    match op
    case OpAddAccount => Outcome(s.(accounts := s.accounts + [true]), Done)
    case OpSetAccount(account, active) =>
      if account < |s.accounts| then Outcome(s.(accounts := s.accounts[account := active]), Done) else Outcome(s, NotFound)
    case OpSetLink(journal, linked) =>
      if !Exists(s.journals, journal) then Outcome(s, Refused)
      else Outcome(s.(linked := if linked then s.linked + {journal} else s.linked - {journal}), Done)
    case OpSetCharge(journal, charged) =>
      if !Exists(s.journals, journal) then Outcome(s, Refused)
      else Outcome(s.(charged := if charged then s.charged + {journal} else s.charged - {journal}), Done)
    case OpPost(period, date, entries, reversalOf) => PostJournal(s, period, date, entries, reversalOf)
    case OpUpdate(id, period, date, entries) => UpdateJournal(s, id, period, date, entries)
    case OpDelete(id) => DeleteJournal(s, id)
    case OpCreatePeriod(month) => CreatePeriod(s, month)
    case OpClose(period) => MovePeriod(s, period, Open, Closed)
    case OpLock(period) => MovePeriod(s, period, Closed, Locked)
    case OpUnlock(period) => MovePeriod(s, period, Locked, Closed)
  }

  function Run(s: State, ops: seq<Op>): State
    decreases |ops|
  {
    if |ops| == 0 then s else Run(Step(s, ops[0]).state, ops[1..])
  }

  // ---------------------------------------------------------------------------
  // The invariant
  // ---------------------------------------------------------------------------

  ghost predicate JournalOk(s: State, j: Journal) {
    && j.period < |s.periods|
    && BalancedEntries(Entries(j.lines))
    && (forall i :: 0 <= i < |j.lines| ==> j.lines[i].date == j.date && j.lines[i].entry.account < |s.accounts|)
    && (j.reversalOf.Some? ==> Exists(s.journals, j.reversalOf.value))
  }

  ghost predicate Inv(s: State) {
    && (forall id: nat :: Exists(s.journals, id) ==> JournalOk(s, s.journals[id].value))
    && (forall id :: id in s.linked + s.charged ==> Exists(s.journals, id))
    && (forall p, q :: 0 <= p < q < |s.periods| ==> s.periods[p].month != s.periods[q].month)
  }
}
