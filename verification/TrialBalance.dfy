/** When the nets of a trial balance add up to zero. */
module TrialBalance {
  import opened Results
  import opened Sums
  import opened GeneralLedger
  import GeneralLedgerRuns

  // ---------------------------------------------------------------------------
  // Summing by account is summing by line
  // ---------------------------------------------------------------------------

  function NetOf(account: nat): Line -> int {
    (l: Line) => BaseDebitOf(account)(l) - BaseCreditOf(account)(l)
  }

  /** A line's base debit less its base credit. */
  function Skew(l: Line): int {
    Base(l.entry.debit, l.entry.rate) - Base(l.entry.credit, l.entry.rate)
  }

  /** The same, counting only lines on active accounts among the first n. */
  function ActiveSkew(accounts: seq<bool>, n: nat): Line -> int {
    (l: Line) => if l.entry.account < n && l.entry.account < |accounts| && accounts[l.entry.account] then Skew(l) else 0
  }

  lemma {:induction false} NetIsDifference(lines: seq<Line>, account: nat)
    ensures Sum(lines, NetOf(account)) == Sum(lines, BaseDebitOf(account)) - Sum(lines, BaseCreditOf(account))
  {
    if |lines| > 0 {
      NetIsDifference(lines[..|lines| - 1], account);
    }
  }

  lemma {:induction false} RowNet(accounts: seq<bool>, lines: seq<Line>, n: nat)
    requires 0 < n <= |accounts|
    ensures Sum(TrialRows(accounts, lines, n), Net)
         == Sum(TrialRows(accounts, lines, n - 1), Net) + if accounts[n - 1] then Sum(lines, NetOf(n - 1)) else 0
  {
    NetIsDifference(lines, n - 1);
    var debit, credit := Sum(lines, BaseDebitOf(n - 1)), Sum(lines, BaseCreditOf(n - 1));
    var before := TrialRows(accounts, lines, n - 1);
    SumAppend(before, TrialRow(n - 1, debit, credit), Net);
    if accounts[n - 1] && (debit != 0 || credit != 0) {
      assert TrialRows(accounts, lines, n) == before + [TrialRow(n - 1, debit, credit)];
    } else {
      assert TrialRows(accounts, lines, n) == before;
    }
  }

  lemma {:induction false} OneMoreAccount(accounts: seq<bool>, l: Line, n: nat)
    requires 0 < n <= |accounts|
    ensures ActiveSkew(accounts, n)(l)
         == ActiveSkew(accounts, n - 1)(l) + if accounts[n - 1] then NetOf(n - 1)(l) else 0
  {
    var account := l.entry.account;
    assert account != n - 1 ==> BaseDebitOf(n - 1)(l) == 0 && BaseCreditOf(n - 1)(l) == 0;
    if account == n - 1 {
      assert BaseDebitOf(account)(l) == Base(l.entry.debit, l.entry.rate);
      assert BaseCreditOf(account)(l) == Base(l.entry.credit, l.entry.rate);
      assert NetOf(account)(l) == BaseDebitOf(account)(l) - BaseCreditOf(account)(l);
      assert NetOf(account)(l) == Skew(l);
    }
  }

  /** The nets of the trial balance add up to the skews of the lines on active accounts, whatever the lines are. */
  lemma {:induction false} NetsAreActiveSkews(accounts: seq<bool>, lines: seq<Line>, n: nat)
    requires n <= |accounts|
    ensures Sum(TrialRows(accounts, lines, n), Net) == Sum(lines, ActiveSkew(accounts, n))
  {
    if n == 0 {
      SumZero(lines, ActiveSkew(accounts, 0));
    } else {
      hide Sum, TrialRows, Base;
      NetsAreActiveSkews(accounts, lines, n - 1);
      RowNet(accounts, lines, n);
      forall l: Line
        ensures ActiveSkew(accounts, n)(l)
             == ActiveSkew(accounts, n - 1)(l) + if accounts[n - 1] then NetOf(n - 1)(l) else 0
      {
        OneMoreAccount(accounts, l, n);
      }
      hide ActiveSkew, NetOf;
      if accounts[n - 1] {
        SumPlus(lines, ActiveSkew(accounts, n - 1), NetOf(n - 1), ActiveSkew(accounts, n));
      } else {
        SumSame(lines, ActiveSkew(accounts, n - 1), lines, ActiveSkew(accounts, n));
      }
    }
  }

  // ---------------------------------------------------------------------------
  // Skews journal by journal
  // ---------------------------------------------------------------------------

  function JournalSkew(period: nat): Option<Journal> -> int {
    (slot: Option<Journal>) =>
      if slot.Some? && slot.value.period == period then Sum(slot.value.lines, Skew) else 0
  }

  lemma {:induction false} PeriodSkew(journals: seq<Option<Journal>>, period: nat)
    ensures Sum(PeriodLines(journals, period), Skew) == Sum(journals, JournalSkew(period))
  {
    if |journals| > 0 {
      var n := |journals| - 1;
      PeriodSkew(journals[..n], period);
      if journals[n].Some? && journals[n].value.period == period {
        SumConcat(PeriodLines(journals[..n], period), journals[n].value.lines, Skew);
      } else {
        assert PeriodLines(journals, period) == PeriodLines(journals[..n], period);
      }
    }
  }

  lemma {:induction false} PeriodLinesCome(journals: seq<Option<Journal>>, period: nat, i: nat) returns (id: nat, k: nat)
    requires i < |PeriodLines(journals, period)|
    ensures id < |journals| && journals[id].Some? && journals[id].value.period == period
    ensures k < |journals[id].value.lines| && journals[id].value.lines[k] == PeriodLines(journals, period)[i]
  {
    var n := |journals| - 1;
    var before := PeriodLines(journals[..n], period);
    if i < |before| {
      id, k := PeriodLinesCome(journals[..n], period, i);
    } else {
      id, k := n, i - |before|;
    }
  }

  /** No journal of the period has a line on an inactive account. */
  ghost predicate NoInactiveLines(s: State, period: nat) {
    forall id: nat, k: nat ::
      Exists(s.journals, id) && s.journals[id].value.period == period && k < |s.journals[id].value.lines| ==>
        var account := s.journals[id].value.lines[k].entry.account;
        account < |s.accounts| && s.accounts[account]
  }

  /** With no line on an inactive account the nets add up to the skews of the period's journals. */
  lemma {:induction false} NetsAreJournalSkews(s: State, period: nat)
    requires period < |s.periods| && NoInactiveLines(s, period)
    ensures TrialBalance(s, period).Ok?
    ensures Sum(TrialBalance(s, period).value, Net) == Sum(s.journals, JournalSkew(period))
  {
    var lines := PeriodLines(s.journals, period);
    NetsAreActiveSkews(s.accounts, lines, |s.accounts|);
    forall i | 0 <= i < |lines|
      ensures ActiveSkew(s.accounts, |s.accounts|)(lines[i]) == Skew(lines[i])
    {
      var id, k := PeriodLinesCome(s.journals, period, i);
      assert Exists(s.journals, id);
    }
    SumSame(lines, ActiveSkew(s.accounts, |s.accounts|), lines, Skew);
    PeriodSkew(s.journals, period);
  }

  // ---------------------------------------------------------------------------
  // Rounding
  // ---------------------------------------------------------------------------

  /** What rounding adds to an amount, in millionths of its last digit. */
  function RoundingError(amount: int, rate: int): int {
    UNIT * Base(amount, rate) - amount * rate
  }

  lemma RoundingIsHalfUp(amount: int, rate: int)
    ensures -UNIT < 2 * RoundingError(amount, rate) <= UNIT
  {
  }

  function LineError(l: Line): int {
    RoundingError(l.entry.debit, l.entry.rate) - RoundingError(l.entry.credit, l.entry.rate)
  }

  function Signed(e: Entry): int { e.debit - e.credit }

  predicate OneRate(j: Journal) {
    forall i :: 0 <= i < |j.lines| ==> j.lines[i].entry.rate == j.lines[0].entry.rate
  }

  lemma {:induction false} ScaledSkew(lines: seq<Line>, rate: int)
    requires forall i :: 0 <= i < |lines| ==> lines[i].entry.rate == rate
    ensures UNIT * Sum(lines, Skew) == rate * Sum(Entries(lines), Signed) + Sum(lines, LineError)
  {
    if |lines| > 0 {
      hide Skew, LineError, Signed;
      var n := |lines| - 1;
      ScaledSkew(lines[..n], rate);
      assert Entries(lines)[..n] == Entries(lines[..n]);
      ScaledLine(lines[n]);
      AddScaled(rate, Sum(lines[..n], Skew), Sum(Entries(lines)[..n], Signed), Sum(lines[..n], LineError),
                Skew(lines[n]), Signed(lines[n].entry), LineError(lines[n]));
    }
  }

  lemma {:induction false} AddScaled(rate: int, skew: int, signed: int, error: int, skew': int, signed': int, error': int)
    requires UNIT * skew == rate * signed + error && UNIT * skew' == rate * signed' + error'
    ensures UNIT * (skew + skew') == rate * (signed + signed') + (error + error')
  {
  }

  lemma ScaledLine(l: Line)
    ensures UNIT * Skew(l) == l.entry.rate * Signed(l.entry) + LineError(l)
  {
  }

  lemma {:induction false} SignedIsDifference(entries: seq<Entry>)
    ensures Sum(entries, Signed) == Sum(entries, Debit) - Sum(entries, Credit)
  {
    if |entries| > 0 {
      SignedIsDifference(entries[..|entries| - 1]);
    }
  }

  /** A one-rate journal is skewed by its roundings alone: by nothing exactly when they cancel. */
  lemma {:induction false} OneRateSkewIsRounding(j: Journal)
    requires BalancedEntries(Entries(j.lines)) && OneRate(j)
    ensures UNIT * Sum(j.lines, Skew) == Sum(j.lines, LineError)
    ensures Sum(j.lines, Skew) == 0 <==> Sum(j.lines, LineError) == 0
  {
    ScaledSkew(j.lines, j.lines[0].entry.rate);
    SignedIsDifference(Entries(j.lines));
  }

  lemma {:induction false} LineErrorBound(lines: seq<Line>)
    requires forall i :: 0 <= i < |lines| ==> OneSided(lines[i].entry)
    ensures -UNIT * |lines| <= 2 * Sum(lines, LineError) <= UNIT * |lines|
  {
    if |lines| > 0 {
      var n := |lines| - 1;
      LineErrorBound(lines[..n]);
      var e := lines[n].entry;
      RoundingIsHalfUp(e.debit, e.rate);
      RoundingIsHalfUp(e.credit, e.rate);
      assert e.debit == 0 || e.credit == 0;
      assert RoundingError(0, e.rate) == 0;
    }
  }

  /** A one-rate journal is skewed by at most half a unit of the last digit per line. */
  lemma {:induction false} OneRateSkewIsSmall(j: Journal)
    requires BalancedEntries(Entries(j.lines)) && OneRate(j)
    ensures -|j.lines| <= 2 * Sum(j.lines, Skew) <= |j.lines|
  {
    OneRateSkewIsRounding(j);
    forall i | 0 <= i < |j.lines|
      ensures OneSided(j.lines[i].entry)
    {
      assert OneSided(Entries(j.lines)[i]);
    }
    LineErrorBound(j.lines);
  }

  /** No line of the journal is rounded: each amount times its rate is a whole number of last digits. */
  predicate Exact(j: Journal) {
    forall i :: 0 <= i < |j.lines| ==>
      (j.lines[i].entry.debit * j.lines[i].entry.rate) % UNIT == 0
      && (j.lines[i].entry.credit * j.lines[i].entry.rate) % UNIT == 0
  }

  lemma {:induction false} ExactHasNoSkew(j: Journal)
    requires BalancedEntries(Entries(j.lines)) && OneRate(j) && Exact(j)
    ensures Sum(j.lines, Skew) == 0
  {
    forall i | 0 <= i < |j.lines|
      ensures LineError(j.lines[i]) == 0
    {
      var e := j.lines[i].entry;
      NoRounding(e.debit * e.rate);
      NoRounding(e.credit * e.rate);
    }
    SumZero(j.lines, LineError);
    OneRateSkewIsRounding(j);
  }

  lemma NoRounding(x: int)
    requires x % UNIT == 0
    ensures UNIT * ((x + UNIT / 2) / UNIT) == x
  {
  }

  /** Two lines at one rate never skew, however they round. */
  lemma {:induction false} TwoLinesHaveNoSkew(j: Journal)
    requires BalancedEntries(Entries(j.lines)) && OneRate(j) && |j.lines| == 2
    ensures Sum(j.lines, Skew) == 0
  {
    var entries := Entries(j.lines);
    assert OneSided(entries[0]) && OneSided(entries[1]);
    assert |j.lines[..1]| == 1 && j.lines[..1][..0] == [] && j.lines[..1][0] == j.lines[0];
    assert |entries[..1]| == 1 && entries[..1][..0] == [] && entries[..1][0] == entries[0];
    assert Sum(entries[..1], Debit) == entries[0].debit && Sum(entries[..1], Credit) == entries[0].credit;
    assert Sum(j.lines[..1], Skew) == Skew(j.lines[0]);
    assert Base(0, entries[0].rate) == 0;
  }

  function JournalError(period: nat): Option<Journal> -> int {
    (slot: Option<Journal>) =>
      if slot.Some? && slot.value.period == period then Sum(slot.value.lines, LineError) else 0
  }

  ghost predicate OneRateEach(s: State, period: nat) {
    forall id: nat :: Exists(s.journals, id) && s.journals[id].value.period == period ==> OneRate(s.journals[id].value)
  }

  lemma {:induction false} ScaledJournalSkews(journals: seq<Option<Journal>>, period: nat)
    requires forall i :: 0 <= i < |journals| && journals[i].Some? && journals[i].value.period == period ==>
               BalancedEntries(Entries(journals[i].value.lines)) && OneRate(journals[i].value)
    ensures UNIT * Sum(journals, JournalSkew(period)) == Sum(journals, JournalError(period))
  {
    if |journals| > 0 {
      hide BalancedEntries, OneRate, Skew, LineError;
      var n := |journals| - 1;
      ScaledJournalSkews(journals[..n], period);
      if journals[n].Some? && journals[n].value.period == period {
        OneRateSkewIsRounding(journals[n].value);
      }
    }
  }

  /**
   * In every reachable state with one rate per journal and no line on an inactive account, what the nets of a
   * period's trial balance add up to is its accumulated rounding: nothing exactly when the errors cancel.
   */
  lemma {:induction false} NetsAreRounding(ops: seq<Op>, period: nat)
    requires var s := Run(INITIAL, ops);
             period < |s.periods| && NoInactiveLines(s, period) && OneRateEach(s, period)
    ensures var s := Run(INITIAL, ops);
            && TrialBalance(s, period).Ok?
            && UNIT * Sum(TrialBalance(s, period).value, Net) == Sum(s.journals, JournalError(period))
            && (Sum(TrialBalance(s, period).value, Net) == 0 <==> Sum(s.journals, JournalError(period)) == 0)
  {
    hide TrialRows, NoInactiveLines, OneRate, GeneralLedger.BalancedEntries;
    var s := Run(INITIAL, ops);
    GeneralLedgerRuns.ReachableInv(ops);
    NetsAreJournalSkews(s, period);
    forall i | 0 <= i < |s.journals| && s.journals[i].Some? && s.journals[i].value.period == period
      ensures BalancedEntries(Entries(s.journals[i].value.lines)) && OneRate(s.journals[i].value)
    {
      assert Exists(s.journals, i);
    }
    ScaledJournalSkews(s.journals, period);
  }

  /**
   * In every reachable state the nets of a period's trial balance add up to zero when its journals each use one
   * rate and need no rounding, or have just two lines, and none of its lines lies on an inactive account.
   */
  lemma {:induction false} NetsAddUpToZero(ops: seq<Op>, period: nat)
    requires var s := Run(INITIAL, ops);
             && period < |s.periods| && NoInactiveLines(s, period)
             && forall id: nat :: Exists(s.journals, id) && s.journals[id].value.period == period ==>
                  OneRate(s.journals[id].value) && (Exact(s.journals[id].value) || |s.journals[id].value.lines| == 2)
    ensures var s := Run(INITIAL, ops);
            TrialBalance(s, period).Ok? && Sum(TrialBalance(s, period).value, Net) == 0
  {
    hide GeneralLedger.BalancedEntries, TrialRows, Exact;
    var s := Run(INITIAL, ops);
    GeneralLedgerRuns.ReachableInv(ops);
    NetsAreJournalSkews(s, period);
    forall id | 0 <= id < |s.journals|
      ensures JournalSkew(period)(s.journals[id]) == 0
    {
      assert Exists(s.journals, id) ==> JournalOk(s, s.journals[id].value);
      if s.journals[id].Some? && s.journals[id].value.period == period {
        if Exact(s.journals[id].value) {
          ExactHasNoSkew(s.journals[id].value);
        } else {
          TwoLinesHaveNoSkew(s.journals[id].value);
        }
      }
    }
    SumZero(s.journals, JournalSkew(period));
  }

  /** A balanced one-rate journal that skews: 0.0001 and 0.0001 against 0.0002 at rate 1.5. */
  lemma RoundingCanSkew()
    ensures exists j: Journal :: BalancedEntries(Entries(j.lines)) && OneRate(j) && Sum(j.lines, Skew) == 1
  {
    var a, b := Line(Entry(0, 1, 0, 1_500_000), FIRST_DAY), Line(Entry(1, 0, 2, 1_500_000), FIRST_DAY);
    var lines := [a, a, b];
    var j := Journal(0, FIRST_DAY, lines, None);
    var entries := Entries(lines);
    assert entries == [a.entry, a.entry, b.entry];
    SumThree(entries, Debit);
    SumThree(entries, Credit);
    SumThree(lines, Skew);
    assert BalancedEntries(Entries(j.lines)) && OneRate(j) && Sum(j.lines, Skew) == 1;
  }

  lemma SumThree<T>(s: seq<T>, f: T -> int)
    requires |s| == 3
    ensures Sum(s, f) == f(s[0]) + f(s[1]) + f(s[2])
  {
    assert s == [s[0]] + [s[1]] + [s[2]];
    SumAppend([s[0]] + [s[1]], s[2], f);
    SumAppend([s[0]], s[1], f);
    SumAppend([], s[0], f);
    assert [] + [s[0]] == [s[0]];
  }
}
