/**
 * What each journal and period call is answered and what it leaves in the tables, field by field, and what a trial
 * balance shows.
 */
module GeneralLedgerLaws {
  import opened Results
  import opened Sums
  import opened GeneralLedger
  import GeneralLedgerRuns

  /** The lines hold the entries, in order and field by field, each with the date. */
  ghost predicate Holds(lines: seq<Line>, entries: seq<Entry>, date: int) {
    && |lines| == |entries|
    && forall i :: 0 <= i < |entries| ==>
         && lines[i].date == date
         && lines[i].entry.account == entries[i].account
         && lines[i].entry.debit == entries[i].debit
         && lines[i].entry.credit == entries[i].credit
         && lines[i].entry.rate == entries[i].rate
  }

  /** Two lines or more, each either a positive debit or a positive credit, with equal totals. */
  ghost predicate Balances(entries: seq<Entry>) {
    && |entries| >= 2
    && (forall i :: 0 <= i < |entries| ==>
          (entries[i].debit > 0 && entries[i].credit == 0) || (entries[i].debit == 0 && entries[i].credit > 0))
    && Sum(entries, (e: Entry) => e.debit) == Sum(entries, (e: Entry) => e.credit)
  }

  lemma {:induction false} BalancesIff(entries: seq<Entry>)
    ensures BalancedEntries(entries) <==> Balances(entries)
  {
    SumSame(entries, Debit, entries, (e: Entry) => e.debit);
    SumSame(entries, Credit, entries, (e: Entry) => e.credit);
  }

  /**
   * A journal is posted exactly when it balances, its period is open, its accounts are active, what it reverses exists
   * and it can be stored; it then holds the given entries under the given date, behind all other journals.
   */
  lemma {:induction false} PostLaw(s: State, period: nat, date: int, entries: seq<Entry>, reversalOf: Option<nat>)
    ensures var after := PostJournal(s, period, date, entries, reversalOf);
            && (after.reply == Done <==>
                  && Balances(entries)
                  && period < |s.periods| && s.periods[period].status == Open
                  && (forall i :: 0 <= i < |entries| ==>
                        entries[i].account < |s.accounts| && s.accounts[entries[i].account] && entries[i].rate >= 0)
                  && (reversalOf.Some? ==> reversalOf.value < |s.journals| && s.journals[reversalOf.value].Some?)
                  && 20_089 <= date <= 21_183)
            && (after.reply != Done ==> after.state == s)
            && (after.reply == Done ==>
                  && after.state == s.(journals := after.state.journals)
                  && |after.state.journals| == |s.journals| + 1
                  && (forall j :: 0 <= j < |s.journals| ==> after.state.journals[j] == s.journals[j])
                  && after.state.journals[|s.journals|].Some?
                  && var j := after.state.journals[|s.journals|].value;
                     j.period == period && j.date == date && j.reversalOf == reversalOf && Holds(j.lines, entries, date))
  {
    BalancesIff(entries);
    hide BalancedEntries, Balances;
  }

  /** Larger debits first; among equal debits, larger credits first. */
  ghost predicate LargestFirst(lines: seq<Line>) {
    forall i, k :: 0 <= i < k < |lines| ==>
      && lines[i].entry.debit >= lines[k].entry.debit
      && (lines[i].entry.debit == lines[k].entry.debit ==> lines[i].entry.credit >= lines[k].entry.credit)
  }

  /**
   * An update changes one journal of an open period, and moves it only into an open period. Given entries replace the
   * old; with a date alone the old entries return in another order; with neither the lines stay as they are.
   */
  lemma {:induction false} UpdateLaw(s: State, id: nat, period: Option<nat>, date: Option<int>, entries: Option<seq<Entry>>)
    requires UpdateJournal(s, id, period, date, entries).reply == Done
    ensures var t := UpdateJournal(s, id, period, date, entries).state;
            && id < |s.journals| && s.journals[id].Some? && |t.journals| == |s.journals| && t.journals[id].Some?
            && t == s.(journals := s.journals[id := t.journals[id]])
            && var j, j' := s.journals[id].value, t.journals[id].value;
               && j.period < |s.periods| && s.periods[j.period].status == Open
               && (period.None? ==> j'.period == j.period)
               && (period.Some? ==>
                     j'.period == period.value < |s.periods| && s.periods[period.value].status == Open)
               && (date.None? ==> j'.date == j.date) && (date.Some? ==> j'.date == date.value)
               && j'.reversalOf == j.reversalOf
               && (entries.Some? ==> Balances(entries.value) && Holds(j'.lines, entries.value, j'.date))
               && (entries.None? && date.None? ==> j'.lines == j.lines)
               && (entries.None? && date.Some? ==>
                     && multiset(Entries(j'.lines)) == multiset(Entries(j.lines)) && LargestFirst(j'.lines)
                     && forall i :: 0 <= i < |j'.lines| ==> j'.lines[i].date == date.value)
  {
    hide BalancedEntries, Balances, Ordered, ActiveAccounts, Sum;
    var j, j' := s.journals[id].value, UpdateJournal(s, id, period, date, entries).state.journals[id].value;
    if entries.Some? {
      BalancesIff(entries.value);
    }
    if entries.None? && date.Some? {
      GeneralLedgerRuns.OrderedIsPermutation(Entries(j.lines));
      assert Entries(j'.lines) == Ordered(Entries(j.lines));
      forall i, k | 0 <= i < k < |j'.lines|
        ensures Before(j'.lines[i].entry, j'.lines[k].entry)
      {
        assert Entries(j'.lines)[i] == j'.lines[i].entry && Entries(j'.lines)[k] == j'.lines[k].entry;
      }
    }
  }

  /** What a journal's lines hold, read back as entries, is what they hold. */
  lemma {:induction false} EntriesOfLines(lines: seq<Line>)
    ensures forall i :: 0 <= i < |lines| ==> Entries(lines)[i] == lines[i].entry
  {
  }

  /** An update is refused exactly for the reasons below; the period of the journal comes first. */
  lemma {:induction false} UpdateSucceedsIff(s: State, id: nat, period: Option<nat>, date: Option<int>, entries: Option<seq<Entry>>)
    requires Inv(s) && id < |s.journals| && s.journals[id].Some?
    ensures var j := s.journals[id].value;
            UpdateJournal(s, id, period, date, entries).reply == Done <==>
              && s.periods[j.period].status == Open
              && (period.Some? && period.value != j.period ==>
                    period.value < |s.periods| && s.periods[period.value].status == Open)
              && (entries.Some? ==>
                    Balances(entries.value) && forall i :: 0 <= i < |entries.value| ==>
                      entries.value[i].account < |s.accounts| && s.accounts[entries.value[i].account])
              && (entries.Some? || date.Some? ==>
                    && 20_089 <= (if date.Some? then date.value else j.date) <= 21_183
                    && (entries.None? ==> forall i :: 0 <= i < |j.lines| ==> j.lines[i].entry.rate >= 0)
                    && (entries.Some? ==> forall i :: 0 <= i < |entries.value| ==> entries.value[i].rate >= 0))
    ensures UpdateJournal(s, id, period, date, entries).reply != Done ==>
              UpdateJournal(s, id, period, date, entries).state == s
  {
    hide BalancedEntries, Balances, Ordered, Entries, Stamped, Storable;
    assert Exists(s.journals, id);
    var j := s.journals[id].value;
    assert JournalOk(s, j);
    var newDate := if date.Some? then date.value else j.date;
    if entries.Some? {
      BalancesIff(entries.value);
      StorableIff(entries.value, newDate);
    } else {
      ReorderedStorableIff(j.lines, newDate);
    }
  }

  lemma {:induction false} StorableIff(entries: seq<Entry>, date: int)
    ensures Storable(entries, date) <==>
              20_089 <= date <= 21_183 && forall i :: 0 <= i < |entries| ==> entries[i].rate >= 0
  {
  }

  lemma {:induction false} ReorderedStorableIff(lines: seq<Line>, date: int)
    ensures Storable(Ordered(Entries(lines)), date) <==>
              20_089 <= date <= 21_183 && forall i :: 0 <= i < |lines| ==> lines[i].entry.rate >= 0
  {
    OrderedRates(Entries(lines));
    StorableIff(Ordered(Entries(lines)), date);
    assert forall i :: 0 <= i < |lines| ==> Entries(lines)[i].rate == lines[i].entry.rate;
    if forall i :: 0 <= i < |lines| ==> Entries(lines)[i].rate >= 0 {
      forall i | 0 <= i < |lines|
        ensures lines[i].entry.rate >= 0
      {
        assert Entries(lines)[i].rate >= 0;
      }
    }
  }

  lemma {:induction false} OrderedRates(entries: seq<Entry>)
    ensures (forall i :: 0 <= i < |entries| ==> Ordered(entries)[i].rate >= 0) <==>
              forall i :: 0 <= i < |entries| ==> entries[i].rate >= 0
  {
    GeneralLedgerRuns.OrderedIsPermutation(entries);
    if forall i :: 0 <= i < |entries| ==> entries[i].rate >= 0 {
      SameRates(entries, Ordered(entries));
    }
    if forall i :: 0 <= i < |entries| ==> Ordered(entries)[i].rate >= 0 {
      SameRates(Ordered(entries), entries);
    }
  }

  lemma {:induction false} SameRates(a: seq<Entry>, b: seq<Entry>)
    requires multiset(a) == multiset(b) && forall i :: 0 <= i < |a| ==> a[i].rate >= 0
    ensures forall i :: 0 <= i < |b| ==> b[i].rate >= 0
  {
    forall i | 0 <= i < |b|
      ensures b[i].rate >= 0
    {
      assert b[i] in multiset(a);
    }
  }

  /** One status becomes another and nothing else changes, or nothing changes. */
  ghost predicate Turns(s: State, after: Outcome, period: nat, from: PeriodStatus, to: PeriodStatus) {
    && (after.reply == Done <==> period < |s.periods| && s.periods[period].status == from)
    && (after.reply == Done ==>
          after.state == s.(periods := s.periods[period := Period(s.periods[period].month, to)]))
    && (after.reply != Done ==> after.state == s)
  }

  lemma {:induction false} PeriodLaws(s: State, period: nat, month: int)
    ensures Turns(s, Step(s, OpClose(period)), period, Open, Closed)
    ensures Turns(s, Step(s, OpLock(period)), period, Closed, Locked)
    ensures Turns(s, Step(s, OpUnlock(period)), period, Locked, Closed)
    ensures var after := Step(s, OpCreatePeriod(month));
            && (after.reply == Done <==> forall p :: 0 <= p < |s.periods| ==> s.periods[p].month != month)
            && (after.reply == Done ==> after.state == s.(periods := s.periods + [Period(month, Open)]))
            && (after.reply != Done ==> after.state == s)
  {
  }

  /** Which refusals are a missing row; every other is an error of the request or of a status. */
  lemma {:induction false} NotFoundIff(s: State, id: nat, period: nat, date: int, entries: seq<Entry>)
    ensures var present := id < |s.journals| && s.journals[id].Some?;
            && (PostJournal(s, period, date, entries, None).reply == NotFound <==> Balances(entries) && period >= |s.periods|)
            && (UpdateJournal(s, id, Some(period), None, None).reply == NotFound <==>
                  present ==>
                    var now := s.journals[id].value.period;
                    now < |s.periods| && s.periods[now].status == Open && period != now && period >= |s.periods|)
            && (DeleteJournal(s, id).reply == NotFound <==> !present)
    ensures Step(s, OpClose(period)).reply == NotFound <==> period >= |s.periods|
    ensures Step(s, OpLock(period)).reply == NotFound <==> period >= |s.periods|
    ensures Step(s, OpUnlock(period)).reply == NotFound <==> period >= |s.periods|
  {
    BalancesIff(entries);
    hide BalancedEntries, Balances;
  }

  // ---------------------------------------------------------------------------
  // The rows of a trial balance
  // ---------------------------------------------------------------------------

  /** The total of any amount over the lines of the period is its total over the period's journals. */
  lemma {:induction false} PeriodTotal(journals: seq<Option<Journal>>, period: nat, f: Line -> int)
    ensures Sum(PeriodLines(journals, period), f)
         == Sum(journals, (slot: Option<Journal>) =>
              if slot.Some? && slot.value.period == period then Sum(slot.value.lines, f) else 0)
  {
    if |journals| > 0 {
      var n := |journals| - 1;
      PeriodTotal(journals[..n], period, f);
      if journals[n].Some? && journals[n].value.period == period {
        SumConcat(PeriodLines(journals[..n], period), journals[n].value.lines, f);
      } else {
        assert PeriodLines(journals, period) == PeriodLines(journals[..n], period);
      }
    }
  }

  /** The account's base debit: each debit of the period times its rate, rounded to the unit, halves up. */
  function DebitTotal(lines: seq<Line>, account: nat): int {
    Sum(lines, (l: Line) => if l.entry.account == account then (l.entry.debit * l.entry.rate + 500_000) / 1_000_000 else 0)
  }

  function CreditTotal(lines: seq<Line>, account: nat): int {
    Sum(lines, (l: Line) => if l.entry.account == account then (l.entry.credit * l.entry.rate + 500_000) / 1_000_000 else 0)
  }

  lemma {:induction false} TotalsAre(lines: seq<Line>, account: nat)
    ensures Sum(lines, BaseDebitOf(account)) == DebitTotal(lines, account)
    ensures Sum(lines, BaseCreditOf(account)) == CreditTotal(lines, account)
  {
    SumSame(lines, BaseDebitOf(account), lines, (l: Line) =>
      if l.entry.account == account then (l.entry.debit * l.entry.rate + 500_000) / 1_000_000 else 0);
    SumSame(lines, BaseCreditOf(account), lines, (l: Line) =>
      if l.entry.account == account then (l.entry.credit * l.entry.rate + 500_000) / 1_000_000 else 0);
  }

  /** Every row is right. */
  ghost predicate RowsAreRight(rows: seq<TrialRow>, lines: seq<Line>, accounts: seq<bool>, n: nat) {
    forall i :: 0 <= i < |rows| ==>
      && rows[i].account < n && rows[i].account < |accounts| && accounts[rows[i].account]
      && rows[i].debit == DebitTotal(lines, rows[i].account)
      && rows[i].credit == CreditTotal(lines, rows[i].account)
  }

  predicate IsShown(rows: seq<TrialRow>, account: nat) {
    exists i :: 0 <= i < |rows| && rows[i].account == account
  }

  /** No account with a total is missing. */
  ghost predicate NoneMissing(rows: seq<TrialRow>, lines: seq<Line>, accounts: seq<bool>, n: nat) {
    forall a: nat :: a < n && a < |accounts| && accounts[a]
                     && (DebitTotal(lines, a) != 0 || CreditTotal(lines, a) != 0) ==>
      IsShown(rows, a)
  }

  ghost predicate InOrder(rows: seq<TrialRow>) {
    forall i, j :: 0 <= i < j < |rows| ==> rows[i].account < rows[j].account
  }

  lemma {:induction false} OneRow(accounts: seq<bool>, lines: seq<Line>, n: nat)
    requires 0 < n <= |accounts|
    ensures var debit, credit := DebitTotal(lines, n - 1), CreditTotal(lines, n - 1);
            TrialRows(accounts, lines, n)
            == TrialRows(accounts, lines, n - 1)
             + if accounts[n - 1] && (debit != 0 || credit != 0) then [TrialRow(n - 1, debit, credit)] else []
  {
    hide BaseDebitOf, BaseCreditOf, DebitTotal, CreditTotal, Sum;
    TotalsAre(lines, n - 1);
  }

  lemma {:induction false} RowsShow(accounts: seq<bool>, lines: seq<Line>, n: nat)
    requires n <= |accounts|
    ensures var rows := TrialRows(accounts, lines, n);
            RowsAreRight(rows, lines, accounts, n) && InOrder(rows) && NoneMissing(rows, lines, accounts, n)
  {
    if n > 0 {
      hide RowsAreRight, InOrder, NoneMissing, TrialRows, DebitTotal, CreditTotal;
      RowsShow(accounts, lines, n - 1);
      OneRow(accounts, lines, n);
      OneMoreAccount(TrialRows(accounts, lines, n - 1), lines, accounts, n - 1);
    }
  }

  /** One account more, with its row if it has a total. */
  lemma {:induction false} OneMoreAccount(rows: seq<TrialRow>, lines: seq<Line>, accounts: seq<bool>, n: nat)
    requires n < |accounts|
    requires RowsAreRight(rows, lines, accounts, n) && InOrder(rows) && NoneMissing(rows, lines, accounts, n)
    ensures var debit, credit := DebitTotal(lines, n), CreditTotal(lines, n);
            var rows' := rows + if accounts[n] && (debit != 0 || credit != 0) then [TrialRow(n, debit, credit)] else [];
            RowsAreRight(rows', lines, accounts, n + 1) && InOrder(rows') && NoneMissing(rows', lines, accounts, n + 1)
  {
    hide DebitTotal, CreditTotal, IsShown;
    var debit, credit := DebitTotal(lines, n), CreditTotal(lines, n);
    var rows' := rows + if accounts[n] && (debit != 0 || credit != 0) then [TrialRow(n, debit, credit)] else [];
    forall a: nat | IsShown(rows, a)
      ensures IsShown(rows', a)
    {
      ShownStays(rows, rows', a);
    }
    LastIsShown(rows');
  }

  lemma {:induction false} ShownStays(rows: seq<TrialRow>, rows': seq<TrialRow>, account: nat)
    requires IsShown(rows, account) && |rows| <= |rows'| && rows'[..|rows|] == rows
    ensures IsShown(rows', account)
  {
    var i :| 0 <= i < |rows| && rows[i].account == account;
    assert rows'[i] == rows[i];
  }

  lemma {:induction false} LastIsShown(rows: seq<TrialRow>)
    ensures |rows| > 0 ==> IsShown(rows, rows[|rows| - 1].account)
  {
  }

  /**
   * A trial balance shows exactly the active accounts with a base total in the period, in order of their keys, each
   * with its base debits and base credits.
   */
  lemma {:induction false} TrialBalanceLaw(s: State, period: nat)
    ensures TrialBalance(s, period).Ok? <==> period < |s.periods|
    ensures period < |s.periods| ==>
              var rows, lines := TrialBalance(s, period).value, PeriodLines(s.journals, period);
              RowsAreRight(rows, lines, s.accounts, |s.accounts|) && InOrder(rows)
              && NoneMissing(rows, lines, s.accounts, |s.accounts|)
  {
    RowsShow(s.accounts, PeriodLines(s.journals, period), |s.accounts|);
  }
}
