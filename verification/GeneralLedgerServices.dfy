/** The journal and period services over one database, each call against its transition. */
module GeneralLedgerServices {
  import opened Results
  import opened Sums
  import opened GeneralLedger
  import GeneralLedgerRuns
  import GeneralLedgerLaws

  /** The validation of `assertBalanced`, line by line, against the balance predicate. */
  method AssertBalanced(entries: seq<Entry>) returns (reply: Reply)
    ensures reply == if BalancedEntries(entries) then Done else Refused
  {
    hide Sum;
    if |entries| < 2 { return Refused; }
    var debit, credit := 0, 0;
    NothingAdded(entries);
    for i := 0 to |entries|
      invariant forall k :: 0 <= k < i ==> OneSided(entries[k])
      invariant debit == Sum(entries[..i], Debit) && credit == Sum(entries[..i], Credit)
    {
      var d, c := entries[i].debit, entries[i].credit;
      if (d > 0 && c > 0) || (d == 0 && c == 0) || d < 0 || c < 0 { return Refused; }
      OneMoreEntry(entries, i);
      debit, credit := debit + d, credit + c;
    }
    assert entries[..|entries|] == entries;
    reply := if debit != credit then Refused else Done;
  }

  lemma {:induction false} NothingAdded(entries: seq<Entry>)
    ensures Sum(entries[..0], Debit) == 0 && Sum(entries[..0], Credit) == 0
  {
  }

  lemma {:induction false} OneMoreEntry(entries: seq<Entry>, i: nat)
    requires i < |entries|
    ensures Sum(entries[..i + 1], Debit) == Sum(entries[..i], Debit) + entries[i].debit
    ensures Sum(entries[..i + 1], Credit) == Sum(entries[..i], Credit) + entries[i].credit
  {
    assert entries[..i + 1] == entries[..i] + [entries[i]];
    SumAppend(entries[..i], entries[i], Debit);
    SumAppend(entries[..i], entries[i], Credit);
  }

  /** Lines inserted one after the other, each with the journal's date. */
  method InsertLines(entries: seq<Entry>, date: int) returns (lines: seq<Line>)
    ensures lines == Stamped(entries, date)
  {
    lines := [];
    for i := 0 to |entries|
      invariant lines == Stamped(entries, date)[..i]
    {
      lines := lines + [Line(entries[i], date)];
    }
  }

  class Books {
    var accounts: seq<bool>
    var periods: seq<Period>
    var journals: seq<Option<Journal>>
    var linked: set<nat>
    var charged: set<nat>

    function View(): State
      reads this
    {
      State(accounts, periods, journals, linked, charged)
    }

    constructor ()
      ensures View() == INITIAL
    {
      accounts, periods, journals, linked, charged := [], [], [], {}, {};
    }

    method Post(period: nat, date: int, entries: seq<Entry>, reversalOf: Option<nat>) returns (reply: Reply)
      modifies this`journals
      ensures Outcome(View(), reply) == PostJournal(old(View()), period, date, entries, reversalOf)
      ensures GeneralLedgerRuns.Upholds(old(View()), View())
      ensures reply == Done ==>
                && |journals| == |old(journals)| + 1 && journals[..|old(journals)|] == old(journals)
                && journals[|old(journals)|].Some?
                && GeneralLedgerLaws.Holds(journals[|old(journals)|].value.lines, entries, date)
    {
      hide GeneralLedgerRuns.Upholds;
      GeneralLedgerLaws.PostLaw(View(), period, date, entries, reversalOf);
      GeneralLedgerRuns.StepUpholds(View(), OpPost(period, date, entries, reversalOf));
      reply := AssertBalanced(entries);
      if reply != Done { return; }
      if period >= |periods| { return NotFound; }
      if periods[period].status != Open { return Refused; }
      if !ActiveAccounts(accounts, entries) { return Refused; }
      if reversalOf.Some? && !Exists(journals, reversalOf.value) { return Refused; }
      if !Storable(entries, date) { return Refused; }
      var lines := InsertLines(entries, date);
      journals := journals + [Some(Journal(period, date, lines, reversalOf))];
    }

    method Update(id: nat, period: Option<nat>, date: Option<int>, entries: Option<seq<Entry>>) returns (reply: Reply)
      modifies this`journals
      ensures Outcome(View(), reply) == UpdateJournal(old(View()), id, period, date, entries)
      ensures GeneralLedgerRuns.Upholds(old(View()), View())
      ensures reply == Done ==>
                && id < |old(journals)| == |journals| && old(journals)[id].Some? && journals[id].Some?
                && var j, j' := old(journals)[id].value, journals[id].value;
                   && (entries.Some? ==> GeneralLedgerLaws.Holds(j'.lines, entries.value, j'.date))
                   && (entries.None? && date.None? ==> j'.lines == j.lines)
                   && (entries.None? && date.Some? ==> multiset(Entries(j'.lines)) == multiset(Entries(j.lines)))
    {
      hide GeneralLedgerRuns.Upholds;
      if UpdateJournal(View(), id, period, date, entries).reply == Done {
        GeneralLedgerLaws.UpdateLaw(View(), id, period, date, entries);
      }
      GeneralLedgerRuns.StepUpholds(View(), OpUpdate(id, period, date, entries));
      if !Exists(journals, id) { return NotFound; }
      var j := journals[id].value;
      if !IsOpen(periods, j.period) { return Refused; }
      if period.Some? && period.value != j.period {
        if period.value >= |periods| { return NotFound; }
        if periods[period.value].status != Open { return Refused; }
      }
      if entries.Some? {
        reply := AssertBalanced(entries.value);
        if reply != Done { return; }
        if !ActiveAccounts(accounts, entries.value) { return Refused; }
      }
      var newPeriod := if period.Some? then period.value else j.period;
      var newDate := if date.Some? then date.value else j.date;
      var lines := j.lines;
      if entries.Some? || date.Some? {
        var replacing := if entries.Some? then entries.value else Ordered(Entries(j.lines));
        if !Storable(replacing, newDate) { return Refused; }
        lines := InsertLines(replacing, newDate);
      }
      journals := journals[id := Some(j.(period := newPeriod, date := newDate, lines := lines))];
      reply := Done;
    }

    method Delete(id: nat) returns (reply: Reply)
      modifies this`journals
      ensures Outcome(View(), reply) == DeleteJournal(old(View()), id)
      ensures GeneralLedgerRuns.Upholds(old(View()), View())
    {
      hide GeneralLedgerRuns.Upholds;
      GeneralLedgerRuns.StepUpholds(View(), OpDelete(id));
      if !Exists(journals, id) { return NotFound; }
      if !IsOpen(periods, journals[id].value.period) { return Refused; }
      if id in linked { return Refused; }
      if HasReversal(journals, id) { return Refused; }
      if id in charged { return Refused; }
      journals := journals[id := None];
      reply := Done;
    }

    method AddPeriod(month: int) returns (reply: Reply)
      modifies this`periods
      ensures Outcome(View(), reply) == CreatePeriod(old(View()), month)
      ensures GeneralLedgerRuns.Upholds(old(View()), View())
    {
      hide GeneralLedgerRuns.Upholds;
      GeneralLedgerRuns.StepUpholds(View(), OpCreatePeriod(month));
      if exists p :: 0 <= p < |periods| && periods[p].month == month { return Refused; }
      periods := periods + [Period(month, Open)];
      reply := Done;
    }

    method Close(period: nat) returns (reply: Reply)
      modifies this`periods
      ensures Outcome(View(), reply) == MovePeriod(old(View()), period, Open, Closed)
      ensures GeneralLedgerRuns.Upholds(old(View()), View())
    {
      hide GeneralLedgerRuns.Upholds;
      GeneralLedgerRuns.StepUpholds(View(), OpClose(period));
      if period >= |periods| { return NotFound; }
      if periods[period].status != Open { return Refused; }
      periods := periods[period := periods[period].(status := Closed)];
      reply := Done;
    }

    method Lock(period: nat) returns (reply: Reply)
      modifies this`periods
      ensures Outcome(View(), reply) == MovePeriod(old(View()), period, Closed, Locked)
      ensures GeneralLedgerRuns.Upholds(old(View()), View())
    {
      hide GeneralLedgerRuns.Upholds;
      GeneralLedgerRuns.StepUpholds(View(), OpLock(period));
      if period >= |periods| { return NotFound; }
      if periods[period].status != Closed { return Refused; }
      periods := periods[period := periods[period].(status := Locked)];
      reply := Done;
    }

    method Unlock(period: nat) returns (reply: Reply)
      modifies this`periods
      ensures Outcome(View(), reply) == MovePeriod(old(View()), period, Locked, Closed)
      ensures GeneralLedgerRuns.Upholds(old(View()), View())
    {
      hide GeneralLedgerRuns.Upholds;
      GeneralLedgerRuns.StepUpholds(View(), OpUnlock(period));
      if period >= |periods| { return NotFound; }
      if periods[period].status != Locked { return Refused; }
      periods := periods[period := periods[period].(status := Closed)];
      reply := Done;
    }
  }
}
