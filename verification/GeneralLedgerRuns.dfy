/** What every run of the general ledger keeps: balance, dates, frozen periods. */
module GeneralLedgerRuns {
  import opened Results
  import opened Sums
  import opened GeneralLedger

  // ---------------------------------------------------------------------------
  // Reading lines back in order
  // ---------------------------------------------------------------------------

  ghost predicate IsOrdered(entries: seq<Entry>) {
    forall i, j :: 0 <= i < j < |entries| ==> Before(entries[i], entries[j])
  }

  lemma {:induction false} InsertIsOrdered(sorted: seq<Entry>, e: Entry)
    requires IsOrdered(sorted)
    ensures IsOrdered(Insert(sorted, e))
    ensures multiset(Insert(sorted, e)) == multiset(sorted) + multiset{e}
  {
    var n := |sorted| - 1;
    if |sorted| > 0 {
      assert sorted == sorted[..n] + [sorted[n]];
      if !Before(sorted[n], e) {
        InsertIsOrdered(sorted[..n], e);
        var front := Insert(sorted[..n], e);
        forall i | 0 <= i < |front|
          ensures Before(front[i], sorted[n])
        {
          assert front[i] in multiset(front);
          if front[i] != e {
            assert front[i] in multiset(sorted[..n]);
          }
        }
      }
    }
  }

  lemma {:induction false} InsertSum(sorted: seq<Entry>, e: Entry, f: Entry -> int)
    ensures Sum(Insert(sorted, e), f) == Sum(sorted, f) + f(e)
  {
    var n := |sorted| - 1;
    if |sorted| == 0 || Before(sorted[n], e) {
      SumAppend(sorted, e, f);
    } else {
      InsertSum(sorted[..n], e, f);
      SumAppend(Insert(sorted[..n], e), sorted[n], f);
    }
  }

  /** Reading a journal back loses and adds no line, orders them, and keeps every total. */
  lemma {:induction false} OrderedIsPermutation(entries: seq<Entry>)
    ensures IsOrdered(Ordered(entries))
    ensures multiset(Ordered(entries)) == multiset(entries)
  {
    if |entries| > 0 {
      var n := |entries| - 1;
      OrderedIsPermutation(entries[..n]);
      InsertIsOrdered(Ordered(entries[..n]), entries[n]);
      assert entries == entries[..n] + [entries[n]];
    }
  }

  lemma {:induction false} OrderedSum(entries: seq<Entry>, f: Entry -> int)
    ensures Sum(Ordered(entries), f) == Sum(entries, f)
  {
    if |entries| > 0 {
      var n := |entries| - 1;
      OrderedSum(entries[..n], f);
      InsertSum(Ordered(entries[..n]), entries[n], f);
    }
  }

  lemma {:induction false} OrderedStaysBalanced(entries: seq<Entry>, bound: nat)
    requires BalancedEntries(entries)
    requires forall i :: 0 <= i < |entries| ==> entries[i].account < bound
    ensures BalancedEntries(Ordered(entries))
    ensures forall i :: 0 <= i < |entries| ==> Ordered(entries)[i].account < bound
  {
    OrderedIsPermutation(entries);
    OrderedSum(entries, Debit);
    OrderedSum(entries, Credit);
    forall i | 0 <= i < |entries|
      ensures OneSided(Ordered(entries)[i]) && Ordered(entries)[i].account < bound
    {
      assert Ordered(entries)[i] in multiset(entries);
    }
  }

  // ---------------------------------------------------------------------------
  // Every journal is balanced and every line carries its journal's date
  // ---------------------------------------------------------------------------

  lemma {:induction false} StampedJournalOk(s: State, j: Journal, entries: seq<Entry>)
    requires j.lines == Stamped(entries, j.date) && j.period < |s.periods| && BalancedEntries(entries)
    requires forall i :: 0 <= i < |entries| ==> entries[i].account < |s.accounts|
    requires j.reversalOf.Some? ==> Exists(s.journals, j.reversalOf.value)
    ensures JournalOk(s, j)
  {
    assert Entries(j.lines) == entries;
  }

  lemma {:induction false} PostKeepsInv(s: State, period: nat, date: int, entries: seq<Entry>, reversalOf: Option<nat>)
    requires Inv(s) && PostJournal(s, period, date, entries, reversalOf).reply == Done
    ensures Inv(PostJournal(s, period, date, entries, reversalOf).state)
  {
    hide BalancedEntries;
    var t := PostJournal(s, period, date, entries, reversalOf).state;
    StampedJournalOk(t, Journal(period, date, Stamped(entries, date), reversalOf), entries);
    forall id: nat | Exists(t.journals, id)
      ensures JournalOk(t, t.journals[id].value)
    {
      if id < |s.journals| {
        assert Exists(s.journals, id);
      }
    }
  }

  lemma {:induction false} UpdateKeepsInv(s: State, id: nat, period: Option<nat>, date: Option<int>, entries: Option<seq<Entry>>)
    requires Inv(s) && UpdateJournal(s, id, period, date, entries).reply == Done
    ensures Inv(UpdateJournal(s, id, period, date, entries).state)
  {
    hide BalancedEntries, Ordered;
    var t := UpdateJournal(s, id, period, date, entries).state;
    var j, j' := s.journals[id].value, t.journals[id].value;
    assert JournalOk(s, j);
    assert JournalOk(t, j') by {
      if entries.Some? {
        StampedJournalOk(t, j', entries.value);
      } else if date.Some? {
        OrderedStaysBalanced(Entries(j.lines), |s.accounts|);
        StampedJournalOk(t, j', Ordered(Entries(j.lines)));
      }
    }
    forall k: nat | Exists(t.journals, k)
      ensures JournalOk(t, t.journals[k].value)
    {
      assert Exists(s.journals, k);
    }
  }

  lemma {:induction false} DeleteKeepsInv(s: State, id: nat)
    requires Inv(s) && DeleteJournal(s, id).reply == Done
    ensures Inv(DeleteJournal(s, id).state)
  {
  }

  lemma {:induction false} StepKeepsInv(s: State, op: Op)
    requires Inv(s)
    ensures Inv(Step(s, op).state)
  {
    hide BalancedEntries, PostJournal, UpdateJournal, DeleteJournal;
    if Step(s, op).reply == Done {
      match op
      case OpPost(period, date, entries, reversalOf) => PostKeepsInv(s, period, date, entries, reversalOf);
      case OpUpdate(id, period, date, entries) => UpdateKeepsInv(s, id, period, date, entries);
      case OpDelete(id) => DeleteKeepsInv(s, id);
      case _ => OthersKeepInv(s, op);
    } else {
      RefusalChangesNothing(s, op);
    }
  }

  lemma {:induction false} RefusalChangesNothing(s: State, op: Op)
    requires Step(s, op).reply != Done
    ensures Step(s, op).state == s
  {
  }

  lemma {:induction false} OthersKeepInv(s: State, op: Op)
    requires Inv(s) && !op.OpPost? && !op.OpUpdate? && !op.OpDelete?
    ensures Inv(Step(s, op).state)
  {
  }

  lemma {:induction false} RunKeepsInv(s: State, ops: seq<Op>)
    requires Inv(s)
    ensures Inv(Run(s, ops))
    decreases |ops|
  {
    hide Inv, Step;
    if |ops| > 0 {
      StepKeepsInv(s, ops[0]);
      RunKeepsInv(Step(s, ops[0]).state, ops[1..]);
    }
  }

  /** In every reachable state each journal is balanced and dated throughout, and each reversal's original exists. */
  lemma {:induction false} ReachableInv(ops: seq<Op>)
    ensures Inv(Run(INITIAL, ops))
    ensures var s := Run(INITIAL, ops);
            forall id: nat :: Exists(s.journals, id) ==>
              && BalancedEntries(Entries(s.journals[id].value.lines))
              && forall i :: 0 <= i < |s.journals[id].value.lines| ==>
                   s.journals[id].value.lines[i].date == s.journals[id].value.date
  {
    assert Inv(INITIAL);
    RunKeepsInv(INITIAL, ops);
  }

  // ---------------------------------------------------------------------------
  // Periods that left open are frozen
  // ---------------------------------------------------------------------------

  /** The journal when it belongs to the period. */
  function JournalIn(s: State, id: nat, period: nat): Option<Journal> {
    if Exists(s.journals, id) && s.journals[id].value.period == period then s.journals[id] else None
  }

  ghost predicate Frozen(s: State, t: State, period: nat) {
    && period < |t.periods| && t.periods[period].status != Open
    && forall id: nat :: JournalIn(t, id, period) == JournalIn(s, id, period)
  }

  lemma {:induction false} ClosedPeriodStep(s: State, op: Op, period: nat)
    requires period < |s.periods| && s.periods[period].status != Open
    ensures Frozen(s, Step(s, op).state, period)
  {
  }

  /** What a call does: the invariant is kept, and every period that left open is frozen. */
  ghost predicate Upholds(s: State, t: State) {
    && (Inv(s) ==> Inv(t))
    && forall p: nat :: p < |s.periods| && s.periods[p].status != Open ==> Frozen(s, t, p)
  }

  lemma {:induction false} StepUpholds(s: State, op: Op)
    ensures Upholds(s, Step(s, op).state)
  {
    hide Inv, Step, Frozen;
    if Inv(s) {
      StepKeepsInv(s, op);
    }
    forall p: nat | p < |s.periods| && s.periods[p].status != Open
      ensures Frozen(s, Step(s, op).state, p)
    {
      ClosedPeriodStep(s, op, p);
    }
  }

  /**
   * Once a period left open it never opens again, and along every run the journals it holds, with all their
   * lines, stay the same: none is posted, changed, moved in, moved out or deleted.
   */
  lemma {:induction false} ClosedPeriodIsFrozen(s: State, ops: seq<Op>, period: nat)
    requires period < |s.periods| && s.periods[period].status != Open
    ensures Frozen(s, Run(s, ops), period)
    decreases |ops|
  {
    hide Step, JournalIn;
    if |ops| > 0 {
      ClosedPeriodStep(s, ops[0], period);
      ClosedPeriodIsFrozen(Step(s, ops[0]).state, ops[1..], period);
    }
  }

  // ---------------------------------------------------------------------------
  // What can be deleted
  // ---------------------------------------------------------------------------

  /** No invoice, bank transaction, provision, provident fund transaction or reversal points at the journal. */
  ghost predicate Unreferenced(s: State, id: nat) {
    && id !in s.linked && id !in s.charged
    && forall r: nat :: Exists(s.journals, r) ==> s.journals[r].value.reversalOf != Some(id)
  }

  /** The call is a deletion that meets the journal in an open period and unreferenced. */
  ghost predicate Deletes(s: State, op: Op, id: nat) {
    op == OpDelete(id) && Exists(s.journals, id) && IsOpen(s.periods, s.journals[id].value.period) && Unreferenced(s, id)
  }

  lemma {:induction false} StepDeletesIff(s: State, op: Op, id: nat)
    requires id < |s.journals|
    ensures id < |Step(s, op).state.journals|
    ensures Exists(Step(s, op).state.journals, id) <==> Exists(s.journals, id) && !Deletes(s, op, id)
  {
    hide BalancedEntries, ActiveAccounts, Storable, Ordered, Stamped, Entries;
  }

  lemma {:induction false} RunEndsWith(s: State, ops: seq<Op>)
    requires |ops| > 0
    ensures Run(s, ops) == Step(Run(s, ops[..|ops| - 1]), ops[|ops| - 1]).state
    decreases |ops|
  {
    hide Step;
    if |ops| > 1 {
      RunEndsWith(Step(s, ops[0]).state, ops[1..]);
      assert ops[1..][..|ops| - 2] == ops[..|ops| - 1][1..];
    }
  }

  /**
   * A journal that exists is gone after a run exactly when one of the run's deletions met it in an open period and
   * with nothing pointing at it.
   */
  lemma {:induction false} GoneIffDeletedUnreferenced(s: State, ops: seq<Op>, id: nat)
    requires Exists(s.journals, id)
    ensures id < |Run(s, ops).journals|
    ensures !Exists(Run(s, ops).journals, id) <==>
              exists k :: 0 <= k < |ops| && Deletes(Run(s, ops[..k]), ops[k], id)
    decreases |ops|
  {
    hide Step, Deletes;
    if |ops| > 0 {
      var n := |ops| - 1;
      var front := ops[..n];
      GoneIffDeletedUnreferenced(s, front, id);
      RunEndsWith(s, ops);
      StepDeletesIff(Run(s, front), ops[n], id);
      assert forall k :: 0 <= k < n ==> ops[..k] == front[..k] && ops[k] == front[k];
      if k :| 0 <= k < n && Deletes(Run(s, front[..k]), front[k], id) {
        assert Deletes(Run(s, ops[..k]), ops[k], id);
      }
      if k :| 0 <= k < |ops| && Deletes(Run(s, ops[..k]), ops[k], id) {
        if k < n {
          assert Deletes(Run(s, front[..k]), front[k], id);
        }
      }
    }
  }
}
