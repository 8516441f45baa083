/** What may have happened at the server while a device was busy. */
module Others {
  import opened Types
  import opened Server
  import opened Changes
  import opened Index
  import opened Device
  import opened System
  import opened Invariant
  import opened Preservation
  import opened Runs
  import opened Foreign
  import opened Edits

  /** Between `s` and `t` the history grew by writes of others only, and they did not learn of the
      documents in `rows` that the server did not know. */
  ghost predicate OnlyOthers(s: System, t: System, rows: Rows, me: DevId) {
    && Grows(s, t)
    && UnknownStay(s, t, rows)
    && (forall id :: id in t.history ==> OthersWrote(t.history, id, Ver(s.history, id), me))
  }

  /** The device reads a page after which there is no more. */
  predicate IsLastFetch(e: Event, me: DevId) {
    e.Act? && e.dev == me && e.action.Fetch? && !e.action.page.hasMore
  }

  lemma OnlyOthersReflexive(s: System, rows: Rows, me: DevId)
    ensures OnlyOthers(s, s, rows, me)
  {
    GrowsReflexive(s);
  }

  lemma OnlyOthersTransitive(s: System, t: System, u: System, rows: Rows, me: DevId)
    requires OnlyOthers(s, t, rows, me) && OnlyOthers(t, u, rows, me)
    ensures OnlyOthers(s, u, rows, me)
  {
    hide Appended;
    GrowsTransitive(s, t, u);
    forall id | id in u.history ensures OthersWrote(u.history, id, Ver(s.history, id), me) {
      OthersWroteBoth(s, t, u, id, me);
    }
  }

  lemma OthersWroteBoth(s: System, t: System, u: System, id: DocId, me: DevId)
    requires id in u.history && Appended(t, u, id) && (id in t.history ==> Appended(s, t, id))
    requires id in s.history ==> id in t.history
    requires OthersWrote(u.history, id, Ver(t.history, id), me)
    requires id in t.history ==> OthersWrote(t.history, id, Ver(s.history, id), me)
    ensures OthersWrote(u.history, id, Ver(s.history, id), me)
  {
  }

  lemma LeftAloneOnlyOthers(s: System, t: System, me: DevId)
    requires Grows(s, t) && LeftAlone(s, t, me)
    ensures OnlyOthers(s, t, RowsOf(s, me), me)
  {
  }

  /** The history did not change at all. */
  lemma SameHistoryOnlyOthers(s: System, t: System, rows: Rows, me: DevId)
    requires Grows(s, t) && t.history == s.history
    ensures OnlyOthers(s, t, rows, me)
  {
  }

  lemma OnlyOthersFewer(s: System, t: System, rows: Rows, fewer: Rows, me: DevId)
    requires OnlyOthers(s, t, rows, me) && fewer.Keys <= rows.Keys
    ensures OnlyOthers(s, t, fewer, me)
  {
    hide Grows, OthersWrote;
  }

  lemma HistoryKept(s: System, t: System, rows: Rows, me: DevId)
    requires OnlyOthers(s, t, rows, me)
    ensures forall id :: id in s.history ==> id in t.history
  {
  }

  lemma LastSeqGrows(s: System, t: System, rows: Rows, me: DevId)
    requires OnlyOthers(s, t, rows, me) || Grows(s, t)
    ensures s.tables.lastSeq <= t.tables.lastSeq
  {
  }

  lemma OnlyOthersGrows(s: System, t: System, rows: Rows, me: DevId)
    requires OnlyOthers(s, t, rows, me)
    ensures Grows(s, t)
  {
  }

  lemma OthersHold(s: System, t: System, rows: Rows, rows0: Rows, copies: Copies, me: DevId)
    requires OnlyOthers(s, t, rows, me) && AllHeld(s, rows, rows0, copies) && DirtyOrigin(s.history, rows, rows0)
    ensures AllHeld(t, rows, rows0, copies) && DirtyOrigin(t.history, rows, rows0)
  {
    hide Held, OthersWrote, Appended;
    AllHeldLater(s, t, rows, rows0, copies);
  }
}
