/** The rounds of a sync, from pull to pull. */
module Rounds {
  import opened Types
  import opened Server
  import opened Changes
  import opened Index
  import opened Device
  import opened System
  import opened Invariant
  import opened Preservation
  import opened Runs
  import opened Foreign
  import opened Edits
  import opened Others
  import opened Cache
  import opened Room
  import opened Pulling
  import opened Pushing
  import opened Obstacles

  /** The blob of every live row marked for offline use is cached. */
  predicate OfflineReady(rows: Rows, cache: map<BlobId, CacheEntry>) {
    forall id :: id in rows && rows[id].keepOffline && !rows[id].deleted ==>
      rows[id].blobId.Some? && rows[id].blobId.value in cache
  }

  /** The blob of some live row marked for offline use is neither cached nor on the server. */
  predicate OfflineMissing(rows: Rows, cache: map<BlobId, CacheEntry>, blobs: map<BlobId, StoredBlob>) {
    exists id :: id in rows && rows[id].keepOffline && !rows[id].deleted
      && rows[id].blobId.Some? && rows[id].blobId.value !in cache && rows[id].blobId.value !in blobs
  }

  lemma IsMissing(rows: Rows, cache: map<BlobId, CacheEntry>, blobs: map<BlobId, StoredBlob>, id: DocId)
    requires id in rows && rows[id].keepOffline && !rows[id].deleted && rows[id].blobId.Some?
    requires rows[id].blobId.value !in cache && rows[id].blobId.value !in blobs
    ensures OfflineMissing(rows, cache, blobs)
  {
  }

  lemma OfflinePinned(rows: Rows, wanted: set<DocId>)
    requires forall id :: id in wanted ==> id in rows && rows[id].keepOffline
    ensures forall id :: id in wanted && rows[id].blobId.Some? ==> Pinned(rows, rows[id].blobId.value)
  {
    forall id | id in wanted && rows[id].blobId.Some? ensures Pinned(rows, rows[id].blobId.value) {
      assert Pins(rows[id], rows[id].blobId.value);
    }
  }

  /** What an up-to-date clean live row needs is still at the server. */
  lemma StoredAtSnapshot(trace: seq<Event>, s: System, me: DevId, id: DocId)
    requires s == Run(trace) && me in s.devices && id in s.devices[me].rows
    requires AtSnapshot(s.history, s.devices[me].rows) && !AnyDirty(s.devices[me].rows, {})
    requires !s.devices[me].rows[id].deleted
    ensures var b := s.devices[me].rows[id].blobId;
      b.Some? && b.value in s.tables.blobs
  {
    hide Inv, LiveOk;
    RowIsOk(trace, s, me, id);
    ServerDoc(trace, s, id);
  }

  // ------------------------------------------------------------------ what a sync did ------

  /** One round of `sync` by places in the run: where its pull began, where it had just read its last
      page, where its push began, and where that was done. */
  datatype Round = Round(begin: nat, read: nat, start: nat, done: nat)

  ghost function RowsAt(trace: seq<Event>, n: nat, me: DevId): Rows
    requires n <= |trace|
  {
    RowsOf(Run(trace[..n]), me)
  }

  ghost function HistoryAt(trace: seq<Event>, n: nat): History
    requires n <= |trace|
  {
    Run(trace[..n]).history
  }

  predicate IsRound(trace: seq<Event>, round: Round, me: DevId) {
    round.begin < round.read <= round.start <= round.done <= |trace| && IsLastFetch(trace[round.read - 1], me)
  }

  /** A row the device set out to push was based on the version the server had when the last page was
      read, and before the push was done somebody else had written the next one. */
  ghost predicate LostTo(trace: seq<Event>, round: Round, id: DocId, me: DevId)
    requires IsRound(trace, round, me)
  {
    var rows := RowsAt(trace, round.start, me);
    && id in rows && rows[id].dirty && rows[id].base == Ver(HistoryAt(trace, round.read), id)
    && Beaten(HistoryAt(trace, round.read), HistoryAt(trace, round.done), id, me)
  }

  ghost predicate LostRound(trace: seq<Event>, round: Round, me: DevId) {
    IsRound(trace, round, me) && exists id :: LostTo(trace, round, id, me)
  }

  /** Rounds one after the other, from `start` on. */
  predicate InOrder(rounds: seq<Round>, start: nat) {
    && (forall k :: 0 < k < |rounds| ==> rounds[k - 1].done <= rounds[k].begin)
    && (rounds != [] ==> start <= rounds[0].begin)
  }

  ghost predicate LostRounds(trace: seq<Event>, rounds: seq<Round>, me: DevId) {
    forall k :: 0 <= k < |rounds| ==> LostRound(trace, rounds[k], me)
  }

  ghost predicate AllRounds(trace: seq<Event>, rounds: seq<Round>, me: DevId) {
    forall k :: 0 <= k < |rounds| ==> IsRound(trace, rounds[k], me)
  }

  /** Items taken, pending rows overwritten, and pending rows accepted. */
  datatype Tally = Tally(pulled: int, conflicts: nat, pushed: nat) {
    function Plus(t: Tally): Tally {
      Tally(pulled + t.pulled, conflicts + t.conflicts, pushed + t.pushed)
    }
  }

  /** What a round did: items taken in its pull, pending rows overwritten in it, pending rows accepted in
      its push. */
  ghost function RoundTally(trace: seq<Event>, round: Round, me: DevId): Tally
    requires IsRound(trace, round, me)
  {
    Tally(Applies(trace[..round.start], me) - Applies(trace[..round.begin], me),
          |Settled(RowsAt(trace, round.begin, me), RowsAt(trace, round.start, me))|,
          |Settled(RowsAt(trace, round.start, me), RowsAt(trace, round.done, me))|)
  }

  ghost function Totals(trace: seq<Event>, rounds: seq<Round>, me: DevId): Tally
    requires AllRounds(trace, rounds, me)
  {
    if rounds == [] then Tally(0, 0, 0)
    else Totals(trace, rounds[..|rounds| - 1], me).Plus(RoundTally(trace, rounds[|rounds| - 1], me))
  }

  /** The rounds of a run, their order and their counts. */
  ghost predicate Counted(trace: seq<Event>, rounds: seq<Round>, start: nat, me: DevId, tally: Tally) {
    && AllRounds(trace, rounds, me) && InOrder(rounds, start)
    && tally == Totals(trace, rounds, me)
  }

  /** What is said of rounds stays true as the run goes on. */
  lemma {:induction false} RoundsLater(trace: seq<Event>, trace': seq<Event>, rounds: seq<Round>, me: DevId)
    requires trace <= trace' && AllRounds(trace, rounds, me)
    ensures AllRounds(trace', rounds, me)
    ensures LostRounds(trace, rounds, me) ==> LostRounds(trace', rounds, me)
    ensures Totals(trace', rounds, me) == Totals(trace, rounds, me)
  {
    hide Run, RowsOf, Settled, Beaten;
    forall k | 0 <= k < |rounds|
      ensures IsRound(trace', rounds[k], me)
      ensures LostRound(trace, rounds[k], me) ==> LostRound(trace', rounds[k], me)
    {
      RoundLater(trace, trace', rounds[k], me);
    }
    if rounds != [] {
      RoundsLater(trace, trace', rounds[..|rounds| - 1], me);
      RoundLater(trace, trace', rounds[|rounds| - 1], me);
    }
  }

  lemma RoundLater(trace: seq<Event>, trace': seq<Event>, round: Round, me: DevId)
    requires trace <= trace' && IsRound(trace, round, me)
    ensures IsRound(trace', round, me) && (LostRound(trace, round, me) ==> LostRound(trace', round, me))
    ensures RoundTally(trace', round, me) == RoundTally(trace, round, me)
  {
    hide Run, RowsOf, Beaten;
    forall n: nat | n <= |trace| ensures trace'[..n] == trace[..n] {
    }
    if LostRound(trace, round, me) {
      var id :| LostTo(trace, round, id, me);
      assert LostTo(trace', round, id, me);
    }
  }

  /** One more round at the end. */
  lemma RoundAdded(trace: seq<Event>, rounds: seq<Round>, start: nat, round: Round, me: DevId, tally: Tally)
    requires Counted(trace, rounds, start, me, tally) && IsRound(trace, round, me)
    requires start <= round.begin && (rounds != [] ==> rounds[|rounds| - 1].done <= round.begin)
    ensures Counted(trace, rounds + [round], start, me, tally.Plus(RoundTally(trace, round, me)))
  {
    hide Run, RowsAt, Settled, RoundTally;
    var longer := rounds + [round];
    assert longer[..|longer| - 1] == rounds;
  }

  lemma NoRounds(trace: seq<Event>, start: nat, me: DevId)
    ensures LostRounds(trace, [], me) && Counted(trace, [], start, me, Tally(0, 0, 0))
  {
  }

  /** A round from the state `top` at the end of `a`, over `mid` at the end of `b`, to the end of `c`. */
  lemma RoundDone(a: seq<Event>, b: seq<Event>, c: seq<Event>, top: System, mid: System, end: System, rounds: seq<Round>, start: nat,
                  round: Round, me: DevId, tally: Tally)
    requires a <= b <= c && top == Run(a) && mid == Run(b) && end == Run(c) && start <= |a|
    requires LostRounds(a, rounds, me) && Counted(a, rounds, start, me, tally)
    requires rounds != [] ==> rounds[|rounds| - 1].done <= |a|
    requires round.begin == |a| && round.start == |b| && round.done == |c| && |a| < round.read <= |b| && IsLastFetch(b[round.read - 1], me)
    ensures LostRounds(c, rounds, me) && IsRound(c, round, me)
    ensures RowsAt(c, round.start, me) == RowsOf(mid, me) && HistoryAt(c, round.done) == end.history
    ensures Counted(c, rounds + [round], start, me,
                    tally.Plus(Tally(Applies(b, me) - Applies(a, me), |Settled(RowsOf(top, me), RowsOf(mid, me))|,
                                     |Settled(RowsOf(mid, me), RowsOf(end, me))|)))
  {
    hide Run, Settled, RowsOf, LostRounds, LostRound, Applies, Totals, AllRounds, InOrder, IsLastFetch;
    assert c[..|a|] == a && c[..|b|] == b && c[..|c|] == c;
    RoundsLater(a, c, rounds, me);
    RoundAdded(c, rounds, start, round, me, tally);
  }

  lemma LostOneMore(trace: seq<Event>, rounds: seq<Round>, round: Round, me: DevId)
    requires LostRounds(trace, rounds, me) && LostRound(trace, round, me)
    ensures LostRounds(trace, rounds + [round], me)
  {
    hide LostRound;
  }

  lemma RoundsKept(a: seq<Event>, b: seq<Event>, rounds: seq<Round>, round: Round, start: nat, me: DevId, tally: Tally)
    requires a <= b && LostRounds(a, rounds, me) && Counted(a, rounds + [round], start, me, tally)
    ensures LostRounds(b, rounds, me) && Counted(b, rounds + [round], start, me, tally)
  {
    hide LostRound, Totals;
    RoundsLater(a, b, rounds + [round], me);
    assert forall k :: 0 <= k < |rounds| ==> (rounds + [round])[k] == rounds[k];
    RoundsLater(a, b, rounds, me);
  }

  lemma RoundIsLost(trace: seq<Event>, round: Round, was: Rows, rows: Rows, me: DevId)
    requires IsRound(trace, round, me) && RowsAt(trace, round.start, me) == was && AtSnapshot(HistoryAt(trace, round.read), was)
    requires PushProgress(HistoryAt(trace, round.read), HistoryAt(trace, round.done), was, rows, {}, me) && AnyDirty(rows, {})
    ensures LostRound(trace, round, me)
  {
    hide Run, RowsAt, Beaten;
    var id :| id in rows && rows[id].dirty;
    assert Handled(HistoryAt(trace, round.read), HistoryAt(trace, round.done), id, was[id], rows[id], me);
    assert LostTo(trace, round, id, me);
  }

  // ------------------------------------------------------------------ edits over rounds ----

  /** The copies of an earlier pull and those of the next. */
  ghost function MoreCopies(rows: Rows, rows0: Rows, copies: Copies, copies1: Copies): Copies {
    map id | id in copies.Keys + copies1.Keys && (id in copies || (id in rows0 && id in rows && rows[id] == rows0[id])) ::
      if id in copies then copies[id] else copies1[id]
  }

  /** Edits that a sync has lost: at most one, which the server had overtaken. */
  ghost predicate LostEdits(h: History, rows0: Rows, lost: set<DocId>) {
    |lost| <= 1 && forall id :: id in lost ==> id in rows0 && IsEdit(rows0[id]) && rows0[id].base < Ver(h, id)
  }

  lemma NoneLost(rows0: Rows)
    ensures rows0 - {} == rows0 && forall h :: LostEdits(h, rows0, {})
  {
  }

  /** Edits that were safe before a pull are safe after it, but for the one it may lose if it fails: it keeps
      what it found pending, and the copies of earlier rounds are documents the server has never heard of. */
  lemma SafeAfterPull(s: System, t: System, rows: Rows, rows': Rows, rows0: Rows, copies: Copies, copies1: Copies,
                      lost: Option<DocId>, me: DevId) returns (gone: set<DocId>)
    requires OnlyOthers(s, t, rows, me) && rows0.Keys <= rows.Keys
    requires AllSafe(s, rows, rows0, copies) && Salvaged(t, rows', rows, copies1, lost)
    ensures AllSafe(t, rows', rows0 - gone, MoreCopies(rows, rows0, copies, copies1))
    ensures LostEdits(t.history, rows0, gone) && (lost == None ==> gone == {})
  {
    hide Grows, OthersWrote, CopyOf;
    var more := MoreCopies(rows, rows0, copies, copies1);
    gone := set id | id in Maybe(lost) && id in rows0 && id !in copies && rows[id] == rows0[id];
    assert gone <= Maybe(lost);
    assert |gone| <= 1 by {
      if gone != {} {
        assert gone == {lost.value};
      }
    }
    CopiesStayDistinct(s, t, rows, rows', rows0, copies, copies1, lost, gone);
    forall id | id in rows0 - gone && IsEdit(rows0[id]) ensures Safe(t, rows', id, rows0[id], more) {
      assert Safe(s, rows, id, rows0[id], copies);
      SafeAfter(s, t, rows, rows', rows0, copies, copies1, lost, id);
    }
  }

  lemma SafeAfter(s: System, t: System, rows: Rows, rows': Rows, rows0: Rows, copies: Copies, copies1: Copies, lost: Option<DocId>,
                  id: DocId)
    requires Grows(s, t) && UnknownStay(s, t, rows) && id in rows0 && IsEdit(rows0[id]) && Safe(s, rows, id, rows0[id], copies)
    requires Salvaged(t, rows', rows, copies1, lost)
    requires id in Maybe(lost) && id in rows && rows[id] == rows0[id] ==> id in copies
    ensures Safe(t, rows', id, rows0[id], MoreCopies(rows, rows0, copies, copies1))
  {
    hide Grows, CopyOf;
    if OnServer(s, id, rows0[id], copies) {
      OnServerLater(s, t, id, rows0[id], copies);
    }
    if id in copies {
      if !OnServer(s, id, rows0[id], copies) {
        CopyRowLater(s, t, rows, rows', copies[id], rows0[id]);
      }
    } else if id in rows && rows[id] == rows0[id] {
      var kept := rows - Maybe(lost);
      assert id in kept && kept[id] == rows[id];
      assert Held(t, rows', id, kept[id], copies1);
    }
  }

  lemma CopiesStayDistinct(s: System, t: System, rows: Rows, rows': Rows, rows0: Rows, copies: Copies, copies1: Copies,
                           lost: Option<DocId>, gone: set<DocId>)
    requires AllSafe(s, rows, rows0, copies) && Salvaged(t, rows', rows, copies1, lost) && rows0.Keys <= rows.Keys
    requires Grows(s, t) && gone <= Maybe(lost) && forall id :: id in gone ==> id !in copies
    ensures OneCopyEach(rows0 - gone, MoreCopies(rows, rows0, copies, copies1))
  {
    hide CopyOf, Appended, DirtyOrigin;
    forall i | i in copies ensures copies[i] in rows || copies[i] in t.history {
      assert Safe(s, rows, i, rows0[i], copies);
    }
    forall j | j in copies1 ensures copies1[j] !in rows && copies1[j] !in t.history {
      assert Held(t, rows', j, rows[j], copies1);
    }
  }

  /** What was not known to the server when the last page was read is not known to it after the pull. */
  lemma UnknownAfterPull(read: System, t: System, rows: Rows, rows': Rows, me: DevId)
    requires OnlyOthers(read, t, rows, me) && DirtyOrigin(t.history, rows', rows)
    ensures Grows(read, t) && DeletionsUnknown(read.history, t.history, rows')
  {
    hide Grows, OthersWrote;
  }

  lemma SmoothAfterPull(s: System, read: System, t: System, rows0: Rows, rows: Rows, me: DevId)
    requires OnlyOthers(s, read, rows0, me) && OnlyOthers(read, t, rows0, me) && t.history == s.history
    requires AtSnapshot(read.history, rows) && DirtyOrigin(t.history, rows, rows0) && NoOrphans(s.history, rows0)
    ensures AtSnapshot(t.history, rows) && NoOrphans(t.history, rows)
  {
    forall id | id in s.history || id in read.history
      ensures id in s.history && id in read.history && read.history[id] == s.history[id]
    {
      assert id in read.history && Appended(s, read, id);
      assert id in t.history && Appended(read, t, id);
    }
    assert read.history == s.history;
  }

  /** A deletion the server could not know of makes a push fail. */
  lemma OrphansCaught(s: System, read: System, mid: System, t: System, rows0: Rows, midRows: Rows, rows: Rows, me: DevId)
    requires OnlyOthers(s, read, rows0, me) && OnlyOthers(read, mid, rows0, me) && DirtyOrigin(mid.history, midRows, rows0)
    requires PushProgress(read.history, t.history, midRows, rows, {}, me)
    ensures NoOrphans(s.history, rows0)
  {
    hide Grows, OthersWrote;
    forall id | id in rows0 && rows0[id].dirty && rows0[id].deleted ensures id in s.history {
      if id !in mid.history {
        assert midRows[id] == rows0[id];
        assert Handled(read.history, t.history, id, midRows[id], rows[id], me);
      }
    }
  }

  // ------------------------------------------------------------------ a sync under way -----

  /** What a sync needs for any of its pulls and pushes to go through. */
  ghost predicate CanEnd(p: Plan) {
    NoOrphans(p.start.history, p.rows) && (p.solo ==> CopiesFit(p.start.tables, p.rows, p.cache, p.limit, false))
  }

  /** Alone, and with no orphan. */
  ghost predicate Smooth(p: Plan) {
    p.solo && NoOrphans(p.start.history, p.rows)
  }

  /** How far it has come: no edit is lost, and it was beaten in every round so far. */
  ghost predicate SyncSoFar(p: Plan, begin: nat, trace: seq<Event>, s: System, rows: Rows, cache: Entries, copies: Copies,
                            rounds: seq<Round>, tally: Tally) {
    && begin <= |trace| && Grows(p.start, s) && AllSafe(s, rows, p.rows, copies) && p.rows.Keys <= rows.Keys
    && LostRounds(trace, rounds, p.me) && Counted(trace, rounds, begin, p.me, tally)
    && (rounds != [] ==> rounds[|rounds| - 1].done <= |trace|)
    && (if rounds == [] then s == p.start && rows == p.rows && cache == p.cache else CanEnd(p) && !p.solo)
  }

  /** It was beaten in every round but the last, which left nothing to push. */
  ghost predicate SyncOver(p: Plan, begin: nat, trace: seq<Event>, s: System, rows: Rows, copies: Copies, rounds: seq<Round>,
                           tally: Tally) {
    && rounds != [] && AllSafe(s, rows, p.rows, copies) && !AnyDirty(rows, {}) && CanEnd(p)
    && LostRounds(trace, rounds[..|rounds| - 1], p.me) && Counted(trace, rounds, begin, p.me, tally)
  }

  lemma SyncStarts(p: Plan, trace: seq<Event>)
    ensures SyncSoFar(p, |trace|, trace, p.start, p.rows, p.cache, map[], [], Tally(0, 0, 0))
  {
    GrowsReflexive(p.start);
    NoRounds(trace, |trace|, p.me);
  }

  /** A round has pulled. */
  lemma RoundPulled(p: Plan, begin: nat, trace: seq<Event>, top: System, read: System, mid: System, rows: Rows, rows': Rows,
                    cache: Entries, copies: Copies, made: Copies, rounds: seq<Round>, tally: Tally)
    requires SyncSoFar(p, begin, trace, top, rows, cache, copies, rounds, tally)
    requires OnlyOthers(top, read, rows, p.me) && OnlyOthers(read, mid, rows, p.me) && OnlyOthers(top, mid, rows, p.me)
    requires AllHeld(mid, rows', rows, made) && DirtyOrigin(mid.history, rows', rows) && AtSnapshot(read.history, rows')
    requires rows.Keys <= rows'.Keys
    requires p.solo ==> mid.history == top.history
    ensures AllSafe(mid, rows', p.rows, MoreCopies(rows, p.rows, copies, made))
    ensures OnlyOthers(read, mid, map[], p.me) && DeletionsUnknown(read.history, mid.history, rows')
    ensures Smooth(p) ==> AtSnapshot(mid.history, rows') && NoOrphans(mid.history, rows')
  {
    hide OnlyOthers, AllSafe, AllHeld, DirtyOrigin, AtSnapshot, NoOrphans, DeletionsUnknown, Counted, LostRounds, CopiesFit;
    NothingLost(mid, rows', rows, made);
    var gone := SafeAfterPull(top, mid, rows, rows', p.rows, copies, made, None, p.me);
    assert p.rows - {} == p.rows;
    UnknownAfterPull(read, mid, rows, rows', p.me);
    OnlyOthersFewer(read, mid, rows, map[], p.me);
    if Smooth(p) {
      SmoothAfterPull(top, read, mid, rows, rows', p.me);
    }
  }

  /** The pull of a round has failed. */
  lemma RoundFailed(p: Plan, begin: nat, trace: seq<Event>, top: System, mid: System, rows: Rows, rows': Rows, cache: Entries,
                    copies: Copies, made: Copies, lost: Option<DocId>, rounds: seq<Round>, tally: Tally)
    returns (gone: set<DocId>)
    requires SyncSoFar(p, begin, trace, top, rows, cache, copies, rounds, tally)
    requires OnlyOthers(top, mid, rows, p.me) && Salvaged(mid, rows', rows, made, lost)
    ensures AllSafe(mid, rows', p.rows - gone, MoreCopies(rows, p.rows, copies, made)) && LostEdits(mid.history, p.rows, gone)
  {
    hide OnlyOthers, AllSafe, Salvaged, Counted, LostRounds, LostEdits;
    gone := SafeAfterPull(top, mid, rows, rows', p.rows, copies, made, lost, p.me);
  }

  /** A round has pulled and pushed: from `top` at the end of `a`, over `mid` at the end of `b`, to `end`. */
  lemma RoundOver(p: Plan, begin: nat, a: seq<Event>, b: seq<Event>, c: seq<Event>, top: System, read: System, mid: System,
                  end: System, rows: Rows, midRows: Rows, rows': Rows, cache: Entries, cache': Entries, copies: Copies,
                  copies': Copies, rounds: seq<Round>, round: Round, tally: Tally)
    requires SyncSoFar(p, begin, a, top, rows, cache, copies, rounds, tally)
    requires a <= b <= c && top == Run(a) && mid == Run(b) && end == Run(c)
    requires rows == RowsOf(top, p.me) && midRows == RowsOf(mid, p.me) && rows' == RowsOf(end, p.me)
    requires round == Round(|a|, round.read, |b|, |c|) && |a| < round.read <= |b|
    requires IsLastFetch(b[round.read - 1], p.me) && read == Run(b[..round.read])
    requires OnlyOthers(top, read, rows, p.me) && OnlyOthers(read, mid, rows, p.me) && OnlyOthers(top, mid, rows, p.me)
    requires DirtyOrigin(mid.history, midRows, rows) && AtSnapshot(read.history, midRows) && rows.Keys <= midRows.Keys
    requires PushProgress(read.history, end.history, midRows, rows', {}, p.me) && midRows.Keys == rows'.Keys
    requires Grows(mid, end) && AllSafe(end, rows', p.rows, copies')
    requires p.solo ==> CopiesFit(top.tables, rows, cache, p.limit, false)
    requires Smooth(p) ==> !AnyDirty(rows', {})
    ensures var tally' := tally.Plus(Tally(Applies(b, p.me) - Applies(a, p.me), |Settled(rows, midRows)|, |Settled(midRows, rows')|));
      if AnyDirty(rows', {}) then SyncSoFar(p, begin, c, end, rows', cache', copies', rounds + [round], tally')
      else SyncOver(p, begin, c, end, rows', copies', rounds + [round], tally')
  {
    hide Run, RowsOf, OnlyOthers, AllSafe, DirtyOrigin, AtSnapshot, NoOrphans, Counted, LostRounds, CopiesFit, Grows, PushProgress,
         Settled, AnyDirty, LostRound, RowsAt, HistoryAt, IsLastFetch;
    RoundDone(a, b, c, top, mid, end, rounds, begin, round, p.me, tally);
    OnlyOthersGrows(top, mid, rows, p.me);
    GrowsTransitive(p.start, top, mid);
    GrowsTransitive(p.start, mid, end);
    if rounds == [] {
      OrphansCaught(top, read, mid, end, rows, midRows, rows', p.me);
    }
    assert (rounds + [round])[..|rounds + [round]| - 1] == rounds;
    if AnyDirty(rows', {}) {
      ReadAt(b, c, round.read, read);
      RoundIsLost(c, round, midRows, rows', p.me);
      LostOneMore(c, rounds, round, p.me);
    }
  }

  lemma ReadAt(b: seq<Event>, c: seq<Event>, n: nat, read: System)
    requires b <= c && n <= |b| && read == Run(b[..n])
    ensures HistoryAt(c, n) == read.history
  {
    hide Run;
    assert c[..n] == b[..n];
  }

  lemma BeatenOnce(p: Plan, begin: nat, trace: seq<Event>, s: System, rows: Rows, cache: Entries, copies: Copies,
                   rounds: seq<Round>, tally: Tally)
    requires SyncSoFar(p, begin, trace, s, rows, cache, copies, rounds, tally) && rounds != []
    ensures !p.solo
  {
  }

  lemma Contended(p: Plan, begin: nat, trace: seq<Event>, s: System, rows: Rows, cache: Entries, copies: Copies, rounds: seq<Round>,
                  tally: Tally)
    requires SyncSoFar(p, begin, trace, s, rows, cache, copies, rounds, tally) && rounds != []
    ensures LostRounds(trace, rounds, p.me) && InOrder(rounds, begin)
    ensures NoOrphans(p.start.history, p.rows) && AllSafe(s, rows, p.rows, copies)
  {
    hide LostRounds, AllSafe, NoOrphans;
  }

  /** The prefetch that follows changes nothing of this. */
  lemma SyncEnds(p: Plan, begin: nat, a: seq<Event>, b: seq<Event>, s: System, t: System, rows: Rows, copies: Copies,
                 rounds: seq<Round>, tally: Tally)
    requires SyncOver(p, begin, a, s, rows, copies, rounds, tally) && a <= b && OnlyOthers(s, t, rows, p.me)
    ensures rounds != [] && LostRounds(b, rounds[..|rounds| - 1], p.me) && Counted(b, rounds, begin, p.me, tally)
    ensures AllSafe(t, rows, p.rows, copies) && AllOnServer(t, p.rows, copies) && CanEnd(p)
  {
    hide OnlyOthers, AllSafe, AllOnServer, AnyDirty, LostRounds, Counted, CanEnd;
    NothingLeft(s, t, rows, p.rows, copies, p.me);
    var last := rounds[|rounds| - 1];
    assert rounds == rounds[..|rounds| - 1] + [last];
    RoundsKept(a, b, rounds[..|rounds| - 1], last, begin, p.me, tally);
  }

  lemma NothingLeft(s: System, t: System, rows: Rows, rows0: Rows, copies: Copies, me: DevId)
    requires OnlyOthers(s, t, rows, me) && AllSafe(s, rows, rows0, copies)
    ensures AllSafe(t, rows, rows0, copies)
    ensures !AnyDirty(rows, {}) ==> AllOnServer(t, rows0, copies)
  {
    hide OnServer, Grows, OthersWrote, CopyOf, OneCopyEach;
    AllSafeLater(s, t, rows, rows0, copies);
    if !AnyDirty(rows, {}) {
      assert forall id :: id in rows ==> !rows[id].dirty;
      forall id | id in rows0 && IsEdit(rows0[id]) ensures OnServer(t, id, rows0[id], copies) {
        assert Safe(t, rows, id, rows0[id], copies);
      }
    }
  }
}
