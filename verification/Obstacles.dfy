/** What can make a sync fail although every request is answered, and the steps of one device in a run. */
module Obstacles {
  import opened Types
  import opened Server
  import opened Changes
  import opened Device
  import opened System
  import opened Foreign
  import opened Cache

  /** A step of a device in a pull or a push that is counted or that can come to nothing. */
  predicate IsStep(e: Event, me: DevId) {
    e.Act? && e.dev == me && (e.action.Apply? || e.action.Push? || e.action.Download? || e.action.Abandon?)
  }

  /** From place `from` on there are no such steps. */
  predicate Quiet(trace: seq<Event>, from: nat, me: DevId) {
    forall n :: from <= n < |trace| ==> !IsStep(trace[n], me)
  }

  /** There are none but the one at place `at`. */
  predicate QuietBut(trace: seq<Event>, from: nat, me: DevId, at: nat) {
    forall n :: from <= n < |trace| && n != at ==> !IsStep(trace[n], me)
  }

  /** The server refuses the row: it deletes a document the server does not know, or its blob is not there. */
  ghost predicate Refused(s: System, me: DevId, id: DocId) {
    && me in s.devices && id in s.devices[me].rows
    && var row := s.devices[me].rows[id];
    if row.deleted then id !in s.tables.docs else row.blobId.Some? && row.blobId.value !in s.tables.blobs
  }

  /** The blob of the edit that is to be copied cannot be had: it is not cached, and is not on the server or
      would not outlive the eviction pass of its own download. */
  ghost predicate Stuck(s: System, me: DevId, limit: int) {
    && me in s.devices && s.devices[me].pending.Some? && s.devices[me].pending.value.row.blobId.Some?
    && var dev, b := s.devices[me], s.devices[me].pending.value.row.blobId.value;
    && b !in dev.cache
    && (b in s.tables.blobs ==> !Survives(dev.rows, dev.cache, limit, b, s.tables.blobs[b].content.Size()))
  }

  /** At this place of the run the device meets with one of the two. */
  ghost predicate Obstacle(trace: seq<Event>, n: nat, me: DevId, limit: int)
    requires n < |trace|
  {
    var e := trace[n];
    && e.Act? && e.dev == me
    && ((e.action.Push? && Refused(Run(trace[..n]), me, e.action.id))
        || ((e.action.Download? || e.action.Abandon?) && Stuck(Run(trace[..n]), me, limit)))
  }

  ghost predicate Clear(trace: seq<Event>, from: nat, me: DevId, limit: int) {
    forall n :: from <= n < |trace| ==> !Obstacle(trace, n, me, limit)
  }

  /** How many items of pages the device has taken. */
  function Applies(trace: seq<Event>, me: DevId): nat {
    if trace == [] then 0
    else
      var e := trace[|trace| - 1];
      Applies(trace[..|trace| - 1], me) + if e.Act? && e.dev == me && e.action.Apply? then 1 else 0
  }

  /** The documents the device has pushed, in order. */
  function Pushes(trace: seq<Event>, me: DevId): seq<DocId> {
    if trace == [] then []
    else
      var e := trace[|trace| - 1];
      Pushes(trace[..|trace| - 1], me) + if e.Act? && e.dev == me && e.action.Push? then [e.action.id] else []
  }

  lemma QuietIsClear(trace: seq<Event>, from: nat, me: DevId, limit: int)
    requires Quiet(trace, from, me)
    ensures Clear(trace, from, me, limit)
  {
    hide Run;
  }

  /** Over two stretches of a run. */
  lemma ClearBoth(a: seq<Event>, b: seq<Event>, from: nat, me: DevId, limit: int)
    requires a <= b && from <= |a|
    ensures Clear(b, from, me, limit) <==> Clear(a, from, me, limit) && Clear(b, |a|, me, limit)
  {
    hide Run, Refused, Stuck;
    forall n: nat | n < |a| ensures Obstacle(b, n, me, limit) <==> Obstacle(a, n, me, limit) {
      assert b[..n] == a[..n];
    }
  }

  /** Only one step of a stretch can be an obstacle. */
  lemma ClearBut(trace: seq<Event>, from: nat, me: DevId, at: nat, limit: int)
    requires QuietBut(trace, from, me, at) && from <= at
    ensures Clear(trace, from, me, limit) <==> at >= |trace| || !Obstacle(trace, at, me, limit)
  {
    hide Run, Refused, Stuck;
  }

  lemma {:induction false} QuietApplies(a: seq<Event>, b: seq<Event>, me: DevId)
    requires a <= b && forall n :: |a| <= n < |b| ==> !(b[n].Act? && b[n].dev == me && b[n].action.Apply?)
    ensures Applies(b, me) == Applies(a, me)
    decreases |b|
  {
    if |a| < |b| {
      QuietApplies(a, b[..|b| - 1], me);
    } else {
      assert a == b;
    }
  }

  lemma OneApply(a: seq<Event>, me: DevId, now: nat, limit: int)
    ensures Applies(a + [Act(me, Apply(now))], me) == Applies(a, me) + 1
    ensures Clear(a + [Act(me, Apply(now))], |a|, me, limit)
  {
    hide Run;
    var b := a + [Act(me, Apply(now))];
    assert b[..|b| - 1] == a;
  }

  lemma QuietStretch(a: seq<Event>, b: seq<Event>, me: DevId, limit: int)
    requires a <= b && Quiet(b, |a|, me)
    ensures Applies(b, me) == Applies(a, me) && Clear(b, |a|, me, limit)
  {
    QuietApplies(a, b, me);
    QuietIsClear(b, |a|, me, limit);
  }

  lemma NothingHappened(trace: seq<Event>, me: DevId, limit: int)
    ensures Clear(trace, |trace|, me, limit)
  {
  }

  // ------------------------------------------------------------------ a conflict copy ------

  /** From `a` to `b` a device asked for a blob at place `at`. */
  predicate Fetching(a: seq<Event>, b: seq<Event>, at: nat, me: DevId) {
    && a <= b && |a| <= at <= |b| && QuietBut(b, |a|, me, at)
    && (at < |b| ==> b[at].Act? && b[at].dev == me && b[at].action.Download?)
  }

  lemma CopyGivenUp(a: seq<Event>, b: seq<Event>, at: nat, me: DevId)
    requires Fetching(a, b, at, me)
    ensures Applies(b + [Act(me, Abandon)], me) == Applies(a, me)
  {
    QuietApplies(a, b + [Act(me, Abandon)], me);
  }

  lemma CopyMade(a: seq<Event>, b: seq<Event>, c: seq<Event>, at: nat, me: DevId)
    requires Fetching(a, b, at, me) && b <= c && Quiet(c, |b|, me)
    ensures Applies(c, me) == Applies(a, me)
  {
    QuietApplies(a, c, me);
  }

  lemma CopyObstacle(a: seq<Event>, b: seq<Event>, at: nat, me: DevId, limit: int)
    requires Fetching(a, b, at, me) && Stuck(Run(b[..at]), me, limit)
    ensures !Clear(b + [Act(me, Abandon)], |a|, me, limit)
  {
    hide Run, Stuck, Refused;
    var c := b + [Act(me, Abandon)];
    assert c[..at] == b[..at];
    assert Obstacle(c, at, me, limit);
  }

  lemma NoCopyObstacle(a: seq<Event>, b: seq<Event>, c: seq<Event>, at: nat, me: DevId, limit: int)
    requires Fetching(a, b, at, me) && b <= c && Quiet(c, |b|, me)
    requires at < |b| ==> !Stuck(Run(b[..at]), me, limit)
    ensures Clear(c, |a|, me, limit)
  {
    hide Run, Stuck, Refused;
    if at < |b| {
      assert c[..at] == b[..at];
    }
    forall n | |a| <= n < |c| && n != at ensures !IsStep(c[n], me) {
      assert n < |b| ==> c[n] == b[n];
    }
  }

  // ------------------------------------------------------------------ a push ---------------

  /** From `a` to `b` the only step is the push of a document at place `at`, if there is one. */
  predicate PushAt(a: seq<Event>, b: seq<Event>, at: nat, me: DevId, id: DocId) {
    && a <= b && |a| <= at <= |b| && QuietBut(b, |a|, me, at)
    && (at < |b| ==> b[at].Act? && b[at].dev == me && b[at].action.Push? && b[at].action.id == id)
  }

  lemma StillQuiet(a: seq<Event>, b: seq<Event>, c: seq<Event>, me: DevId)
    requires a <= b <= c && (b == a || Quiet(b, |a|, me)) && Quiet(c, |b|, me)
    ensures Quiet(c, |a|, me)
  {
  }

  lemma NotPushed(a: seq<Event>, b: seq<Event>, me: DevId, id: DocId)
    requires a <= b && Quiet(b, |a|, me)
    ensures PushAt(a, b, |b|, me, id)
  {
  }

  lemma HasPushed(a: seq<Event>, b: seq<Event>, me: DevId, id: DocId, delivered: bool)
    requires a <= b && Quiet(b, |a|, me)
    ensures var c := b + [Act(me, Push(id, delivered))];
      PushAt(a, c, |b|, me, id) && c[..|b|] == b
  {
  }

  lemma RowPushed(a: seq<Event>, b: seq<Event>, c: seq<Event>, at: nat, me: DevId, id: DocId, limit: int)
    requires a <= b && PushAt(b, c, at, me, id)
    ensures Applies(c, me) == Applies(b, me)
    ensures Pushes(c, me) == Pushes(b, me) + if at < |c| then [id] else []
    ensures Clear(c, |a|, me, limit) <==> Clear(b, |a|, me, limit) && (at < |c| ==> !Refused(Run(c[..at]), me, id))
  {
    hide Run, Refused, Stuck;
    OnePush(b, c, at, me, id);
    QuietApplies(b, c, me);
    ClearBoth(b, c, |a|, me, limit);
    ClearBut(c, |b|, me, at, limit);
  }

  /** A device that is not pulling has no copy to make. */
  lemma FetchedIdly(a: seq<Event>, b: seq<Event>, c: seq<Event>, at: nat, me: DevId, limit: int)
    requires a <= b && Fetching(b, c, at, me)
    requires me in Run(c[..at]).devices && Run(c[..at]).devices[me].pending.None?
    ensures Applies(c, me) == Applies(b, me)
    ensures Clear(c, |a|, me, limit) <==> Clear(b, |a|, me, limit)
  {
    hide Run, Refused;
    QuietApplies(b, c, me);
    ClearBoth(b, c, |a|, me, limit);
    ClearBut(c, |b|, me, at, limit);
  }

  /** Between `a` and `b` the first `i` of the documents were pushed, and the server refused none of them. */
  ghost predicate PushedSoFar(a: seq<Event>, b: seq<Event>, me: DevId, ids: seq<DocId>, i: nat, reliable: bool, limit: int) {
    && a <= b && i <= |ids| && Pushes(b, me) == Pushes(a, me) + ids[..i]
    && Applies(b, me) == Applies(a, me) && (reliable ==> Clear(b, |a|, me, limit))
  }

  lemma NonePushed(a: seq<Event>, me: DevId, ids: seq<DocId>, reliable: bool, limit: int)
    ensures PushedSoFar(a, a, me, ids, 0, reliable, limit)
  {
  }

  lemma NextPushed(a: seq<Event>, b: seq<Event>, c: seq<Event>, at: nat, me: DevId, ids: seq<DocId>, i: nat, reliable: bool,
                   limit: int, ok: bool)
    requires PushedSoFar(a, b, me, ids, i, reliable, limit) && i < |ids| && PushAt(b, c, at, me, ids[i])
    requires ok || reliable ==> at < |c| && (ok <==> !Refused(Run(c[..at]), me, ids[i]))
    ensures ok ==> PushedSoFar(a, c, me, ids, i + 1, reliable, limit)
    ensures Applies(c, me) == Applies(a, me) && Pushes(c, me) <= Pushes(a, me) + ids
    ensures reliable ==> (ok <==> Clear(c, |a|, me, limit))
  {
    hide Run, Refused, Clear, Pushes, Applies, QuietBut;
    RowPushed(a, b, c, at, me, ids[i], limit);
    OneFurther(Pushes(a, me), ids, i);
  }

  lemma OneFurther(p: seq<DocId>, ids: seq<DocId>, i: nat)
    requires i < |ids|
    ensures p + ids[..i] + [ids[i]] == p + ids[..i + 1]
    ensures p + ids[..i] <= p + ids && p + ids[..i + 1] <= p + ids && p + ids[..i] + [] == p + ids[..i]
  {
    var next := ids[..i + 1];
    assert next == ids[..i] + [ids[i]];
  }

  lemma AllPushed(a: seq<Event>, b: seq<Event>, me: DevId, ids: seq<DocId>, reliable: bool, limit: int)
    requires PushedSoFar(a, b, me, ids, |ids|, reliable, limit)
    ensures Pushes(b, me) == Pushes(a, me) + ids && Applies(b, me) == Applies(a, me)
    ensures reliable ==> Clear(b, |a|, me, limit)
  {
    assert ids[..|ids|] == ids;
  }

  lemma {:induction false} OnePush(b: seq<Event>, c: seq<Event>, at: nat, me: DevId, id: DocId)
    requires PushAt(b, c, at, me, id)
    ensures Pushes(c, me) == Pushes(b, me) + if at < |c| then [id] else []
    decreases |c|
  {
    if |b| == |c| {
      assert b == c;
    } else {
      var most := c[..|c| - 1];
      OnePush(b, most, if at < |c| then at else |most|, me, id);
    }
  }
}
