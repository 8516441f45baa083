/** What a device finds at the other end of its connection: the server, every other device, and
    all they do while it waits. */
module Network {
  import opened Types
  import opened Server
  import opened Changes
  import opened Device
  import opened System
  import opened Foreign

  lemma NoEvents(s: System)
    ensures RunFrom(s, []) == s
  {
  }

  class Network {
    const me: DevId
    // No request fails, no reply gets lost, and the clock goes forward.
    const reliable: bool
    // Nobody else acts.
    const alone: bool
    const solo: bool := alone && reliable
    // The server and the other devices.
    var world: System
    // How many more events of the others may fall into the calls to come. Any number, but finite:
    // a pull could be kept busy for ever by writers that never stop.
    var budget: nat
    // The run so far, of everybody.
    ghost var trace: seq<Event>

    constructor (me: DevId, reliable: bool, alone: bool, budget: nat)
      ensures world == START && trace == [] && this.me == me && this.budget == budget
      ensures this.reliable == reliable && this.alone == alone
    {
      this.me, this.reliable, this.alone, this.budget := me, reliable, alone, budget;
      world, trace := START, [];
    }

    /** Time passes: the others do whatever they do. */
    method Interleave() returns (ghost run: seq<Event>)
      modifies this
      ensures AllForeign(run, me) && world == RunFrom(old(world), run) && trace == old(trace) + run
      ensures |run| + budget <= old(budget)
      ensures alone ==> run == []
    {
      hide Next, RunFrom;
      run := [];
      NoEvents(world);
      var more: bool := *;
      while !alone && more && budget > 0
        invariant AllForeign(run, me) && world == RunFrom(old(world), run) && trace == old(trace) + run
        invariant |run| + budget <= old(budget)
        invariant alone ==> run == []
        decreases budget
      {
        var e: Event := *;
        if IsForeign(e, me) {
          world := Next(world, e);
          OneMore(old(world), run, e);
          trace := trace + [e];
          run := run + [e];
        }
        budget := budget - 1;
        more := *;
      }
    }

    /** Whether a request fails, or a reply gets lost. */
    method Fails() returns (fails: bool)
      ensures reliable ==> !fails
    {
      fails := *;
      if reliable {
        fails := false;
      }
    }

    /** The clock: if it goes forward, it is past everything the cache remembers. */
    method Now(cache: map<BlobId, CacheEntry>) returns (now: nat)
      ensures reliable ==> forall b :: b in cache ==> cache[b].lastAccess < now
    {
      now := *;
      var rest := cache.Keys;
      while reliable && rest != {}
        invariant rest <= cache.Keys
        invariant reliable ==> forall b :: b in cache && b !in rest ==> cache[b].lastAccess < now
      {
        var b :| b in rest;
        rest := rest - {b};
        if now <= cache[b].lastAccess {
          now := cache[b].lastAccess + 1;
        }
      }
    }

    /** `Uuid::now_v7()` for a new document and its blob, and the random key of its encryption. */
    method NewBlob(plain: Bytes, salt: nat) returns (id: DocId, b: BlobId, content: CipherBlob)
      modifies `world
      ensures id == old(world).supply && b == id + 1 && content == CipherBlob(id, plain, salt)
      ensures world == old(world).(supply := old(world).supply + 2, contents := old(world).contents[b := content])
    {
      id, b := world.supply, world.supply + 1;
      content := CipherBlob(id, plain, salt);
      world := world.(supply := world.supply + 2, contents := world.contents[b := content]);
    }

    /** `GET /v1/changes`. */
    method GetChanges(since: nat, limit: int) returns (page: Page)
      requires 1 <= limit <= MAX_LIMIT && DistinctSeqs(world.tables.docs)
      ensures IsPage(world.tables.docs, since, limit, page)
    {
      var r := ListChanges(world.tables.docs, Some(since), Some(limit));
      page := r.value;
    }

    /** `PUT /v1/blobs/{id}`. */
    method PutBlobRequest(b: BlobId, content: CipherBlob, now: nat) returns (reply: BlobReply)
      modifies `world
      ensures world == old(world).(tables := PutBlob(old(world).tables, b, content, now).0)
      ensures reply == PutBlob(old(world).tables, b, content, now).1
    {
      var out := PutBlob(world.tables, b, content, now);
      world := world.(tables := out.0);
      reply := out.1;
    }

    /** `PUT` or `DELETE /v1/docs/{id}` for a dirty row. */
    method WriteDoc(id: DocId, row: Row) returns (reply: Reply)
      requires row.deleted || row.blobId.Some?
      modifies `world
      ensures var out := PushReply(old(world).tables, id, row);
        world == Commit(old(world), me, id, out.0, out.1) && reply == out.1
    {
      var out := PushReply(world.tables, id, row);
      world := Commit(world, me, id, out.0, out.1);
      reply := out.1;
    }
  }
}
