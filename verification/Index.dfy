/** The in-memory index of an unlocked vault: a list of decrypted summaries, one a live document. */
module Index {
  import opened Types

  /** `DocSummary` without its `cached` flag. */
  datatype Summary = Summary(
    id: DocId,
    title: string,
    tags: seq<string>,
    note: string,
    mime: string,
    size: nat,
    contentHash: Digest,
    originalName: string,
    createdAt: nat,
    version: nat,
    dirty: bool,
    keepOffline: bool,
    blobSize: nat)

  /** `iter().find(|s| s.id == id)`. */
  function Find(index: seq<Summary>, id: DocId): (r: Option<Summary>)
    ensures r.Some? ==> r.value in index && r.value.id == id
    ensures r.None? ==> forall s :: s in index ==> s.id != id
  {
    if index == [] then None
    else if index[0].id == id then Some(index[0])
    else Find(index[1..], id)
  }

  /** `retain(|s| s.id != id)`. */
  function Retain(index: seq<Summary>, id: DocId): (r: seq<Summary>)
    ensures forall s :: s in r <==> s in index && s.id != id
    ensures Distinct(index) ==> Distinct(r)
  {
    if index == [] then []
    else
      var rest := Retain(index[1..], id);
      assert index == [index[0]] + index[1..];
      if index[0].id == id then rest else [index[0]] + rest
  }

  /** Overwrites the first slot with the summary's id, if there is one. */
  function Replace(index: seq<Summary>, new_: Summary): (r: seq<Summary>)
    ensures |r| == |index|
    ensures forall i :: 0 <= i < |index| ==> r[i].id == index[i].id
    ensures Distinct(index) ==> Distinct(r)
    ensures Distinct(index) ==>
      forall s :: s in r <==> (s in index && s.id != new_.id) || (s == new_ && Find(index, new_.id).Some?)
  {
    if index == [] then []
    else if index[0].id == new_.id then
      assert index == [index[0]] + index[1..];
      [new_] + index[1..]
    else
      assert index == [index[0]] + index[1..];
      [index[0]] + Replace(index[1..], new_)
  }

  ghost predicate Distinct(index: seq<Summary>) {
    forall i, j :: 0 <= i < j < |index| ==> index[i].id != index[j].id
  }

  /** Two duplicate-free indexes with the same members are the same list up to order. */
  lemma {:induction false} SameMembersSameBag(a: seq<Summary>, b: seq<Summary>)
    requires Distinct(a) && Distinct(b)
    requires forall s :: s in a <==> s in b
    ensures multiset(a) == multiset(b)
  {
    forall s ensures multiset(a)[s] == multiset(b)[s] {
      CountIsOne(a, s);
      CountIsOne(b, s);
    }
  }

  lemma {:induction false} CountIsOne(a: seq<Summary>, s: Summary)
    requires Distinct(a)
    ensures multiset(a)[s] == if s in a then 1 else 0
  {
    if a != [] {
      CountIsOne(a[1..], s);
      assert a == [a[0]] + a[1..];
    }
  }
}
