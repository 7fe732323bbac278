/**
 * Reference hydration on the read paths of backend/Server.js: the ids a response
 * mentions are collected without repetition, looked up in chunks of at most ten
 * (the limit of the store's `in` query), and each id is then replaced by the summary
 * found for it, or left as the raw id when there is none.
 */
module Hydration {
  import opened Common
  import opened Seqs
  import opened Store

  /** The largest id list one `in` query may carry. */
  const ChunkSize: nat := 10

  /** `{_id, username, email}` as built from a user document. */
  datatype UserSummary = UserSummary(id: Id, username: string, email: string)

  /** `{_id, name}` as built from a group document. */
  datatype GroupSummary = GroupSummary(id: Id, name: string)

  /** A reference in a response: the raw id, or the summary it was replaced with. */
  datatype Ref<+S> = Raw(id: Id) | Resolved(summary: S)

  function SummarizeUser(id: Id, u: User): UserSummary {
    UserSummary(id, u.username, u.email)
  }

  function SummarizeGroup(id: Id, g: Group): GroupSummary {
    GroupSummary(id, g.name)
  }

  /** The summaries of the ids in `wanted` that have a document: what `in` queries over `wanted` return. */
  function Directory<D, S>(docs: map<Id, D>, wanted: set<Id>, summarize: (Id, D) -> S): map<Id, S> {
    map id | id in wanted && id in docs :: summarize(id, docs[id])
  }

  /** Every user summary, looked up directly: the reference the chunked lookup is proved against. */
  function UserIndex(users: map<Id, User>): map<Id, UserSummary> {
    Directory(users, users.Keys, SummarizeUser)
  }

  function GroupIndex(groups: map<Id, Group>): map<Id, GroupSummary> {
    Directory(groups, groups.Keys, SummarizeGroup)
  }

  /** One `where(documentId(), 'in', chunk)` query; the store refuses an empty list or one over ten ids. */
  function QueryIn<D, S>(docs: map<Id, D>, chunk: seq<Id>, summarize: (Id, D) -> S): map<Id, S>
    requires 0 < |chunk| <= ChunkSize
  {
    Directory(docs, (set id | id in chunk), summarize)
  }

  function Min(a: int, b: int): int {
    if a <= b then a else b
  }

  /** The id list cut into consecutive pieces `slice(i, i + 10)` for i = 0, 10, 20, ... */
  function Chunks(ids: seq<Id>): seq<seq<Id>>
    decreases |ids|
  {
    if ids == [] then []
    else
      var n := Min(|ids|, ChunkSize);
      [ids[..n]] + Chunks(ids[n..])
  }

  /** The chunks concatenate back to the id list, and each is a valid `in` list of 1 to 10 ids. */
  lemma {:induction false} ChunksCover(ids: seq<Id>)
    ensures Flatten(Chunks(ids)) == ids
    ensures forall k :: 0 <= k < |Chunks(ids)| ==> 0 < |Chunks(ids)[k]| <= ChunkSize
    decreases |ids|
  {
    if ids != [] {
      var n := Min(|ids|, ChunkSize);
      ChunksCover(ids[n..]);
      var cs := Chunks(ids);
      assert cs[1..] == Chunks(ids[n..]);
      assert ids == ids[..n] + ids[n..];
      forall k | 0 < k < |cs| ensures 0 < |cs[k]| <= ChunkSize {
        assert cs[k] == Chunks(ids[n..])[k - 1];
      }
    }
  }

  /** There are ceil(n / 10) chunks: one query per started ten. */
  lemma {:induction false} ChunksCount(ids: seq<Id>)
    ensures |Chunks(ids)| == (|ids| + ChunkSize - 1) / ChunkSize
    decreases |ids|
  {
    if ids != [] {
      ChunksCount(ids[Min(|ids|, ChunkSize)..]);
    }
  }

  /** Chunk k is exactly the slice the handlers' loop takes at i = 10 * k. */
  lemma {:induction false} ChunkIsSlice(ids: seq<Id>, k: nat)
    requires k < |Chunks(ids)|
    ensures ChunkSize * k < |ids|
    ensures Chunks(ids)[k] == ids[ChunkSize * k .. Min(ChunkSize * k + ChunkSize, |ids|)]
    decreases |ids|
  {
    var n := Min(|ids|, ChunkSize);
    if k > 0 {
      ChunkIsSlice(ids[n..], k - 1);
      assert Chunks(ids)[k] == Chunks(ids[n..])[k - 1];
      assert ids[n..][ChunkSize * (k - 1) .. Min(ChunkSize * (k - 1) + ChunkSize, |ids[n..]|)]
          == ids[ChunkSize * k .. Min(ChunkSize * k + ChunkSize, |ids|)];
    }
  }

  /** With distinct ids, every id lands in exactly one chunk. */
  lemma {:induction false} ChunksPartition(ids: seq<Id>, id: Id)
    requires NoDup(ids)
    requires id in ids
    ensures exists k :: 0 <= k < |Chunks(ids)| && id in Chunks(ids)[k]
    ensures forall k, j :: 0 <= k < j < |Chunks(ids)| ==> !(id in Chunks(ids)[k] && id in Chunks(ids)[j])
    decreases |ids|
  {
    var cs := Chunks(ids);
    var n := Min(|ids|, ChunkSize);
    var rest := ids[n..];
    assert cs[0] == ids[..n] && cs[1..] == Chunks(rest);
    NoDupSplit(ids, n);
    if id in ids[..n] {
      ChunksCover(rest);
      FlattenMember(Chunks(rest), id);
      forall k | 0 < k < |cs| ensures id !in cs[k] {
        assert cs[k] == Chunks(rest)[k - 1];
      }
    } else {
      assert id in rest by {
        assert ids == ids[..n] + rest;
      }
      ChunksPartition(rest, id);
      var k :| 0 <= k < |Chunks(rest)| && id in Chunks(rest)[k];
      assert cs[k + 1] == Chunks(rest)[k];
      forall k1, j1 | 0 <= k1 < j1 < |cs| ensures !(id in cs[k1] && id in cs[j1]) {
        if k1 > 0 {
          assert cs[k1] == Chunks(rest)[k1 - 1] && cs[j1] == Chunks(rest)[j1 - 1];
        }
      }
    }
  }

  /** Merging the lookup of the next slice into the lookup of the ids before it covers the slice too. */
  lemma DirectoryGrows<D, S>(docs: map<Id, D>, ids: seq<Id>, i: nat, m: nat, summarize: (Id, D) -> S)
    requires i < m <= |ids|
    ensures Directory(docs, (set id | id in ids[..i]), summarize) + Directory(docs, (set id | id in ids[i..m]), summarize)
            == Directory(docs, (set id | id in ids[..m]), summarize)
  {
    assert ids[..m] == ids[..i] + ids[i..m];
  }

  /**
   * One pass of the chunk loop: while ids remain after the first k chunks, there is a
   * chunk k, it is the next slice, and it extends the prefix covered so far.
   */
  lemma ChunkStep(ids: seq<Id>, k: nat)
    requires k <= |Chunks(ids)| && ChunkSize * k < |ids|
    requires ids[..ChunkSize * k] == Flatten(Chunks(ids)[..k])
    ensures k < |Chunks(ids)|
    ensures Chunks(ids)[k] == ids[ChunkSize * k .. Min(ChunkSize * k + ChunkSize, |ids|)]
    ensures ids[..Min(ChunkSize * k + ChunkSize, |ids|)] == Flatten(Chunks(ids)[..k + 1])
  {
    var cs := Chunks(ids);
    ChunksCount(ids);
    ChunkIsSlice(ids, k);
    var i, m := ChunkSize * k, Min(ChunkSize * k + ChunkSize, |ids|);
    var chunk := cs[k];
    calc {
      Flatten(cs[..k + 1]);
      { assert cs[..k + 1] == cs[..k] + [chunk]; FlattenAppend(cs[..k], [chunk]); }
      Flatten(cs[..k]) + Flatten([chunk]);
      { assert Flatten([chunk]) == chunk + Flatten([]); }
      ids[..i] + ids[i..m];
      { assert ids[..i] + ids[i..m] == ids[..m]; }
      ids[..m];
    }
  }

  /**
   * The chunk loop of the read handlers: one `in` query per slice of ten, the results
   * merged into one map. The k-th pass queries `Chunks(ids)[k]`, and the map is the same
   * as a direct lookup of every listed id.
   */
  method FetchSummaries<D, S>(docs: map<Id, D>, ids: seq<Id>, summarize: (Id, D) -> S)
    returns (dir: map<Id, S>)
    ensures dir == Directory(docs, (set id | id in ids), summarize)
  {
    dir := map[];
    if |ids| > 0 {
      var i := 0;
      ghost var k := 0;
      while i < |ids|
        invariant 0 <= k <= |Chunks(ids)| && i == ChunkSize * k
        invariant ids[..Min(i, |ids|)] == Flatten(Chunks(ids)[..k])
        invariant dir == Directory(docs, (set id | id in ids[..Min(i, |ids|)]), summarize)
      {
        ChunkStep(ids, k);
        var chunk := ids[i..Min(i + ChunkSize, |ids|)];
        var found := QueryIn(docs, chunk, summarize);
        DirectoryGrows(docs, ids, i, Min(i + ChunkSize, |ids|), summarize);
        dir := dir + found;
        i := i + ChunkSize;
        k := k + 1;
      }
      assert ids[..Min(i, |ids|)] == ids;
    }
  }

  /** `Array.from(new Set(...))`: the ids in first-occurrence order, each once. */
  method Distinct(s: seq<Id>) returns (ids: seq<Id>)
    ensures NoDup(ids)
    ensures forall id :: id in ids <==> id in s
  {
    var seen: set<Id> := {};
    ids := [];
    for k := 0 to |s|
      invariant NoDup(ids)
      invariant forall id :: id in ids <==> id in s[..k]
      invariant forall id :: id in seen <==> id in ids
    {
      assert s[..k + 1] == s[..k] + [s[k]];
      if s[k] !in seen {
        seen := seen + {s[k]};
        ids := ids + [s[k]];
      }
    }
    assert s[..|s|] == s;
  }

  /** `userMap[id] || id`: the summary when the map has one, otherwise the raw id. */
  function Lookup<S>(id: Id, dir: map<Id, S>): Ref<S> {
    if id in dir then Resolved(dir[id]) else Raw(id)
  }

  /** `ids.map(id => userMap[id] || id)`: element-wise replacement, length and order kept. */
  function Resolve<S>(ids: seq<Id>, dir: map<Id, S>): (r: seq<Ref<S>>)
    ensures |r| == |ids|
    ensures forall k :: 0 <= k < |ids| ==> r[k] == Lookup(ids[k], dir)
  {
    if ids == [] then [] else [Lookup(ids[0], dir)] + Resolve(ids[1..], dir)
  }

  /**
   * Looking ids up in the map fetched for a superset of them gives what a direct lookup
   * of every document gives: the chunked fetch loses nothing.
   */
  lemma ResolveFetched<D, S>(docs: map<Id, D>, wanted: set<Id>, ids: seq<Id>, summarize: (Id, D) -> S)
    requires forall id :: id in ids ==> id in wanted
    ensures Resolve(ids, Directory(docs, wanted, summarize)) == Resolve(ids, Directory(docs, docs.Keys, summarize))
  {
  }

  /** A missing document leaves its raw id in place. */
  lemma MissingStaysRaw<S>(ids: seq<Id>, dir: map<Id, S>, k: nat)
    requires k < |ids| && ids[k] !in dir
    ensures Resolve(ids, dir)[k] == Raw(ids[k])
  {
  }

  /** The id a user reference stands for: `typeof user === 'string' ? user : user._id`. */
  function RefId(r: Ref<UserSummary>): Id {
    match r
    case Raw(id) => id
    case Resolved(s) => s.id
  }

  /** The member-id normalisation of the client: each reference back to its id. */
  function RefIds(rs: seq<Ref<UserSummary>>): (ids: seq<Id>)
    ensures |ids| == |rs|
    ensures forall k :: 0 <= k < |rs| ==> ids[k] == RefId(rs[k])
  {
    if rs == [] then [] else [RefId(rs[0])] + RefIds(rs[1..])
  }

  /** Normalising a hydrated id list gives back the stored id list: hydration round-trips. */
  lemma {:induction false} HydrationRoundTrip(users: map<Id, User>, wanted: set<Id>, ids: seq<Id>)
    ensures RefIds(Resolve(ids, Directory(users, wanted, SummarizeUser))) == ids
  {
    var dir := Directory(users, wanted, SummarizeUser);
    var back := RefIds(Resolve(ids, dir));
    forall k | 0 <= k < |ids| ensures back[k] == ids[k] {
      if ids[k] in dir {
        assert dir[ids[k]] == SummarizeUser(ids[k], users[ids[k]]);
      }
    }
  }

  /** A task as the list handlers first push it: `{_id, ...taskData}`, every reference raw. */
  datatype TaskResponse = TaskResponse(
    id: Id,
    task: Task,
    owner: Ref<UserSummary>,
    group: Option<Ref<GroupSummary>>,
    assignedTo: seq<Ref<UserSummary>>)

  /** A group as the list handlers return it. */
  datatype GroupResponse = GroupResponse(
    id: Id,
    group: Group,
    owner: Ref<UserSummary>,
    members: seq<Ref<UserSummary>>)

  function RawIds<S>(ids: seq<Id>): (r: seq<Ref<S>>)
    ensures r == Resolve(ids, map[])
  {
    if ids == [] then [] else [Raw(ids[0])] + RawIds(ids[1..])
  }

  function RawTask(id: Id, t: Task): TaskResponse {
    TaskResponse(id, t, Raw(t.userId), if t.groupId.Some? then Some(Raw(t.groupId.value)) else None, RawIds(t.assignedTo))
  }

  function RawGroup(id: Id, g: Group): GroupResponse {
    GroupResponse(id, g, Raw(g.ownerId), RawIds(g.members))
  }

  // ---------------------------------------------------------------------------
  // Merging the two snapshots of a user listing

  /** The first snapshot, then those of the second not already listed. */
  function Merged(first: seq<Id>, second: seq<Id>): seq<Id> {
    first + Keep(second, (set x | x in second) - (set x | x in first))
  }

  /** Merging two duplicate-free snapshots: no duplicates, exactly their union, first one leading. */
  lemma MergedUnion(first: seq<Id>, second: seq<Id>)
    requires NoDup(first) && NoDup(second)
    ensures NoDup(Merged(first, second))
    ensures forall x :: x in Merged(first, second) <==> x in first || x in second
    ensures Merged(first, second)[..|first|] == first
  {
    var sel := (set x | x in second) - (set x | x in first);
    var tail := Keep(second, sel);
    KeepNoDup(second, sel);
    var m := first + tail;
    forall i, j | 0 <= i < j < |m| ensures m[i] != m[j] {
      if j >= |first| {
        assert m[j] == tail[j - |first|];
        assert tail[j - |first|] in tail;
        if i < |first| {
          assert m[i] == first[i];
          assert m[j] !in first;
        } else {
          assert m[i] == tail[i - |first|];
        }
      }
    }
    assert m[..|first|] == first;
  }

  /** One step of the second snapshot loop: the next id is kept iff the first snapshot lacks it. */
  lemma KeepStep(second: seq<Id>, k: nat, first: seq<Id>)
    requires k < |second|
    ensures var sel := (set x | x in second) - (set x | x in first);
      Keep(second[..k + 1], sel) == Keep(second[..k], sel) + (if second[k] in first then [] else [second[k]])
  {
    var sel := (set x | x in second) - (set x | x in first);
    assert second[..k + 1] == second[..k] + [second[k]];
    KeepAppend(second[..k], [second[k]], sel);
    assert second[k] in second;
    assert Keep([second[k]], sel) == Keep([], sel) + (if second[k] in sel then [second[k]] else []);
  }

  /** The two snapshot loops of the user listings, with their `processedTaskIds` / `processedGroupIds` set. */
  method MergeSnapshots(first: seq<Id>, second: seq<Id>) returns (ids: seq<Id>)
    ensures ids == Merged(first, second)
  {
    var processed: set<Id> := {};
    ids := [];
    for k := 0 to |first|
      invariant ids == first[..k]
      invariant forall x :: x in processed <==> x in first[..k]
    {
      assert first[..k + 1] == first[..k] + [first[k]];
      processed := processed + {first[k]};
      ids := ids + [first[k]];
    }
    assert first[..|first|] == first;
    ghost var sel := (set x | x in second) - (set x | x in first);
    for k := 0 to |second|
      invariant ids == first + Keep(second[..k], sel)
      invariant forall x :: x in processed <==> x in first
    {
      KeepStep(second, k, first);
      if second[k] !in processed {
        ids := ids + [second[k]];
      }
    }
    assert second[..|second|] == second;
  }

}
