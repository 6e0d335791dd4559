/** The three structures behind the secret cache, free of their Redis encoding, and what every run keeps. */
module SecretIndex {
  import opened Wrappers

  type Id = string

  /** A domain.SecretCacheRecord; `rest` stands for the fields search only passes through. */
  datatype Record = Record(id: Id, key: string, path: string, environmentId: Id, folderId: Id, createdBy: string,
                           createdByLabel: string, updatedBy: string, updatedByLabel: string, rest: string)

  datatype Index = Index(ids: set<Id>, records: map<Id, Record>, paths: map<string, Id>)

  const EMPTY := Index({}, map[], map[])

  function OldPath(a: Index, id: Id): string {
    if id in a.records then a.records[id].path else ""
  }

  /** A record that moves gives up its old path. */
  function Upserted(a: Index, r: Record): Index {
    var oldPath := OldPath(a, r.id);
    var paths := if oldPath != "" && oldPath != r.path then a.paths - {oldPath} else a.paths;
    Index(a.ids + {r.id}, a.records[r.id := r], if r.path != "" then paths[r.path := r.id] else paths)
  }

  function Deleted(a: Index, id: Id): Index {
    var path := OldPath(a, id);
    Index(a.ids - {id}, a.records - {id}, if path != "" then a.paths - {path} else a.paths)
  }

  /** What WarmSecrets does first: it drops the id set and the path keys, but not the hashes. */
  function Cleared(a: Index): Index {
    Index({}, a.records, map[])
  }

  // ---- runs ----

  datatype Op = Upsert(r: Record) | Delete(id: Id) | Clear

  /** A warming, as the steps it takes. */
  function Warming(records: seq<Record>): (ops: seq<Op>)
    ensures |ops| == |records| + 1 && ops[0] == Clear
    ensures forall k :: 0 <= k < |records| ==> ops[k + 1] == Upsert(records[k])
  {
    [Clear] + seq(|records|, k requires 0 <= k < |records| => Upsert(records[k]))
  }

  function Applied(a: Index, op: Op): Index {
    match op
    case Upsert(r) => Upserted(a, r)
    case Delete(id) => Deleted(a, id)
    case Clear => Cleared(a)
  }

  function Run(ops: seq<Op>): Index {
    if ops == [] then EMPTY else Applied(Run(ops[..|ops| - 1]), ops[|ops| - 1])
  }

  function Followed(current: map<Id, Record>, op: Op): map<Id, Record> {
    match op
    case Upsert(r) => current[r.id := r]
    case Delete(id) => current - {id}
    case Clear => map[]
  }

  /** The records a run leaves current, told without any cache: the last upsert of each id since its last delete
      or the last clearing. */
  function Current(ops: seq<Op>): map<Id, Record> {
    if ops == [] then map[] else Followed(Current(ops[..|ops| - 1]), ops[|ops| - 1])
  }

  /** A whole warming leaves the last record of each id, whatever was there before. */
  function Latest(records: seq<Record>): map<Id, Record> {
    if records == [] then map[]
    else Latest(records[..|records| - 1])[records[|records| - 1].id := records[|records| - 1]]
  }

  lemma {:induction false} RunSnoc(ops: seq<Op>, op: Op)
    ensures Run(ops + [op]) == Applied(Run(ops), op)
    ensures Current(ops + [op]) == Followed(Current(ops), op)
  {
    assert (ops + [op])[..|ops|] == ops;
  }

  lemma {:induction false} WarmingCurrent(ops: seq<Op>, records: seq<Record>)
    ensures Current(ops + Warming(records)) == Latest(records)
  {
    if records == [] {
      RunSnoc(ops, Clear);
      assert Warming(records) == [Clear];
    } else {
      var before, last := records[..|records| - 1], records[|records| - 1];
      WarmingCurrent(ops, before);
      WarmingLast(records);
      var warmed := ops + Warming(before);
      assert ops + Warming(records) == warmed + [Upsert(last)];
      FollowedSnoc(warmed, last);
    }
  }

  lemma {:induction false} FollowedSnoc(ops: seq<Op>, r: Record)
    ensures Current(ops + [Upsert(r)]) == Current(ops)[r.id := r]
  {
    RunSnoc(ops, Upsert(r));
  }

  lemma {:induction false} WarmingLast(records: seq<Record>)
    requires records != []
    ensures Warming(records) == Warming(records[..|records| - 1]) + [Upsert(records[|records| - 1])]
  {
    WarmingSnoc(records, |records| - 1);
    assert records[..|records|] == records;
  }

  lemma {:induction false} WarmingSnoc(records: seq<Record>, k: nat)
    requires k < |records|
    ensures Warming(records[..k + 1]) == Warming(records[..k]) + [Upsert(records[k])]
  {
  }

  // ---- soundness: in every run ----

  /** A path points only to an id whose record has that path. */
  ghost predicate PathsSound(a: Index) {
    forall p :: p in a.paths ==> p != "" && a.paths[p] in a.records && a.records[a.paths[p]].path == p
  }

  ghost predicate RecordsNamed(a: Index) {
    forall id :: id in a.records ==> a.records[id].id == id
  }

  /** The ids are those of `current`, and their records are the current ones. */
  ghost predicate Holds(a: Index, current: map<Id, Record>) {
    a.ids == current.Keys && forall id :: id in current ==> id in a.records && a.records[id] == current[id]
  }

  ghost predicate Sound(a: Index) {
    PathsSound(a) && RecordsNamed(a)
  }

  lemma {:induction false} SoundNext(a: Index, current: map<Id, Record>, op: Op)
    requires Sound(a) && Holds(a, current)
    ensures Sound(Applied(a, op)) && Holds(Applied(a, op), Followed(current, op))
  {
  }

  /** After any run of upserts, deletes and warmings, and in the middle of a warming, a path points only to an id whose
      record has that path, and the ids with their records are exactly the current ones. */
  lemma {:induction false} RunSound(ops: seq<Op>)
    ensures Sound(Run(ops)) && Holds(Run(ops), Current(ops))
  {
    if ops != [] {
      var before := ops[..|ops| - 1];
      RunSound(before);
      SoundNext(Run(before), Current(before), ops[|ops| - 1]);
    }
  }

  // ---- completeness ----

  /** Every current record with a path is found under it. */
  ghost predicate PathsComplete(a: Index, current: map<Id, Record>) {
    forall id :: id in current && current[id].path != "" ==>
      current[id].path in a.paths && a.paths[current[id].path] == id
  }

  ghost predicate DistinctPaths(current: map<Id, Record>) {
    forall x, y :: x in current && y in current && current[x].path == current[y].path && current[x].path != "" ==> x == y
  }

  /** The path a step removes from the index: the one in the hash, when the step moves or deletes the record. */
  function Dropped(a: Index, op: Op): string {
    match op
    case Upsert(r) => if OldPath(a, r.id) == r.path then "" else OldPath(a, r.id)
    case Delete(id) => OldPath(a, id)
    case Clear => ""
  }

  predicate Touches(op: Op, id: Id) {
    (op.Upsert? && op.r.id == id) || (op.Delete? && op.id == id)
  }

  /** The hash of the id being written or deleted names a path that by now belongs to another current record. */
  ghost predicate StaleHit(a: Index, current: map<Id, Record>, op: Op) {
    Dropped(a, op) != "" && exists id :: id in current && !Touches(op, id) && current[id].path == Dropped(a, op)
  }

  ghost predicate AlwaysComplete(ops: seq<Op>) {
    forall k :: 0 <= k <= |ops| ==> PathsComplete(Run(ops[..k]), Current(ops[..k]))
  }

  ghost predicate AlwaysDistinct(ops: seq<Op>) {
    forall k :: 0 <= k <= |ops| ==> DistinctPaths(Current(ops[..k]))
  }

  ghost predicate NeverStale(ops: seq<Op>) {
    forall k :: 0 <= k < |ops| ==> !StaleHit(Run(ops[..k]), Current(ops[..k]), ops[k])
  }

  /** One step: a complete index stays complete exactly when the current paths stay distinct and no stale path is
      hit. */
  lemma {:induction false} CompleteNextIff(a: Index, current: map<Id, Record>, op: Op)
    requires Sound(a) && Holds(a, current) && PathsComplete(a, current)
    ensures PathsComplete(Applied(a, op), Followed(current, op))
            <==> DistinctPaths(Followed(current, op)) && !StaleHit(a, current, op)
  {
    var a', current' := Applied(a, op), Followed(current, op);
    if StaleHit(a, current, op) {
      var id :| id in current && !Touches(op, id) && current[id].path == Dropped(a, op);
      assert id in current' && current'[id].path !in a'.paths;
    } else if DistinctPaths(current') {
      forall id | id in current' && current'[id].path != ""
        ensures current'[id].path in a'.paths && a'.paths[current'[id].path] == id
      {
        if !Touches(op, id) {
          assert current[id].path in a.paths && current[id].path != Dropped(a, op);
          if op.Upsert? { assert op.r.id in current' && current'[op.r.id].path == op.r.path; }
        }
      }
    }
  }

  lemma {:induction false} CompleteIfNeverStale(ops: seq<Op>)
    requires AlwaysDistinct(ops) && NeverStale(ops)
    ensures PathsComplete(Run(ops), Current(ops))
  {
    if ops != [] {
      var before, op := ops[..|ops| - 1], ops[|ops| - 1];
      assert forall k :: 0 <= k <= |before| ==> ops[..k] == before[..k];
      assert forall k :: 0 <= k < |before| ==> before[k] == ops[k];
      CompleteIfNeverStale(before);
      RunSound(before);
      CompleteNextIff(Run(before), Current(before), op);
      assert ops[..|before|] == before && ops[..|ops|] == ops;
      assert !StaleHit(Run(ops[..|before|]), Current(ops[..|before|]), ops[|before|]);
    }
  }

  lemma {:induction false} CompleteNeverStale(ops: seq<Op>, k: nat)
    requires AlwaysComplete(ops) && k < |ops|
    ensures !StaleHit(Run(ops[..k]), Current(ops[..k]), ops[k])
  {
    RunSound(ops[..k]);
    assert PathsComplete(Run(ops[..k]), Current(ops[..k]));
    assert PathsComplete(Run(ops[..k + 1]), Current(ops[..k + 1]));
    assert ops[..k + 1] == ops[..k] + [ops[k]];
    RunSnoc(ops[..k], ops[k]);
    CompleteNextIff(Run(ops[..k]), Current(ops[..k]), ops[k]);
  }

  lemma {:induction false} PrefixComplete(ops: seq<Op>, k: nat)
    requires AlwaysDistinct(ops) && NeverStale(ops) && k <= |ops|
    ensures PathsComplete(Run(ops[..k]), Current(ops[..k]))
  {
    assert forall j :: 0 <= j <= k ==> ops[..k][..j] == ops[..j];
    CompleteIfNeverStale(ops[..k]);
  }

  /** In every run, warmings included and step by step, the path index is complete throughout exactly when no two
      current records ever share a path and no step drops the path of another current record. */
  lemma {:induction false} CompleteIffNeverStale(ops: seq<Op>)
    ensures AlwaysComplete(ops) <==> AlwaysDistinct(ops) && NeverStale(ops)
  {
    if AlwaysComplete(ops) {
      forall k | 0 <= k < |ops|
        ensures !StaleHit(Run(ops[..k]), Current(ops[..k]), ops[k])
      {
        CompleteNeverStale(ops, k);
      }
      forall k | 0 <= k <= |ops|
        ensures DistinctPaths(Current(ops[..k]))
      {
        assert PathsComplete(Run(ops[..k]), Current(ops[..k]));
      }
    }
    if AlwaysDistinct(ops) && NeverStale(ops) {
      forall k | 0 <= k <= |ops|
        ensures PathsComplete(Run(ops[..k]), Current(ops[..k]))
      {
        PrefixComplete(ops, k);
      }
    }
  }

  // ---- runs without warming ----

  predicate NoWarm(ops: seq<Op>) {
    forall k :: 0 <= k < |ops| ==> !ops[k].Clear?
  }

  /** Without warming the hashes are the current records. */
  lemma {:induction false} NoStaleRecords(ops: seq<Op>)
    requires NoWarm(ops)
    ensures Run(ops).records == Current(ops)
  {
    if ops != [] { NoStaleRecords(ops[..|ops| - 1]); }
  }

  /** Without warming no step hits a stale path as long as paths are distinct, so distinct paths are all it takes. */
  lemma {:induction false} CompleteIffDistinct(ops: seq<Op>)
    requires NoWarm(ops)
    ensures AlwaysComplete(ops) <==> AlwaysDistinct(ops)
  {
    if AlwaysDistinct(ops) {
      forall k | 0 <= k < |ops|
        ensures !StaleHit(Run(ops[..k]), Current(ops[..k]), ops[k])
      {
        NoStaleRecords(ops[..k]);
        assert DistinctPaths(Current(ops[..k]));
      }
    }
    CompleteIffNeverStale(ops);
  }

  // ---- two ways a warming breaks it ----

  /** A warming leaves old hashes behind: with every current path distinct, a record that returns under a new path
      takes another record's path key with it. */
  lemma {:induction false} WarmBreaksCompleteness(one: Record, two: Record, back: Record)
    requires one.id != two.id && one.path == two.path != "" && back.id == one.id && back.path != one.path
    ensures var ops := [Upsert(one)] + Warming([two]) + [Upsert(back)];
            && AlwaysDistinct(ops) && !PathsComplete(Run(ops), Current(ops))
  {
    StaleReturn(one, two, back);
    assert [Upsert(one)] + Warming([two]) + [Upsert(back)] == [Upsert(one), Clear, Upsert(two), Upsert(back)];
  }

  /** It can happen inside a single warming. */
  lemma {:induction false} WarmBreaksItself(one: Record, two: Record, back: Record)
    requires one.id != two.id && one.path == two.path != "" && back.id == one.id && back.path != one.path
    ensures var ops := [Upsert(one)] + Warming([two, back]);
            && AlwaysDistinct(ops) && !PathsComplete(Run(ops), Current(ops))
  {
    StaleReturn(one, two, back);
    assert [Upsert(one)] + Warming([two, back]) == [Upsert(one), Clear, Upsert(two), Upsert(back)];
  }

  /** Step by step the two are the same run. */
  lemma {:induction false} StaleReturn(one: Record, two: Record, back: Record)
    requires one.id != two.id && one.path == two.path != "" && back.id == one.id && back.path != one.path
    ensures var ops := [Upsert(one), Clear, Upsert(two), Upsert(back)];
            && AlwaysDistinct(ops) && !PathsComplete(Run(ops), Current(ops))
  {
    var ops := [Upsert(one), Clear, Upsert(two), Upsert(back)];
    FourSteps(ops);
    assert Current(ops[..1]) == map[one.id := one];
    assert Current(ops[..3]) == map[two.id := two];
    assert two.id in Current(ops) && two.path !in Run(ops).paths;
    forall k | 0 <= k <= 4
      ensures DistinctPaths(Current(ops[..k]))
    {
      assert k == 0 || k == 1 || k == 2 || k == 3 || ops[..k] == ops;
    }
  }

  lemma {:induction false} FourSteps(ops: seq<Op>)
    requires |ops| == 4
    ensures Run(ops) == Applied(Applied(Applied(Applied(EMPTY, ops[0]), ops[1]), ops[2]), ops[3])
    ensures Current(ops[..0]) == map[] && Current(ops[..1]) == Followed(map[], ops[0])
    ensures Current(ops[..2]) == Followed(Current(ops[..1]), ops[1])
    ensures Current(ops[..3]) == Followed(Current(ops[..2]), ops[2])
    ensures Current(ops) == Followed(Current(ops[..3]), ops[3])
  {
    var a, b, c := ops[..1], ops[..2], ops[..3];
    assert a == [] + [ops[0]] && b == a + [ops[1]] && c == b + [ops[2]] && ops == c + [ops[3]];
    RunSnoc([], ops[0]);
    RunSnoc(a, ops[1]);
    RunSnoc(b, ops[2]);
    RunSnoc(c, ops[3]);
  }
}
