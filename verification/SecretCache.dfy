/**
 * internal/store/redis/cache.go: the secret structures laid out in one flat, string-keyed Redis store. With UUID
 * ids the key families do not meet, so the store carries exactly the index of module SecretIndex.
 */
module SecretCache {
  import opened Wrappers
  import opened Text
  import opened SecretIndex

  /** A Redis value of one of the types used. */
  datatype Entry = IdSet(ids: set<Id>) | Hash(r: Record) | Str(value: string)

  type Store = map<string, Entry>

  // ---- keys ----

  function KeyFor(prefix: string, suffix: string): string {
    prefix + ":secret:" + suffix
  }

  const IDS := "ids"
  const PATH := "path:"

  function IdsKey(prefix: string): string { KeyFor(prefix, IDS) }
  function SecretKey(prefix: string, id: Id): string { KeyFor(prefix, id) }
  function PathKey(prefix: string, path: string): string { KeyFor(prefix, PATH + path) }

  predicate IsHex(c: char) {
    '0' <= c <= '9' || 'a' <= c <= 'f' || 'A' <= c <= 'F'
  }

  /** The form of an id: 8-4-4-4-12 hexadecimal digits. */
  predicate IsUuid(id: string) {
    |id| == 36 && forall k :: 0 <= k < 36 ==>
      if k == 8 || k == 13 || k == 18 || k == 23 then id[k] == '-' else IsHex(id[k])
  }

  lemma {:induction false} KeyInjective(prefix: string, a: string, b: string)
    ensures KeyFor(prefix, a) == KeyFor(prefix, b) <==> a == b
  {
    var n := |prefix + ":secret:"|;
    assert KeyFor(prefix, a)[n..] == a && KeyFor(prefix, b)[n..] == b;
  }

  /** The three key families are disjoint, and each is injective. */
  lemma {:induction false} KeysDisjoint(prefix: string, id: Id, other: Id, path: string, path': string)
    requires IsUuid(id) && IsUuid(other)
    ensures SecretKey(prefix, id) != IdsKey(prefix) && SecretKey(prefix, id) != PathKey(prefix, path)
    ensures IdsKey(prefix) != PathKey(prefix, path)
    ensures SecretKey(prefix, id) == SecretKey(prefix, other) <==> id == other
    ensures PathKey(prefix, path) == PathKey(prefix, path') <==> path == path'
  {
    KeyInjective(prefix, id, IDS);
    KeyInjective(prefix, id, PATH + path);
    KeyInjective(prefix, IDS, PATH + path);
    KeyInjective(prefix, id, other);
    KeyInjective(prefix, PATH + path, PATH + path');
    assert IsHex(id[0]) && (PATH + path)[0] == 'p' && IDS[0] == 'i';
    assert (PATH + path)[5..] == path && (PATH + path')[5..] == path';
  }

  /** How the keys are spelled. */
  lemma {:induction false} KeysSpelled(prefix: string, id: Id, path: string)
    ensures IdsKey(prefix) == prefix + ":secret:ids" && SecretKey(prefix, id) == prefix + ":secret:" + id
    ensures PathKey(prefix, path) == prefix + ":secret:path:" + path
  {
    assert ":secret:" + (PATH + path) == ":secret:path:" + path;
    assert prefix + ":secret:" + (PATH + path) == prefix + (":secret:" + (PATH + path));
    assert prefix + ":secret:path:" + path == prefix + (":secret:path:" + path);
  }

  // ---- the store carries an index ----

  /** The set is absent exactly when it is empty. */
  predicate IdsCarried(store: Store, prefix: string, ids: set<Id>) {
    if IdsKey(prefix) in store then ids != {} && store[IdsKey(prefix)] == IdSet(ids) else ids == {}
  }

  predicate RecordCarried(store: Store, prefix: string, a: Index, id: Id) {
    if SecretKey(prefix, id) in store then id in a.records && store[SecretKey(prefix, id)] == Hash(a.records[id])
    else id !in a.records
  }

  predicate PathCarried(store: Store, prefix: string, a: Index, path: string) {
    if PathKey(prefix, path) in store then path in a.paths && store[PathKey(prefix, path)] == Str(a.paths[path])
    else path !in a.paths
  }

  ghost predicate Carries(store: Store, prefix: string, a: Index) {
    && IdsCarried(store, prefix, a.ids)
    && (forall id {:trigger RecordCarried(store, prefix, a, id)} :: IsUuid(id) ==> RecordCarried(store, prefix, a, id))
    && (forall path {:trigger PathCarried(store, prefix, a, path)} :: PathCarried(store, prefix, a, path))
    && (forall id :: id in a.records ==> IsUuid(id)) && (forall id :: id in a.ids ==> IsUuid(id))
  }

  const SOME_ID := "00000000-0000-0000-0000-000000000000"

  lemma {:induction false} SomeIdIsUuid()
    ensures IsUuid(SOME_ID)
  {
  }

  /** Setting or deleting a key of one family leaves the other families' entries alone. */
  lemma {:induction false} PathWrite(store: Store, store': Store, prefix: string, a: Index, a': Index, path: string)
    requires Carries(store, prefix, a) && a'.ids == a.ids && a'.records == a.records
    requires a'.paths - {path} == a.paths - {path}
    requires store' - {PathKey(prefix, path)} == store - {PathKey(prefix, path)}
    requires PathCarried(store', prefix, a', path)
    ensures Carries(store', prefix, a')
  {
    SomeIdIsUuid();
    KeysDisjoint(prefix, SOME_ID, SOME_ID, path, path);
    SameElsewhere(store, store', PathKey(prefix, path), IdsKey(prefix));
    forall id | IsUuid(id)
      ensures RecordCarried(store', prefix, a', id)
    {
      KeysDisjoint(prefix, id, id, path, path);
      SameElsewhere(store, store', PathKey(prefix, path), SecretKey(prefix, id));
      assert RecordCarried(store, prefix, a, id);
    }
    forall p
      ensures PathCarried(store', prefix, a', p)
    {
      if p != path {
        KeysDisjoint(prefix, SOME_ID, SOME_ID, p, path);
        SameElsewhere(store, store', PathKey(prefix, path), PathKey(prefix, p));
        SameElsewhere(a.paths, a'.paths, path, p);
        assert PathCarried(store, prefix, a, p);
      }
    }
  }

  lemma {:induction false} SameElsewhere<V>(m: map<string, V>, m': map<string, V>, k: string, other: string)
    requires m' - {k} == m - {k} && other != k
    ensures other in m' <==> other in m
    ensures other in m ==> m'[other] == m[other]
  {
    assert other in m' - {k} <==> other in m - {k};
    if other in m {
      assert (m' - {k})[other] == (m - {k})[other];
    }
  }

  lemma {:induction false} HashWrite(store: Store, store': Store, prefix: string, a: Index, a': Index, id: Id)
    requires Carries(store, prefix, a) && IsUuid(id) && a'.ids == a.ids && a'.paths == a.paths
    requires a'.records - {id} == a.records - {id}
    requires store' - {SecretKey(prefix, id)} == store - {SecretKey(prefix, id)}
    requires RecordCarried(store', prefix, a', id)
    ensures Carries(store', prefix, a')
  {
    KeysDisjoint(prefix, id, id, "", "");
    SameElsewhere(store, store', SecretKey(prefix, id), IdsKey(prefix));
    forall x | IsUuid(x)
      ensures RecordCarried(store', prefix, a', x)
    {
      if x != id {
        KeysDisjoint(prefix, x, id, "", "");
        SameElsewhere(store, store', SecretKey(prefix, id), SecretKey(prefix, x));
        SameElsewhere(a.records, a'.records, id, x);
        assert RecordCarried(store, prefix, a, x);
      }
    }
    forall p
      ensures PathCarried(store', prefix, a', p)
    {
      KeysDisjoint(prefix, id, id, p, p);
      SameElsewhere(store, store', SecretKey(prefix, id), PathKey(prefix, p));
      assert PathCarried(store, prefix, a, p);
    }
    forall x | x in a'.records
      ensures IsUuid(x)
    {
      if x != id { SameElsewhere(a.records, a'.records, id, x); }
    }
  }

  lemma {:induction false} IdsWrite(store: Store, store': Store, prefix: string, a: Index, a': Index)
    requires Carries(store, prefix, a) && a'.records == a.records && a'.paths == a.paths
    requires forall id :: id in a'.ids ==> IsUuid(id)
    requires store' - {IdsKey(prefix)} == store - {IdsKey(prefix)} && IdsCarried(store', prefix, a'.ids)
    ensures Carries(store', prefix, a')
  {
    forall x | IsUuid(x)
      ensures RecordCarried(store', prefix, a', x)
    {
      KeysDisjoint(prefix, x, x, "", "");
      SameElsewhere(store, store', IdsKey(prefix), SecretKey(prefix, x));
      assert RecordCarried(store, prefix, a, x);
    }
    SomeIdIsUuid();
    forall p
      ensures PathCarried(store', prefix, a', p)
    {
      KeysDisjoint(prefix, SOME_ID, SOME_ID, p, p);
      SameElsewhere(store, store', IdsKey(prefix), PathKey(prefix, p));
      assert PathCarried(store, prefix, a, p);
    }
  }

  // ---- Redis commands ----

  function HGetPath(store: Store, key: string): string {
    if key in store && store[key].Hash? then store[key].r.path else ""
  }

  function SAdd(store: Store, key: string, id: Id): Store {
    store[key := IdSet((if key in store && store[key].IdSet? then store[key].ids else {}) + {id})]
  }

  /** A set that becomes empty disappears. */
  function SRem(store: Store, key: string, id: Id): Store {
    if key !in store || !store[key].IdSet? then store
    else if store[key].ids - {id} == {} then store - {key}
    else store[key := IdSet(store[key].ids - {id})]
  }

  function SMembers(store: Store, key: string): set<Id> {
    if key in store && store[key].IdSet? then store[key].ids else {}
  }

  // ---- search ----

  datatype Filter = Filter(environmentId: Id, folderId: Id, keyword: string)

  function Lower(c: char): char {
    if 'A' <= c <= 'Z' then c - 'A' + 'a' else c
  }

  function ToLower(s: string): (lower: string)
    ensures |lower| == |s| && forall k :: 0 <= k < |s| ==> lower[k] == Lower(s[k])
  {
    seq(|s|, k requires 0 <= k < |s| => Lower(s[k]))
  }

  predicate Contains(s: string, part: string) {
    exists k :: 0 <= k <= |s| && HasPrefix(s[k..], part)
  }

  /** `keyword` comes already in lower case. */
  predicate Matches(r: Record, filter: Filter, keyword: string) {
    && (filter.environmentId == "" || r.environmentId == filter.environmentId)
    && (filter.folderId == "" || r.folderId == filter.folderId)
    && (keyword == "" || Contains(ToLower(r.key), keyword) || Contains(ToLower(r.path), keyword))
  }

  /** labelOrId */
  function LabelOrId(name: string, id: string): string {
    if name != "" then name else id
  }

  /** The record as search shows it: a missing label shows the id instead. */
  function Found(r: Record): Record {
    r.(createdByLabel := LabelOrId(r.createdByLabel, r.createdBy), updatedByLabel := LabelOrId(r.updatedByLabel, r.updatedBy))
  }

  /** A record fits the filter: its environment and folder are the ones asked for, if any are, and the keyword, case
      aside, occurs in its key or its path. */
  ghost predicate Fits(r: Record, filter: Filter) {
    && (filter.environmentId == "" || filter.environmentId == r.environmentId)
    && (filter.folderId == "" || filter.folderId == r.folderId)
    && (filter.keyword == "" || OccursIn(filter.keyword, r.key) || OccursIn(filter.keyword, r.path))
  }

  ghost predicate OccursIn(part: string, s: string) {
    exists k :: OccursAt(part, s, k)
  }

  ghost predicate OccursAt(part: string, s: string, k: nat) {
    k + |part| <= |s| && forall j :: 0 <= j < |part| ==> SameLetter(part[j], s[k + j])
  }

  /** The same character, or the two cases of a letter from A to Z. */
  ghost predicate SameLetter(c: char, d: char) {
    c == d || ('A' <= c <= 'Z' && d as int == c as int + 32) || ('a' <= c <= 'z' && d as int == c as int - 32)
  }

  /** What a search shows of a record: everything as stored, with an id where a label is missing. */
  ghost predicate Shows(found: Record, r: Record) {
    && found == r.(createdByLabel := found.createdByLabel, updatedByLabel := found.updatedByLabel)
    && found.createdByLabel == (if r.createdByLabel == "" then r.createdBy else r.createdByLabel)
    && found.updatedByLabel == (if r.updatedByLabel == "" then r.updatedBy else r.updatedByLabel)
  }

  lemma {:induction false} LettersAre(c: char, d: char)
    ensures Lower(c) == Lower(d) <==> SameLetter(c, d)
  {
  }

  lemma {:induction false} PrefixAt(s: string, part: string, k: nat)
    requires k <= |s|
    ensures HasPrefix(ToLower(s)[k..], ToLower(part)) <==> OccursAt(part, s, k)
  {
    var low, p := ToLower(s), ToLower(part);
    if k + |part| <= |s| {
      assert low[k..][..|p|] == low[k..k + |part|];
      forall j | 0 <= j < |part|
        ensures low[k..k + |part|][j] == p[j] <==> SameLetter(part[j], s[k + j])
      {
        LettersAre(part[j], s[k + j]);
      }
    }
  }

  lemma {:induction false} ContainsMeans(s: string, part: string)
    ensures Contains(ToLower(s), ToLower(part)) <==> OccursIn(part, s)
  {
    if k :| 0 <= k <= |ToLower(s)| && HasPrefix(ToLower(s)[k..], ToLower(part)) { PrefixAt(s, part, k); }
    if k :| OccursAt(part, s, k) { PrefixAt(s, part, k); }
  }

  lemma {:induction false} MatchesMeans(r: Record, filter: Filter)
    ensures Matches(r, filter, ToLower(filter.keyword)) <==> Fits(r, filter)
  {
    ContainsMeans(r.key, filter.keyword);
    ContainsMeans(r.path, filter.keyword);
    assert filter.keyword == "" <==> ToLower(filter.keyword) == "";
  }

  /** What a search wants, spelled out. */
  lemma {:induction false} WantedMeans(current: map<Id, Record>, filter: Filter, found: Record)
    ensures found in Wanted(current, filter) <==>
            exists id :: id in current && Fits(current[id], filter) && Shows(found, current[id])
  {
    forall id | id in current
      ensures Matches(current[id], filter, ToLower(filter.keyword)) <==> Fits(current[id], filter)
      ensures Found(current[id]) == found <==> Shows(found, current[id])
    {
      MatchesMeans(current[id], filter);
    }
  }

  /** What a search should return, told by the current records. */
  function Wanted(current: map<Id, Record>, filter: Filter): set<Record> {
    set id | id in current && Matches(current[id], filter, ToLower(filter.keyword)) :: Found(current[id])
  }

  /** What it reads off the index. */
  function Selected(a: Index, ids: set<Id>, filter: Filter): set<Record> {
    set id | id in ids && id in a.records && Matches(a.records[id], filter, ToLower(filter.keyword)) :: Found(a.records[id])
  }

  /** After any run, a search returns exactly the current records that match the filter. */
  lemma {:induction false} SearchReturnsCurrent(ops: seq<Op>, filter: Filter)
    ensures Selected(Run(ops), Run(ops).ids, filter) == Wanted(Current(ops), filter)
  {
    RunSound(ops);
    var a, current := Run(ops), Current(ops);
    forall r
      ensures r in Selected(a, a.ids, filter) <==> r in Wanted(current, filter)
    {
      if r in Wanted(current, filter) {
        var id :| id in current && Matches(current[id], filter, ToLower(filter.keyword)) && Found(current[id]) == r;
        assert id in a.records && a.records[id] == current[id];
      }
    }
  }

  // ---- dropping the path keys ----

  function PathKeys(store: Store, prefix: string): set<string> {
    set k | k in store && HasPrefix(k, PathKey(prefix, ""))
  }

  lemma {:induction false} PathKeyForm(prefix: string, path: string)
    ensures HasPrefix(PathKey(prefix, path), PathKey(prefix, ""))
  {
    assert PathKey(prefix, path) == PathKey(prefix, "") + path;
  }

  lemma {:induction false} OtherKeyForm(prefix: string, suffix: string)
    requires suffix == IDS || IsUuid(suffix)
    ensures !HasPrefix(KeyFor(prefix, suffix), PathKey(prefix, ""))
  {
    var n := |prefix + ":secret:"|;
    assert suffix != "" && suffix[0] != 'p' by {
      if IsUuid(suffix) { assert IsHex(suffix[0]); }
    }
    assert KeyFor(prefix, suffix)[n] == suffix[0];
    assert PathKey(prefix, "")[n] == 'p';
  }

  lemma {:induction false} PathsGone(store: Store, prefix: string, a: Index)
    requires Carries(store, prefix, a)
    ensures Carries(store - PathKeys(store, prefix), prefix, a.(paths := map[]))
  {
    var store', a' := store - PathKeys(store, prefix), a.(paths := map[]);
    OtherKeyForm(prefix, IDS);
    forall id | IsUuid(id)
      ensures RecordCarried(store', prefix, a', id)
    {
      OtherKeyForm(prefix, id);
      assert RecordCarried(store, prefix, a, id);
    }
    forall p
      ensures PathCarried(store', prefix, a', p)
    {
      PathKeyForm(prefix, p);
    }
  }

  class Cache {
    const prefix: string
    var store: Store
    ghost var ops: seq<Op>  // all that was done so far

    /** The flat store carries the index of the whole history. */
    ghost predicate Valid()
      reads this
    {
      Carries(store, prefix, Run(ops))
    }

    constructor (prefix: string)
      ensures this.prefix == (if prefix != "" && prefix[|prefix| - 1] == ':' then prefix[..|prefix| - 1] else prefix)
      ensures store == map[] && ops == [] && Valid()
    {
      this.prefix := TrimSuffix(prefix, ":");
      store := map[];
      ops := [];
    }

    method DropPath(path: string, ghost a: Index)
      requires Carries(store, prefix, a)
      modifies this`store
      ensures Carries(store, prefix, a.(paths := a.paths - {path}))
    {
      PathWrite(store, store - {PathKey(prefix, path)}, prefix, a, a.(paths := a.paths - {path}), path);
      store := store - {PathKey(prefix, path)};
    }

    method PutPath(path: string, id: Id, ghost a: Index)
      requires Carries(store, prefix, a)
      modifies this`store
      ensures Carries(store, prefix, a.(paths := a.paths[path := id]))
    {
      PathWrite(store, store[PathKey(prefix, path) := Str(id)], prefix, a, a.(paths := a.paths[path := id]), path);
      store := store[PathKey(prefix, path) := Str(id)];
    }

    method PutHash(r: Record, ghost a: Index)
      requires Carries(store, prefix, a) && IsUuid(r.id)
      modifies this`store
      ensures Carries(store, prefix, a.(records := a.records[r.id := r]))
    {
      var key := SecretKey(prefix, r.id);
      HashWrite(store, store[key := Hash(r)], prefix, a, a.(records := a.records[r.id := r]), r.id);
      store := store[key := Hash(r)];
    }

    method UpsertSecret(r: Record)
      requires Valid() && IsUuid(r.id)
      modifies this
      ensures Valid() && ops == old(ops) + [Upsert(r)]
    {
      ghost var a := Run(ops);
      assert RecordCarried(store, prefix, a, r.id);
      var oldPath := HGetPath(store, SecretKey(prefix, r.id));
      assert oldPath == OldPath(a, r.id);
      ghost var paths := a.paths;
      if oldPath != "" && oldPath != r.path {
        DropPath(oldPath, a);
        paths := a.paths - {oldPath};
      }
      PutHash(r, Index(a.ids, a.records, paths));
      ghost var records := a.records[r.id := r];
      if r.path != "" {
        PutPath(r.path, r.id, Index(a.ids, records, paths));
        paths := paths[r.path := r.id];
      }
      ghost var a3 := Index(a.ids, records, paths);
      IdsWrite(store, SAdd(store, IdsKey(prefix), r.id), prefix, a3, a3.(ids := a3.ids + {r.id}));
      store := SAdd(store, IdsKey(prefix), r.id);
      RunSnoc(ops, Upsert(r));
      ops := ops + [Upsert(r)];
    }

    method DeleteSecret(id: Id)
      requires Valid() && IsUuid(id)
      modifies this
      ensures Valid() && ops == old(ops) + [Delete(id)]
    {
      ghost var a := Run(ops);
      var key := SecretKey(prefix, id);
      assert RecordCarried(store, prefix, a, id);
      var path := HGetPath(store, key);
      assert path == OldPath(a, id);
      ghost var a1 := a.(records := a.records - {id});
      HashWrite(store, store - {key}, prefix, a, a1, id);
      store := store - {key};
      ghost var a2 := a1;
      if path != "" {
        DropPath(path, a1);
        a2 := a1.(paths := a1.paths - {path});
      }
      IdsWrite(store, SRem(store, IdsKey(prefix), id), prefix, a2, a2.(ids := a2.ids - {id}));
      store := SRem(store, IdsKey(prefix), id);
      RunSnoc(ops, Delete(id));
      ops := ops + [Delete(id)];
    }

    /** SCAN hands out the matching keys in batches; every key that was there is handed out. */
    method DeletePathKeys(ghost a: Index)
      requires Carries(store, prefix, a)
      modifies this`store
      ensures Carries(store, prefix, a.(paths := map[]))
    {
      PathsGone(store, prefix, a);
      ghost var start := store;
      var all := PathKeys(store, prefix);
      var rest := all;
      while rest != {}
        invariant rest <= all && store == start - (all - rest)
        decreases rest
      {
        assert rest <= rest;
        var batch :| batch <= rest && batch != {};
        assert all - (rest - batch) == (all - rest) + batch;
        store := store - batch;
        rest := rest - batch;
      }
      assert all - {} == all;
    }

    /** The start of a warming: the id set and the path keys go, the hashes stay. */
    method DropIndex()
      requires Valid()
      modifies this
      ensures Valid() && ops == old(ops) + [Clear]
    {
      ghost var a := Run(ops);
      ghost var a1 := a.(ids := {});
      IdsWrite(store, store - {IdsKey(prefix)}, prefix, a, a1);
      store := store - {IdsKey(prefix)};
      DeletePathKeys(a1);
      RunSnoc(ops, Clear);
      ops := ops + [Clear];
    }

    method WarmSecrets(records: seq<Record>)
      requires Valid() && forall k :: 0 <= k < |records| ==> IsUuid(records[k].id)
      modifies this
      ensures Valid() && ops == old(ops) + Warming(records)
    {
      DropIndex();
      assert Warming(records[..0]) == [Clear];
      for i := 0 to |records|
        invariant Valid() && ops == old(ops) + Warming(records[..i])
      {
        UpsertSecret(records[i]);
        WarmingSnoc(records, i);
      }
      assert records[..|records|] == records;
    }

    /** Members come in any order; a member without a hash is skipped. */
    method SearchSecrets(filter: Filter) returns (items: seq<Record>)
      requires Valid()
      ensures forall r :: r in items <==>
                exists id :: id in Current(ops) && Fits(Current(ops)[id], filter) && Shows(r, Current(ops)[id])
      ensures forall i, j :: 0 <= i < j < |items| ==> items[i].id != items[j].id
    {
      ghost var a := Run(ops);
      RunSound(ops);
      SearchReturnsCurrent(ops, filter);
      forall r
        ensures r in Selected(a, a.ids, filter) <==>
                exists id :: id in Current(ops) && Fits(Current(ops)[id], filter) && Shows(r, Current(ops)[id])
      {
        WantedMeans(Current(ops), filter, r);
      }
      var keyword := ToLower(filter.keyword);
      var ids := SMembers(store, IdsKey(prefix));
      assert ids == a.ids;
      var seen: set<Id> := {};
      items := [];
      while seen != ids
        invariant seen <= ids
        invariant forall r :: r in items <==> r in Selected(a, seen, filter)
        invariant forall i, j :: 0 <= i < j < |items| ==> items[i].id != items[j].id
        decreases ids - seen
      {
        assert ids == seen + (ids - seen);
        var id :| id in ids - seen;
        assert RecordCarried(store, prefix, a, id);
        SelectedNext(a, seen, id, filter);
        ghost var before := seen;
        seen := seen + {id};
        var key := SecretKey(prefix, id);
        if key !in store || !Matches(store[key].r, filter, keyword) { continue; }
        forall k | 0 <= k < |items|
          ensures items[k].id != id
        {
          assert items[k] in Selected(a, before, filter);
        }
        items := items + [Found(store[key].r)];
      }
    }
  }

  lemma {:induction false} SelectedNext(a: Index, seen: set<Id>, id: Id, filter: Filter)
    ensures Selected(a, seen + {id}, filter)
            == Selected(a, seen, filter)
               + Selected(a, {id}, filter)
  {
  }
}
