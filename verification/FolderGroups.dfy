/**
 * GetProjectFolderTree of internal/service/tree_service.go after the rows were fetched and filtered: level-1
 * folders grouped by code, level-2 folders grouped under their parent's code, both through Go maps that are
 * ranged over in any order.
 */
module FolderGroups {
  import opened Wrappers
  import opened Text

  type Id = string

  datatype Row = Row(id: Id, code: string, name: string, comment: string, level: int, envId: Id, envCode: string,
                     parentId: Id)

  datatype EnvRef = EnvRef(id: Id, code: string, folderId: Id)

  datatype Group = Group(id: Id, code: string, name: string, comment: string, envList: seq<EnvRef>)

  datatype FolderGroup = FolderGroup(group: Group, subFolders: seq<Group>)

  /** What a row is grouped by: its own code, under the parent's code for level 2. */
  datatype Key = Key(parentCode: Option<string>, code: string)

  /** A row with its key; a level-2 row whose parent is not visible has none. */
  datatype Item = Item(key: Option<Key>, row: Row)

  // ---- what a group is ----

  function RowsOf(items: seq<Item>, key: Key): seq<Row> {
    if items == [] then []
    else
      var before := RowsOf(items[..|items| - 1], key);
      if items[|items| - 1].key == Some(key) then before + [items[|items| - 1].row] else before
  }

  function RefOf(row: Row): EnvRef { EnvRef(row.envId, row.envCode, row.id) }

  /** One reference per environment, the first row's, in order of appearance. */
  function Refs(rows: seq<Row>): seq<EnvRef> {
    if rows == [] then []
    else
      var before := Refs(rows[..|rows| - 1]);
      if rows[|rows| - 1].envId in EnvIds(before) then before else before + [RefOf(rows[|rows| - 1])]
  }

  function EnvIds(refs: seq<EnvRef>): set<Id> {
    set k | 0 <= k < |refs| :: refs[k].id
  }

  /** Id, name and comment come from the first row of the key. */
  function GroupOf(items: seq<Item>, key: Key): Group
    requires RowsOf(items, key) != []
  {
    var rows := RowsOf(items, key);
    Group(rows[0].id, rows[0].code, rows[0].name, rows[0].comment, Refs(rows))
  }

  function Keys(items: seq<Item>): set<Key> {
    set k | 0 <= k < |items| && items[k].key.Some? :: items[k].key.value
  }

  lemma {:induction false} RowsOfSnoc(items: seq<Item>, item: Item, key: Key)
    ensures RowsOf(items + [item], key)
            == if item.key == Some(key) then RowsOf(items, key) + [item.row] else RowsOf(items, key)
  {
    assert (items + [item])[..|items|] == items;
  }

  lemma {:induction false} RefsSnoc(rows: seq<Row>, row: Row)
    ensures Refs(rows + [row]) == if row.envId in EnvIds(Refs(rows)) then Refs(rows) else Refs(rows) + [RefOf(row)]
  {
    assert (rows + [row])[..|rows|] == rows;
  }

  lemma {:induction false} KeysSnoc(items: seq<Item>, item: Item)
    ensures Keys(items + [item]) == Keys(items) + (if item.key.Some? then {item.key.value} else {})
  {
    var all := items + [item];
    assert all[|items|] == item;
    assert forall k :: 0 <= k < |items| ==> all[k] == items[k];
  }

  lemma {:induction false} KeysHaveRows(items: seq<Item>, key: Key)
    ensures key in Keys(items) <==> RowsOf(items, key) != []
  {
    if items != [] {
      var before, last := items[..|items| - 1], items[|items| - 1];
      KeysHaveRows(before, key);
      KeysSnoc(before, last);
      assert items == before + [last];
    }
  }

  // ---- aggregation ----

  datatype Aggregate = Aggregate(group: Group, envSet: set<Id>)

  ghost predicate Aggregated(byKey: map<Key, Aggregate>, items: seq<Item>) {
    byKey.Keys == Keys(items) &&
    forall key :: key in byKey ==> RowsOf(items, key) != [] && IsAggregate(byKey[key], items, key)
  }

  ghost predicate IsAggregate(a: Aggregate, items: seq<Item>, key: Key)
    requires RowsOf(items, key) != []
  {
    a.group == GroupOf(items, key) && a.envSet == EnvIds(a.group.envList)
  }

  function FreshGroup(row: Row): Group { Group(row.id, row.code, row.name, row.comment, []) }

  /** A row joins its group; an environment already listed is not listed again. */
  function Joined(a: Aggregate, row: Row): Aggregate {
    if row.envId in a.envSet then a
    else Aggregate(a.group.(envList := a.group.envList + [RefOf(row)]), a.envSet + {row.envId})
  }

  lemma {:induction false} JoinedNext(byKey: map<Key, Aggregate>, items: seq<Item>, item: Item)
    requires Aggregated(byKey, items) && item.key.Some?
    ensures var key := item.key.value;
            var a := if key in byKey then byKey[key] else Aggregate(FreshGroup(item.row), {});
            RowsOf(items + [item], key) != [] && IsAggregate(Joined(a, item.row), items + [item], key)
  {
    var key := item.key.value;
    KeysHaveRows(items, key);
    var rows := RowsOf(items, key);
    RowsOfSnoc(items, item, key);
    RefsSnoc(rows, item.row);
    EnvIdsSnoc(Refs(rows), RefOf(item.row));
    if key !in byKey { assert Refs(rows) == [] && EnvIds([]) == {}; }
  }

  lemma {:induction false} EnvIdsSnoc(refs: seq<EnvRef>, ref: EnvRef)
    ensures EnvIds(refs + [ref]) == EnvIds(refs) + {ref.id}
  {
    var all := refs + [ref];
    assert all[|refs|] == ref;
    assert forall k :: 0 <= k < |refs| ==> all[k] == refs[k];
  }

  lemma {:induction false} AggregatedNext(byKey: map<Key, Aggregate>, items: seq<Item>, item: Item)
    requires Aggregated(byKey, items)
    ensures item.key.None? ==> Aggregated(byKey, items + [item])
    ensures item.key.Some? ==>
      var key := item.key.value;
      var a := if key in byKey then byKey[key] else Aggregate(FreshGroup(item.row), {});
      Aggregated(byKey[key := Joined(a, item.row)], items + [item])
  {
    KeysSnoc(items, item);
    forall key | key in byKey && item.key != Some(key)
      ensures RowsOf(items + [item], key) == RowsOf(items, key)
    {
      RowsOfSnoc(items, item, key);
    }
    if item.key.Some? { JoinedNext(byKey, items, item); }
  }

  /** The aggregation loop, the same for both levels. */
  method AggregateByKey(items: seq<Item>) returns (byKey: map<Key, Aggregate>)
    ensures Aggregated(byKey, items)
  {
    byKey := map[];
    for i := 0 to |items|
      invariant Aggregated(byKey, items[..i])
    {
      var item := items[i];
      assert items[..i + 1] == items[..i] + [item];
      AggregatedNext(byKey, items[..i], item);
      if item.key.None? { continue; }
      var key := item.key.value;
      var a := if key in byKey then byKey[key] else Aggregate(FreshGroup(item.row), {});
      byKey := byKey[key := Joined(a, item.row)];
    }
    assert items[..|items|] == items;
  }

  // ---- sorting ----

  ghost predicate StrictlySorted(codes: seq<string>) {
    forall i, j :: 0 <= i < j < |codes| ==> Before(codes[i], codes[j])
  }

  function Codes(groups: seq<Group>): (codes: seq<string>)
    ensures |codes| == |groups| && forall k :: 0 <= k < |groups| ==> codes[k] == groups[k].code
  {
    seq(|groups|, k requires 0 <= k < |groups| => groups[k].code)
  }

  ghost predicate DistinctCodes(groups: seq<Group>) {
    forall i, j :: 0 <= i < j < |groups| ==> groups[i].code != groups[j].code
  }

  /** Where `code` goes: after everything that is not behind it. */
  method Position(sorted: seq<string>, code: string) returns (p: nat)
    requires StrictlySorted(sorted) && code !in sorted
    ensures p <= |sorted|
    ensures forall k :: 0 <= k < p ==> Before(sorted[k], code)
    ensures forall k :: p <= k < |sorted| ==> Before(code, sorted[k])
  {
    p := 0;
    while p < |sorted| && !Before(code, sorted[p])
      invariant p <= |sorted|
      invariant forall k :: 0 <= k < p ==> Before(sorted[k], code)
    {
      BeforeTotal(sorted[p], code);
      p := p + 1;
    }
    forall k | p < k < |sorted|
      ensures Before(code, sorted[k])
    {
      BeforeTransitive(code, sorted[p], sorted[k]);
    }
  }

  lemma {:induction false} InsertedSorted(sorted: seq<string>, code: string, p: nat)
    requires StrictlySorted(sorted) && p <= |sorted|
    requires forall k :: 0 <= k < p ==> Before(sorted[k], code)
    requires forall k :: p <= k < |sorted| ==> Before(code, sorted[k])
    ensures StrictlySorted(sorted[..p] + [code] + sorted[p..])
  {
    var all := sorted[..p] + [code] + sorted[p..];
    forall i, j | 0 <= i < j < |all|
      ensures Before(all[i], all[j])
    {
      assert all[i] == if i < p then sorted[i] else if i == p then code else sorted[i - 1];
      assert all[j] == if j < p then sorted[j] else if j == p then code else sorted[j - 1];
    }
  }

  /** sort.Strings on distinct strings. */
  method SortStrings(codes: seq<string>) returns (sorted: seq<string>)
    requires forall i, j :: 0 <= i < j < |codes| ==> codes[i] != codes[j]
    ensures StrictlySorted(sorted) && forall c :: c in sorted <==> c in codes
  {
    sorted := [];
    for i := 0 to |codes|
      invariant StrictlySorted(sorted) && forall c :: c in sorted <==> c in codes[..i]
    {
      assert codes[..i + 1] == codes[..i] + [codes[i]];
      var p := Position(sorted, codes[i]);
      InsertedSorted(sorted, codes[i], p);
      assert forall c :: c in sorted <==> c in sorted[..p] || c in sorted[p..] by {
        assert sorted == sorted[..p] + sorted[p..];
      }
      sorted := sorted[..p] + [codes[i]] + sorted[p..];
    }
    assert codes[..|codes|] == codes;
  }

  method InsertGroup(sorted: seq<Group>, g: Group) returns (next: seq<Group>)
    requires StrictlySorted(Codes(sorted)) && g.code !in Codes(sorted)
    ensures StrictlySorted(Codes(next)) && forall x :: x in next <==> x in sorted || x == g
  {
    var p := Position(Codes(sorted), g.code);
    InsertedSorted(Codes(sorted), g.code, p);
    next := sorted[..p] + [g] + sorted[p..];
    assert Codes(next) == Codes(sorted)[..p] + [g.code] + Codes(sorted)[p..];
    assert sorted == sorted[..p] + sorted[p..];
  }

  /** sort.SliceStable by code, on groups with distinct codes. */
  method SortGroups(groups: seq<Group>) returns (sorted: seq<Group>)
    requires DistinctCodes(groups)
    ensures StrictlySorted(Codes(sorted)) && forall g :: g in sorted <==> g in groups
  {
    sorted := [];
    for i := 0 to |groups|
      invariant StrictlySorted(Codes(sorted)) && forall g :: g in sorted <==> g in groups[..i]
    {
      assert groups[..i + 1] == groups[..i] + [groups[i]];
      forall k | 0 <= k < |sorted|
        ensures sorted[k].code != groups[i].code
      {
        assert sorted[k] in groups[..i];
      }
      sorted := InsertGroup(sorted, groups[i]);
    }
    assert groups[..|groups|] == groups;
  }

  // ---- the result ----

  /** The child codes under a parent code. */
  function ChildCodes(items: seq<Item>, parentCode: Option<string>): set<string> {
    set k | 0 <= k < |items| && items[k].key.Some? && items[k].key.value.parentCode == parentCode :: items[k].key.value.code
  }

  /** The groups under a parent code, in strict code order. */
  ghost predicate IsGroupList(groups: seq<Group>, items: seq<Item>, parentCode: Option<string>) {
    && StrictlySorted(Codes(groups))
    && (forall c :: c in Codes(groups) <==> c in ChildCodes(items, parentCode))
    && (forall k :: 0 <= k < |groups| ==> var key := Key(parentCode, groups[k].code);
                                          RowsOf(items, key) != [] && groups[k] == GroupOf(items, key))
  }

  function Tops(tree: seq<FolderGroup>): (groups: seq<Group>)
    ensures |groups| == |tree| && forall k :: 0 <= k < |tree| ==> groups[k] == tree[k].group
  {
    seq(|tree|, k requires 0 <= k < |tree| => tree[k].group)
  }

  /** The response: top groups in order, each with its children in order. */
  ghost predicate IsTree(tree: seq<FolderGroup>, top: seq<Item>, sub: seq<Item>) {
    && IsGroupList(Tops(tree), top, None)
    && forall k :: 0 <= k < |tree| ==> IsGroupList(tree[k].subFolders, sub, Some(tree[k].group.code))
  }

  function TopItems(level1: seq<Row>): (items: seq<Item>)
    ensures |items| == |level1|
    ensures forall k :: 0 <= k < |level1| ==> items[k] == Item(Some(Key(None, level1[k].code)), level1[k])
  {
    seq(|level1|, k requires 0 <= k < |level1| => Item(Some(Key(None, level1[k].code)), level1[k]))
  }

  function ParentCodes(level1: seq<Row>): map<Id, string> {
    if level1 == [] then map[]
    else ParentCodes(level1[..|level1| - 1])[level1[|level1| - 1].id := level1[|level1| - 1].code]
  }

  function SubItems(codes: map<Id, string>, level2: seq<Row>): (items: seq<Item>)
    ensures |items| == |level2|
    ensures forall k :: 0 <= k < |level2| ==>
      items[k] == Item(if level2[k].parentId in codes then Some(Key(Some(codes[level2[k].parentId]), level2[k].code)) else None,
                       level2[k])
  {
    seq(|level2|, k requires 0 <= k < |level2| =>
      Item(if level2[k].parentId in codes then Some(Key(Some(codes[level2[k].parentId]), level2[k].code)) else None,
           level2[k]))
  }

  /** The groups the keys stand for under one parent. */
  function GroupsAt(byKey: map<Key, Aggregate>, keys: set<Key>, parentCode: Option<string>): set<Group>
    requires keys <= byKey.Keys
  {
    set key | key in keys && key.parentCode == parentCode :: byKey[key].group
  }

  /** Ranges over the map in any order. */
  method Pick(byKey: map<Key, Aggregate>, parentCode: Option<string>) returns (picked: seq<Group>)
    requires forall key :: key in byKey ==> byKey[key].group.code == key.code
    ensures DistinctCodes(picked)
    ensures forall g :: g in picked <==> g in GroupsAt(byKey, byKey.Keys, parentCode)
  {
    picked := [];
    var seen: set<Key> := {};
    while seen != byKey.Keys
      invariant seen <= byKey.Keys && DistinctCodes(picked)
      invariant forall g :: g in picked <==> g in GroupsAt(byKey, seen, parentCode)
      decreases byKey.Keys - seen
    {
      assert byKey.Keys - seen != {};
      var key :| key in byKey.Keys - seen;
      if key.parentCode == parentCode {
        forall k | 0 <= k < |picked|
          ensures picked[k].code != key.code
        {
          assert picked[k] in GroupsAt(byKey, seen, parentCode);
        }
        assert GroupsAt(byKey, seen + {key}, parentCode) == GroupsAt(byKey, seen, parentCode) + {byKey[key].group};
        picked := picked + [byKey[key].group];
      } else {
        assert GroupsAt(byKey, seen + {key}, parentCode) == GroupsAt(byKey, seen, parentCode);
      }
      seen := seen + {key};
    }
  }

  /** The aggregates of one parent, sorted. */
  method Children(byKey: map<Key, Aggregate>, ghost items: seq<Item>,
                  parentCode: Option<string>) returns (groups: seq<Group>)
    requires Aggregated(byKey, items)
    requires forall key :: key in byKey ==> byKey[key].group.code == key.code
    ensures IsGroupList(groups, items, parentCode)
  {
    var picked := Pick(byKey, parentCode);
    groups := SortGroups(picked);
    ListedGroups(byKey, items, parentCode, groups);
  }

  lemma {:induction false} ListedGroups(byKey: map<Key, Aggregate>, items: seq<Item>, parentCode: Option<string>,
                                        groups: seq<Group>)
    requires Aggregated(byKey, items) && StrictlySorted(Codes(groups))
    requires forall key :: key in byKey ==> byKey[key].group.code == key.code
    requires forall g :: g in groups <==> g in GroupsAt(byKey, byKey.Keys, parentCode)
    ensures IsGroupList(groups, items, parentCode)
  {
    forall k | 0 <= k < |groups|
      ensures var key := Key(parentCode, groups[k].code);
              key in byKey && RowsOf(items, key) != [] && groups[k] == GroupOf(items, key)
    {
      assert groups[k] in groups;
      var key :| key in byKey && key.parentCode == parentCode && byKey[key].group == groups[k];
      assert key == Key(parentCode, groups[k].code);
    }
    forall c
      ensures c in Codes(groups) <==> c in ChildCodes(items, parentCode)
    {
      if c in Codes(groups) {
        var k :| 0 <= k < |groups| && groups[k].code == c;
        assert Key(parentCode, c) in Keys(items);
      }
      if c in ChildCodes(items, parentCode) {
        var key := Key(parentCode, c);
        assert key in byKey;
        assert byKey[key].group in groups;
      }
    }
  }

  lemma {:induction false} RowsOfAre(items: seq<Item>, key: Key, row: Row)
    ensures row in RowsOf(items, key) <==> Item(Some(key), row) in items
  {
    if items != [] {
      RowsOfAre(items[..|items| - 1], key, row);
      assert items == items[..|items| - 1] + [items[|items| - 1]];
    }
  }

  lemma {:induction false} GroupCode(items: seq<Item>, key: Key)
    requires RowsOf(items, key) != []
    requires forall k :: 0 <= k < |items| && items[k].key.Some? ==> items[k].row.code == items[k].key.value.code
    ensures GroupOf(items, key).code == key.code
  {
    RowsOfAre(items, key, RowsOf(items, key)[0]);
  }

  lemma {:induction false} GroupCodes(byKey: map<Key, Aggregate>, items: seq<Item>)
    requires Aggregated(byKey, items)
    requires forall k :: 0 <= k < |items| && items[k].key.Some? ==> items[k].row.code == items[k].key.value.code
    ensures forall key :: key in byKey ==> byKey[key].group.code == key.code
  {
    forall key | key in byKey
      ensures byKey[key].group.code == key.code
    {
      GroupCode(items, key);
    }
  }

  /** The keys of the top level in any order, then sorted: sortedStringKeys. */
  method SortedKeys(byKey: map<Key, Aggregate>) returns (codes: seq<string>)
    requires forall key :: key in byKey ==> key.parentCode.None?
    ensures StrictlySorted(codes) && forall c :: c in codes <==> Key(None, c) in byKey
  {
    var keys: seq<string> := [];
    var rest := byKey.Keys;
    while rest != {}
      invariant rest <= byKey.Keys
      invariant forall i, j :: 0 <= i < j < |keys| ==> keys[i] != keys[j]
      invariant forall c :: c in keys <==> Key(None, c) in byKey.Keys - rest
      decreases |rest|
    {
      var key :| key in rest;
      rest := rest - {key};
      keys := keys + [key.code];
    }
    codes := SortStrings(keys);
  }

  method ParentIdToCode(level1: seq<Row>) returns (codes: map<Id, string>)
    ensures codes == ParentCodes(level1)
  {
    codes := map[];
    for i := 0 to |level1|
      invariant codes == ParentCodes(level1[..i])
    {
      assert level1[..i + 1][..i] == level1[..i];
      codes := codes[level1[i].id := level1[i].code];
    }
    assert level1[..|level1|] == level1;
  }

  /** The last loop: each top group in code order, with its children. */
  method Assemble(byCode: map<Key, Aggregate>,
                  childAgg: map<Key, Aggregate>, ghost top: seq<Item>, ghost sub: seq<Item>)
    returns (tree: seq<FolderGroup>)
    requires Aggregated(byCode, top) && Aggregated(childAgg, sub)
    requires forall key :: key in byCode ==> key.parentCode.None? && byCode[key].group.code == key.code
    requires forall key :: key in childAgg ==> childAgg[key].group.code == key.code
    ensures IsTree(tree, top, sub)
  {
    var codes := SortedKeys(byCode);
    tree := [];
    for i := 0 to |codes|
      invariant |tree| == i
      invariant forall k :: 0 <= k < i ==> Key(None, codes[k]) in byCode && tree[k].group == byCode[Key(None, codes[k])].group
      invariant forall k :: 0 <= k < i ==> IsGroupList(tree[k].subFolders, sub, Some(codes[k]))
    {
      assert codes[i] in codes;
      var children := Children(childAgg, sub, Some(codes[i]));
      tree := tree + [FolderGroup(byCode[Key(None, codes[i])].group, children)];
    }
    TopsListed(tree, byCode, top, codes);
  }

  method GroupFolders(level1: seq<Row>, level2: seq<Row>) returns (tree: seq<FolderGroup>)
    ensures IsTree(tree, TopItems(level1), SubItems(ParentCodes(level1), level2))
  {
    var top := TopItems(level1);
    var byCode := AggregateByKey(top);
    GroupCodes(byCode, top);
    var parentCodes := ParentIdToCode(level1);
    var sub := SubItems(parentCodes, level2);
    var childAgg := AggregateByKey(sub);
    GroupCodes(childAgg, sub);
    tree := Assemble(byCode, childAgg, top, sub);
  }

  lemma {:induction false} TopsListed(tree: seq<FolderGroup>, byCode: map<Key, Aggregate>, top: seq<Item>,
                                      codes: seq<string>)
    requires Aggregated(byCode, top) && StrictlySorted(codes) && |tree| == |codes|
    requires forall key :: key in byCode ==> key.parentCode.None? && byCode[key].group.code == key.code
    requires forall c :: c in codes <==> Key(None, c) in byCode
    requires forall k :: 0 <= k < |codes| ==> Key(None, codes[k]) in byCode && tree[k].group == byCode[Key(None, codes[k])].group
    ensures IsGroupList(Tops(tree), top, None)
  {
    var tops := Tops(tree);
    assert Codes(tops) == codes;
    forall g
      ensures g in tops <==> g in GroupsAt(byCode, byCode.Keys, None)
    {
      if g in tops {
        var k :| 0 <= k < |tops| && tops[k] == g;
        assert Key(None, codes[k]) in byCode;
      }
      if g in GroupsAt(byCode, byCode.Keys, None) {
        var key :| key in byCode && key.parentCode == None && byCode[key].group == g;
        assert key == Key(None, key.code);
        assert key.code in codes;
        var k :| 0 <= k < |codes| && codes[k] == key.code;
        assert tops[k] == g;
      }
    }
    ListedGroups(byCode, top, None, tops);
  }

  // ---- from the visible rows ----

  /** The rows of level 1, or the others, in order. */
  function OfLevel(rows: seq<Row>, one: bool): seq<Row> {
    if rows == [] then []
    else
      var before, last := OfLevel(rows[..|rows| - 1], one), rows[|rows| - 1];
      if (last.level == 1) == one then before + [last] else before
  }

  /** After the permission filter: the rows are split by level and grouped. */
  method ProjectFolderTree(visible: seq<Row>) returns (tree: seq<FolderGroup>)
    ensures var level1, level2 := OfLevel(visible, true), OfLevel(visible, false);
            IsTree(tree, TopItems(level1), SubItems(ParentCodes(level1), level2))
  {
    var level1, level2 := [], [];
    for i := 0 to |visible|
      invariant level1 == OfLevel(visible[..i], true) && level2 == OfLevel(visible[..i], false)
    {
      assert visible[..i + 1][..i] == visible[..i];
      if visible[i].level == 1 { level1 := level1 + [visible[i]]; } else { level2 := level2 + [visible[i]]; }
    }
    assert visible[..|visible|] == visible;
    tree := GroupFolders(level1, level2);
  }

  lemma {:induction false} OfLevelMeans(rows: seq<Row>, one: bool, row: Row)
    ensures row in OfLevel(rows, one) <==> row in rows && (one <==> row.level == 1)
  {
    if rows != [] {
      OfLevelMeans(rows[..|rows| - 1], one, row);
      assert rows == rows[..|rows| - 1] + [rows[|rows| - 1]];
    }
  }

  // ---- what a group shows of its rows ----

  lemma {:induction false} RowsOfMeans(items: seq<Item>, key: Key, row: Row)
    ensures row in RowsOf(items, key) <==> exists k :: 0 <= k < |items| && items[k].key == Some(key) && items[k].row == row
  {
    if items != [] {
      var before := items[..|items| - 1];
      RowsOfMeans(before, key, row);
      assert forall k :: 0 <= k < |before| ==> before[k] == items[k];
      if k :| 0 <= k < |before| && before[k].key == Some(key) && before[k].row == row {
        assert items[k].key == Some(key) && items[k].row == row;
      }
      if items[|items| - 1].key == Some(key) && items[|items| - 1].row == row {
        assert items[|items| - 1].row == row;
      }
    }
  }

  lemma {:induction false} RefsMean(rows: seq<Row>, k: nat)
    requires k < |Refs(rows)|
    ensures exists j :: 0 <= j < |rows| && Refs(rows)[k].id == rows[j].envId && Refs(rows)[k].code == rows[j].envCode
                        && Refs(rows)[k].folderId == rows[j].id && forall i :: 0 <= i < j ==> rows[i].envId != rows[j].envId
    ensures forall i :: 0 <= i < k ==> Refs(rows)[i].id != Refs(rows)[k].id
  {
    var before, last := rows[..|rows| - 1], rows[|rows| - 1];
    EnvIdsMean(before);
    assert forall i :: 0 <= i < |before| ==> before[i] == rows[i];
    if k < |Refs(before)| {
      RefsMean(before, k);
    } else {
      assert last.envId !in EnvIds(Refs(before));
      forall i | 0 <= i < k
        ensures Refs(rows)[i].id != last.envId
      {
        assert Refs(before)[i].id in EnvIds(Refs(before));
      }
      assert Refs(rows)[k].id == rows[|rows| - 1].envId;
    }
  }

  lemma {:induction false} EnvIdsMean(rows: seq<Row>)
    ensures forall i :: 0 <= i < |rows| ==> rows[i].envId in EnvIds(Refs(rows))
  {
    if rows != [] {
      var before, last := rows[..|rows| - 1], rows[|rows| - 1];
      EnvIdsMean(before);
      EnvIdsSnoc(Refs(before), RefOf(last));
      assert forall i :: 0 <= i < |before| ==> before[i] == rows[i];
    }
  }

  /** A group shows its rows: id, code, name and comment of the first, and for every environment among them one reference
      to the first row there, by the environment's id and code and the folder's id. */
  lemma {:induction false} GroupShows(items: seq<Item>, key: Key)
    requires RowsOf(items, key) != []
    ensures var g, rows := GroupOf(items, key), RowsOf(items, key);
            && g.id == rows[0].id && g.code == rows[0].code && g.name == rows[0].name && g.comment == rows[0].comment
            && (forall i :: 0 <= i < |rows| ==> exists k :: 0 <= k < |g.envList| && g.envList[k].id == rows[i].envId)
            && (forall k :: 0 <= k < |g.envList| ==>
                 exists j :: 0 <= j < |rows| && g.envList[k].id == rows[j].envId && g.envList[k].code == rows[j].envCode
                             && g.envList[k].folderId == rows[j].id
                             && forall i :: 0 <= i < j ==> rows[i].envId != rows[j].envId)
  {
    var rows := RowsOf(items, key);
    EnvIdsMean(rows);
    forall k | 0 <= k < |Refs(rows)|
      ensures exists j :: 0 <= j < |rows| && Refs(rows)[k].id == rows[j].envId && Refs(rows)[k].code == rows[j].envCode
                          && Refs(rows)[k].folderId == rows[j].id
                          && forall i :: 0 <= i < j ==> rows[i].envId != rows[j].envId
    {
      RefsMean(rows, k);
    }
  }
}
