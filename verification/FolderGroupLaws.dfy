/** The grouped folder tree has one possible value, and loses and repeats no folder. */
module FolderGroupLaws {
  import opened Wrappers
  import opened Text
  import opened FolderGroups

  // ---- one result, whatever order the maps were ranged in ----

  lemma {:induction false} SortedUnique(a: seq<string>, b: seq<string>)
    requires StrictlySorted(a) && StrictlySorted(b) && forall c :: c in a <==> c in b
    ensures a == b
  {
    if a == [] {
      if b != [] { HasFirst(b); }
    } else {
      assert a[0] in b;
      assert b[0] in a;
      var i :| 0 <= i < |b| && b[i] == a[0];
      var j :| 0 <= j < |a| && a[j] == b[0];
      if i > 0 && j > 0 {
        BeforeTransitive(a[0], b[0], a[0]);
        BeforeIrreflexive(a[0]);
      }
      forall c
        ensures c in a[1..] <==> c in b[1..]
      {
        RestOfSorted(a, c);
        RestOfSorted(b, c);
      }
      SortedUnique(a[1..], b[1..]);
      assert a == [a[0]] + a[1..] && b == [b[0]] + b[1..];
    }
  }

  lemma {:induction false} HasFirst(b: seq<string>)
    requires b != []
    ensures exists c :: c in b
  {
    assert b[0] in b;
  }

  lemma {:induction false} RestOfSorted(a: seq<string>, c: string)
    requires a != [] && StrictlySorted(a)
    ensures c in a[1..] <==> c in a && c != a[0]
  {
    BeforeIrreflexive(a[0]);
    assert a == [a[0]] + a[1..];
    forall k | 0 <= k < |a[1..]|
      ensures a[1..][k] != a[0]
    {
      assert Before(a[0], a[k + 1]);
    }
  }

  lemma {:induction false} GroupListUnique(a: seq<Group>, b: seq<Group>, items: seq<Item>, parentCode: Option<string>)
    requires IsGroupList(a, items, parentCode) && IsGroupList(b, items, parentCode)
    ensures a == b
  {
    SortedUnique(Codes(a), Codes(b));
    forall k | 0 <= k < |a|
      ensures a[k] == b[k]
    {
      assert Codes(a)[k] == Codes(b)[k];
    }
    assert |a| == |Codes(a)| == |b|;
  }

  /** Two runs over the same rows return the same response. */
  lemma {:induction false} Deterministic(a: seq<FolderGroup>, b: seq<FolderGroup>, level1: seq<Row>, level2: seq<Row>)
    requires IsTree(a, TopItems(level1), SubItems(ParentCodes(level1), level2))
    requires IsTree(b, TopItems(level1), SubItems(ParentCodes(level1), level2))
    ensures a == b
  {
    GroupListUnique(Tops(a), Tops(b), TopItems(level1), None);
    assert |a| == |Tops(a)| == |b|;
    forall k | 0 <= k < |a|
      ensures a[k] == b[k]
    {
      assert Tops(a)[k] == Tops(b)[k];
      GroupListUnique(a[k].subFolders, b[k].subFolders, SubItems(ParentCodes(level1), level2), Some(a[k].group.code));
    }
  }

  // ---- lossless ----

  /** A folder as the response shows it. */
  datatype Entry = Entry(key: Key, ref: EnvRef)

  function Entries(g: Group, parentCode: Option<string>): (entries: seq<Entry>)
    ensures |entries| == |g.envList|
    ensures forall k :: 0 <= k < |entries| ==> entries[k] == Entry(Key(parentCode, g.code), g.envList[k])
  {
    seq(|g.envList|, k requires 0 <= k < |g.envList| => Entry(Key(parentCode, g.code), g.envList[k]))
  }

  function FlatGroups(groups: seq<Group>, parentCode: Option<string>): seq<Entry> {
    if groups == [] then []
    else FlatGroups(groups[..|groups| - 1], parentCode) + Entries(groups[|groups| - 1], parentCode)
  }

  function Flat(tree: seq<FolderGroup>): seq<Entry> {
    if tree == [] then []
    else
      var last := tree[|tree| - 1];
      Flat(tree[..|tree| - 1]) + (Entries(last.group, None) + FlatGroups(last.subFolders, Some(last.group.code)))
  }

  /** No two rows of a key share an environment. */
  ghost predicate OneRowPerEnv(items: seq<Item>) {
    forall i, j :: 0 <= i < j < |items| && items[i].key.Some? && items[i].key == items[j].key ==>
      items[i].row.envId != items[j].row.envId
  }

  ghost predicate NoDup<T>(xs: seq<T>) {
    forall i, j :: 0 <= i < j < |xs| ==> xs[i] != xs[j]
  }

  lemma {:induction false} NoDupConcat<T>(a: seq<T>, b: seq<T>)
    requires NoDup(a) && NoDup(b) && forall x :: x in a ==> x !in b
    ensures NoDup(a + b)
  {
    forall i, j | 0 <= i < j < |a + b|
      ensures (a + b)[i] != (a + b)[j]
    {
      if i < |a| <= j { assert a[i] in a && b[j - |a|] in b; }
    }
  }

  /** Then nothing is dropped: the references are exactly the rows', in order. */
  lemma {:induction false} RefsComplete(rows: seq<Row>)
    requires forall i, j :: 0 <= i < j < |rows| ==> rows[i].envId != rows[j].envId
    ensures |Refs(rows)| == |rows| && forall k :: 0 <= k < |rows| ==> Refs(rows)[k] == RefOf(rows[k])
  {
    if rows != [] {
      var before, last := rows[..|rows| - 1], rows[|rows| - 1];
      RefsComplete(before);
      forall k | 0 <= k < |Refs(before)|
        ensures Refs(before)[k].id != last.envId
      {
        assert rows[k].envId != rows[|rows| - 1].envId;
      }
    }
  }

  lemma {:induction false} RowsOfDistinct(items: seq<Item>, key: Key)
    requires OneRowPerEnv(items)
    ensures forall i, j :: 0 <= i < j < |RowsOf(items, key)| ==> RowsOf(items, key)[i].envId != RowsOf(items, key)[j].envId
  {
    if items != [] {
      var before, last := items[..|items| - 1], items[|items| - 1];
      assert forall k :: 0 <= k < |before| ==> before[k] == items[k];
      RowsOfDistinct(before, key);
      if last.key == Some(key) {
        forall row | row in RowsOf(before, key)
          ensures row.envId != last.row.envId
        {
          RowsOfAre(before, key, row);
          var k :| 0 <= k < |before| && before[k] == Item(Some(key), row);
          assert items[k].key == items[|items| - 1].key;
        }
      }
    }
  }

  /** A group's entries are the rows of its key, each once. */
  lemma {:induction false} GroupEntries(items: seq<Item>, g: Group, parentCode: Option<string>, e: Entry)
    requires OneRowPerEnv(items) && RowsOf(items, Key(parentCode, g.code)) != []
    requires g == GroupOf(items, Key(parentCode, g.code))
    ensures NoDup(Entries(g, parentCode))
    ensures e in Entries(g, parentCode) <==>
            e.key == Key(parentCode, g.code) && exists row :: Item(Some(e.key), row) in items && e.ref == RefOf(row)
  {
    var key := Key(parentCode, g.code);
    var rows := RowsOf(items, key);
    RowsOfDistinct(items, key);
    RefsComplete(rows);
    var entries := Entries(g, parentCode);
    if e in entries {
      var k :| 0 <= k < |entries| && entries[k] == e;
      RowsOfAre(items, key, rows[k]);
      assert Item(Some(e.key), rows[k]) in items;
    }
    if row :| e.key == key && Item(Some(e.key), row) in items && e.ref == RefOf(row) {
      RowsOfAre(items, key, row);
      var k :| 0 <= k < |rows| && rows[k] == row;
      assert entries[k] == e;
    }
    forall i, j | 0 <= i < j < |entries|
      ensures entries[i] != entries[j]
    {
      assert rows[i].envId != rows[j].envId;
    }
  }

  ghost predicate GroupsOk(groups: seq<Group>, items: seq<Item>, parentCode: Option<string>) {
    && (forall i, j :: 0 <= i < j < |groups| ==> groups[i].code != groups[j].code)
    && (forall k :: 0 <= k < |groups| ==> var key := Key(parentCode, groups[k].code);
                                          RowsOf(items, key) != [] && groups[k] == GroupOf(items, key))
  }

  lemma {:induction false} FlatGroupsMeans(groups: seq<Group>, items: seq<Item>, parentCode: Option<string>)
    requires OneRowPerEnv(items) && GroupsOk(groups, items, parentCode)
    ensures NoDup(FlatGroups(groups, parentCode))
    ensures forall e :: e in FlatGroups(groups, parentCode) <==>
      && e.key.parentCode == parentCode && e.key.code in Codes(groups)
      && exists row :: Item(Some(e.key), row) in items && e.ref == RefOf(row)
  {
    if groups != [] {
      var before, last := groups[..|groups| - 1], groups[|groups| - 1];
      FlatGroupsMeans(before, items, parentCode);
      assert Codes(groups) == Codes(before) + [last.code];
      forall e
        ensures e in Entries(last, parentCode) <==>
                e.key == Key(parentCode, last.code) && exists row :: Item(Some(e.key), row) in items && e.ref == RefOf(row)
        ensures NoDup(Entries(last, parentCode))
      {
        GroupEntries(items, last, parentCode, e);
      }
      GroupEntries(items, last, parentCode, Entry(Key(None, ""), EnvRef("", "", "")));
      assert last.code !in Codes(before);
      NoDupConcat(FlatGroups(before, parentCode), Entries(last, parentCode));
    }
  }

  lemma {:induction false} ListOk(groups: seq<Group>, items: seq<Item>, parentCode: Option<string>)
    requires IsGroupList(groups, items, parentCode)
    ensures GroupsOk(groups, items, parentCode)
  {
    forall i, j | 0 <= i < j < |groups|
      ensures groups[i].code != groups[j].code
    {
      assert Before(Codes(groups)[i], Codes(groups)[j]);
      BeforeIrreflexive(groups[i].code);
    }
  }

  /** Row r of the items is shown as e. */
  ghost predicate Shown(items: seq<Item>, e: Entry) {
    exists row :: Item(Some(e.key), row) in items && e.ref == RefOf(row)
  }

  /** The entries under one parent are exactly the rows with that parent code. */
  lemma {:induction false} ListMeans(groups: seq<Group>, items: seq<Item>, parentCode: Option<string>)
    requires OneRowPerEnv(items) && IsGroupList(groups, items, parentCode)
    ensures NoDup(FlatGroups(groups, parentCode))
    ensures forall e :: e in FlatGroups(groups, parentCode) <==> e.key.parentCode == parentCode && Shown(items, e)
  {
    ListOk(groups, items, parentCode);
    FlatGroupsMeans(groups, items, parentCode);
    forall e: Entry | e.key.parentCode == parentCode && Shown(items, e)
      ensures e.key.code in Codes(groups)
    {
      var row :| Item(Some(e.key), row) in items && e.ref == RefOf(row);
      var k :| 0 <= k < |items| && items[k] == Item(Some(e.key), row);
      assert items[k].key.value.code in ChildCodes(items, parentCode);
    }
  }

  /** The part of the tree made so far. */
  lemma {:induction false} FlatMeans(tree: seq<FolderGroup>, top: seq<Item>, sub: seq<Item>)
    requires OneRowPerEnv(top) && OneRowPerEnv(sub) && GroupsOk(Tops(tree), top, None)
    requires forall k :: 0 <= k < |tree| ==> IsGroupList(tree[k].subFolders, sub, Some(tree[k].group.code))
    ensures NoDup(Flat(tree))
    ensures forall e :: e in Flat(tree) <==>
      || (e.key.parentCode.None? && e.key.code in Codes(Tops(tree)) && Shown(top, e))
      || (e.key.parentCode.Some? && e.key.parentCode.value in Codes(Tops(tree)) && Shown(sub, e))
  {
    if tree != [] {
      var before, last := tree[..|tree| - 1], tree[|tree| - 1];
      assert Tops(tree) == Tops(before) + [last.group];
      assert Codes(Tops(tree)) == Codes(Tops(before)) + [last.group.code];
      FlatMeans(before, top, sub);
      LastMeans(tree, top, sub);
      assert last.group.code !in Codes(Tops(before));
      NoDupConcat(Flat(before), Entries(last.group, None) + FlatGroups(last.subFolders, Some(last.group.code)));
    }
  }

  lemma {:induction false} LastMeans(tree: seq<FolderGroup>, top: seq<Item>, sub: seq<Item>)
    requires tree != [] && OneRowPerEnv(top) && OneRowPerEnv(sub) && GroupsOk(Tops(tree), top, None)
    requires IsGroupList(tree[|tree| - 1].subFolders, sub, Some(tree[|tree| - 1].group.code))
    ensures var last := tree[|tree| - 1]; var flat := Entries(last.group, None) + FlatGroups(last.subFolders, Some(last.group.code));
            && NoDup(flat)
            && forall e :: e in flat <==> || (e.key == Key(None, last.group.code) && Shown(top, e))
                                          || (e.key.parentCode == Some(last.group.code) && Shown(sub, e))
  {
    var last := tree[|tree| - 1];
    assert Tops(tree)[|tree| - 1] == last.group;
    forall e: Entry
      ensures e in Entries(last.group, None) <==> e.key == Key(None, last.group.code) && Shown(top, e)
    {
      GroupEntries(top, last.group, None, e);
    }
    GroupEntries(top, last.group, None, Entry(Key(None, ""), EnvRef("", "", "")));
    ListMeans(last.subFolders, sub, Some(last.group.code));
    NoDupConcat(Entries(last.group, None), FlatGroups(last.subFolders, Some(last.group.code)));
  }

  // ---- in terms of the rows ----

  /** What the schema guarantees of a project's active rows: ids are distinct, codes are unique per environment
      and parent, and a level-2 folder lies in its parent's environment. */
  ghost predicate RowsOk(level1: seq<Row>, level2: seq<Row>) {
    && (forall i, j :: 0 <= i < j < |level1| ==> level1[i].id != level1[j].id)
    && (forall i, j :: 0 <= i < j < |level1| ==> !(level1[i].envId == level1[j].envId && level1[i].code == level1[j].code))
    && (forall i, j :: 0 <= i < j < |level2| ==>
         !(level2[i].envId == level2[j].envId && level2[i].parentId == level2[j].parentId && level2[i].code == level2[j].code))
    && (forall i, j :: 0 <= i < |level2| && 0 <= j < |level1| && level2[i].parentId == level1[j].id ==>
         level2[i].envId == level1[j].envId)
  }

  lemma {:induction false} ParentCodesMean(level1: seq<Row>, id: Id)
    requires forall i, j :: 0 <= i < j < |level1| ==> level1[i].id != level1[j].id
    ensures id in ParentCodes(level1) <==> exists k :: 0 <= k < |level1| && level1[k].id == id
    ensures forall k :: 0 <= k < |level1| && level1[k].id == id ==> id in ParentCodes(level1) && ParentCodes(level1)[id] == level1[k].code
  {
    if level1 != [] {
      ParentCodesMean(level1[..|level1| - 1], id);
      if level1[|level1| - 1].id == id { assert level1[|level1| - 1].id == id; }
    }
  }

  lemma {:induction false} ItemsOneRowPerEnv(level1: seq<Row>, level2: seq<Row>)
    requires RowsOk(level1, level2)
    ensures OneRowPerEnv(TopItems(level1)) && OneRowPerEnv(SubItems(ParentCodes(level1), level2))
  {
    var sub := SubItems(ParentCodes(level1), level2);
    forall i, j | 0 <= i < j < |sub| && sub[i].key.Some? && sub[i].key == sub[j].key
      ensures sub[i].row.envId != sub[j].row.envId
    {
      ParentCodesMean(level1, level2[i].parentId);
      ParentCodesMean(level1, level2[j].parentId);
      var a :| 0 <= a < |level1| && level1[a].id == level2[i].parentId;
      var b :| 0 <= b < |level1| && level1[b].id == level2[j].parentId;
      SameRow(level1, level2, a, b);
    }
  }

  lemma {:induction false} SameRow(level1: seq<Row>, level2: seq<Row>, a: nat, b: nat)
    requires RowsOk(level1, level2) && a < |level1| && b < |level1|
    ensures level1[a].envId == level1[b].envId && level1[a].code == level1[b].code ==> a == b
  {
  }

  function TopEntry(row: Row): Entry { Entry(Key(None, row.code), RefOf(row)) }

  function SubEntry(parent: Row, row: Row): Entry { Entry(Key(Some(parent.code), row.code), RefOf(row)) }

  /** Flattening the response yields the visible level-1 rows and the visible level-2 rows whose parent is visible,
      each under its code and its parent's code, and each exactly once. */
  lemma {:induction false} Lossless(tree: seq<FolderGroup>, level1: seq<Row>, level2: seq<Row>)
    requires RowsOk(level1, level2) && IsTree(tree, TopItems(level1), SubItems(ParentCodes(level1), level2))
    ensures NoDup(Flat(tree))
    ensures forall e :: e in Flat(tree) <==>
      || (exists k :: 0 <= k < |level1| && e == TopEntry(level1[k]))
      || (exists k, p :: 0 <= k < |level2| && 0 <= p < |level1| && level2[k].parentId == level1[p].id
                         && e == SubEntry(level1[p], level2[k]))
  {
    var top, sub := TopItems(level1), SubItems(ParentCodes(level1), level2);
    ItemsOneRowPerEnv(level1, level2);
    ListOk(Tops(tree), top, None);
    FlatMeans(tree, top, sub);
    forall e: Entry
      ensures (e.key.parentCode.None? && e.key.code in Codes(Tops(tree)) && Shown(top, e))
              <==> exists k :: 0 <= k < |level1| && e == TopEntry(level1[k])
      ensures (e.key.parentCode.Some? && e.key.parentCode.value in Codes(Tops(tree)) && Shown(sub, e))
              <==> exists k, p :: 0 <= k < |level2| && 0 <= p < |level1| && level2[k].parentId == level1[p].id
                                  && e == SubEntry(level1[p], level2[k])
    {
      TopShown(tree, level1, e);
      SubShown(tree, level1, level2, e);
    }
  }

  lemma {:induction false} TopCode(tree: seq<FolderGroup>, level1: seq<Row>, k: nat)
    requires IsGroupList(Tops(tree), TopItems(level1), None) && k < |level1|
    ensures level1[k].code in Codes(Tops(tree))
  {
    assert TopItems(level1)[k].key.value.code in ChildCodes(TopItems(level1), None);
  }

  lemma {:induction false} TopShown(tree: seq<FolderGroup>, level1: seq<Row>, e: Entry)
    requires IsGroupList(Tops(tree), TopItems(level1), None)
    ensures (e.key.parentCode.None? && e.key.code in Codes(Tops(tree)) && Shown(TopItems(level1), e))
            <==> exists k :: 0 <= k < |level1| && e == TopEntry(level1[k])
  {
    var top := TopItems(level1);
    if Shown(top, e) {
      var row :| Item(Some(e.key), row) in top && e.ref == RefOf(row);
      var k :| 0 <= k < |top| && top[k] == Item(Some(e.key), row);
      assert e == TopEntry(level1[k]);
    }
    if k :| 0 <= k < |level1| && e == TopEntry(level1[k]) {
      TopCode(tree, level1, k);
      assert top[k] == Item(Some(e.key), level1[k]) && top[k] in top;
    }
  }

  lemma {:induction false} SubShown(tree: seq<FolderGroup>, level1: seq<Row>, level2: seq<Row>, e: Entry)
    requires RowsOk(level1, level2) && IsGroupList(Tops(tree), TopItems(level1), None)
    ensures (e.key.parentCode.Some? && e.key.parentCode.value in Codes(Tops(tree))
             && Shown(SubItems(ParentCodes(level1), level2), e))
            <==> exists k, p :: 0 <= k < |level2| && 0 <= p < |level1| && level2[k].parentId == level1[p].id
                                && e == SubEntry(level1[p], level2[k])
  {
    var codes := ParentCodes(level1);
    var sub := SubItems(codes, level2);
    if Shown(sub, e) {
      var row :| Item(Some(e.key), row) in sub && e.ref == RefOf(row);
      var k :| 0 <= k < |sub| && sub[k] == Item(Some(e.key), row);
      ParentCodesMean(level1, level2[k].parentId);
      var p :| 0 <= p < |level1| && level1[p].id == level2[k].parentId;
      assert e == SubEntry(level1[p], level2[k]);
    }
    if k, p :| 0 <= k < |level2| && 0 <= p < |level1| && level2[k].parentId == level1[p].id && e == SubEntry(level1[p], level2[k]) {
      ParentCodesMean(level1, level2[k].parentId);
      TopCode(tree, level1, p);
      assert sub[k] == Item(Some(e.key), level2[k]) && sub[k] in sub;
    }
  }
}
