/** ListAcrossEnvs of internal/service/secret_service.go: the secrets of some keys in some environments, grouped. */
module AcrossEnvs {
  import opened Wrappers
  import opened Text

  const MAX_KEYS := 32
  const MAX_ENVS := 32

  /** A row of either secret query; `payload` is the stored ciphertext. */
  datatype Row = Row(projectCode: string, folderCode: string, key: string, envCode: string, folderId: string,
                     secretId: string, comment: string, version: int, sortOrder: int, payload: string)

  datatype EnvValue = EnvValue(folderId: string, value: string, version: int, comment: string, id: string, sortOrder: int)

  datatype AcrossEnvs = AcrossEnvs(projectCode: string, key: string, comment: string, envs: map<string, Option<EnvValue>>)

  /** Decoding and decrypting a payload. */
  type Opener = string -> Result<string>

  // ---- cleaning the lists ----

  /** Trimmed, blanks dropped, repeats dropped, in order of first appearance. */
  function Cleaned(values: seq<string>): seq<string> {
    if values == [] then []
    else
      var before, v := Cleaned(values[..|values| - 1]), TrimSpace(values[|values| - 1]);
      if v == "" || v in before then before else before + [v]
  }

  /** ^[A-Z][A-Z0-9_]*$ */
  predicate IsKey(key: string) {
    key != "" && 'A' <= key[0] <= 'Z' &&
    forall k :: 0 <= k < |key| ==> 'A' <= key[k] <= 'Z' || '0' <= key[k] <= '9' || key[k] == '_'
  }

  predicate AcceptableKey(raw: string) {
    TrimSpace(raw) == "" || IsKey(TrimSpace(raw))
  }

  method CleanKeys(keys: seq<string>) returns (cleaned: Result<seq<string>>)
    ensures cleaned == if forall k :: 0 <= k < |keys| ==> AcceptableKey(keys[k]) then Ok(Cleaned(keys)) else Err(ErrOther)
  {
    var out: seq<string> := [];
    var seen: set<string> := {};
    for i := 0 to |keys|
      invariant forall k :: 0 <= k < i ==> AcceptableKey(keys[k])
      invariant out == Cleaned(keys[..i]) && forall v :: v in seen <==> v in out
    {
      assert keys[..i + 1][..i] == keys[..i];
      var k := TrimSpace(keys[i]);
      if k == "" { continue; }
      if !IsKey(k) {
        assert !AcceptableKey(keys[i]);
        return Err(ErrOther);
      }
      if k in seen { continue; }
      seen := seen + {k};
      out := out + [k];
    }
    assert keys[..|keys|] == keys;
    return Ok(out);
  }

  method CleanEnvs(envList: seq<string>) returns (cleaned: seq<string>)
    ensures cleaned == Cleaned(envList)
  {
    cleaned := [];
    var seen: set<string> := {};
    for i := 0 to |envList|
      invariant cleaned == Cleaned(envList[..i]) && forall v :: v in seen <==> v in cleaned
    {
      assert envList[..i + 1][..i] == envList[..i];
      var e := TrimSpace(envList[i]);
      if e == "" || e in seen { continue; }
      seen := seen + {e};
      cleaned := cleaned + [e];
    }
    assert envList[..|envList|] == envList;
  }

  /** Cleaning keeps exactly the trimmed, non-blank values, each once. */
  lemma {:induction false} CleanedMeans(values: seq<string>, v: string)
    ensures v in Cleaned(values) <==> v != "" && exists k :: 0 <= k < |values| && TrimSpace(values[k]) == v
    ensures forall i, j :: 0 <= i < j < |Cleaned(values)| ==> Cleaned(values)[i] != Cleaned(values)[j]
  {
    if values != [] {
      CleanedMeans(values[..|values| - 1], v);
      if TrimSpace(values[|values| - 1]) == v { assert TrimSpace(values[|values| - 1]) == v; }
    }
  }

  /** Cleaning keeps the order of first appearance. */
  lemma {:induction false} CleanedInOrder(values: seq<string>, i: nat, j: nat, b: nat)
    requires i < j < |Cleaned(values)| && b < |values| && TrimSpace(values[b]) == Cleaned(values)[j]
    ensures exists a :: 0 <= a < b && TrimSpace(values[a]) == Cleaned(values)[i]
  {
    var before, v := values[..|values| - 1], TrimSpace(values[|values| - 1]);
    var kept := Cleaned(before);
    CleanedMeans(before, "");
    if j < |kept| {
      if b < |before| {
        CleanedInOrder(before, i, j, b);
        var a :| 0 <= a < b && TrimSpace(before[a]) == kept[i];
        assert TrimSpace(values[a]) == Cleaned(values)[i];
      } else {
        CleanedMeans(before, kept[i]);
        assert kept[i] in kept;
        var a :| 0 <= a < |before| && TrimSpace(before[a]) == kept[i];
        assert TrimSpace(values[a]) == Cleaned(values)[i];
      }
    } else {
      CleanedMeans(before, v);
      if b < |before| { assert false; }
      CleanedMeans(before, kept[i]);
      assert kept[i] in kept;
      var a :| 0 <= a < |before| && TrimSpace(before[a]) == kept[i];
      assert TrimSpace(values[a]) == Cleaned(values)[i];
    }
  }

  // ---- the query ----

  /** The where-clauses of ListSecretsInProjectByEnvs, without keys, and ListSecretsByProjectFolderKey. */
  predicate Selects(row: Row, folderCode: string, keys: seq<string>, envs: seq<string>) {
    && row.envCode in envs
    && (if keys == [] then folderCode == "" || row.folderCode == folderCode
        else row.folderCode == folderCode && row.key in keys)
  }

  function Select(visible: seq<Row>, folderCode: string, keys: seq<string>, envs: seq<string>): seq<Row> {
    if visible == [] then []
    else
      var before, last := Select(visible[..|visible| - 1], folderCode, keys, envs), visible[|visible| - 1];
      if Selects(last, folderCode, keys, envs) then before + [last] else before
  }

  lemma {:induction false} SelectMeans(visible: seq<Row>, folderCode: string, keys: seq<string>, envs: seq<string>,
                                       row: Row)
    ensures row in Select(visible, folderCode, keys, envs) <==> row in visible && Selects(row, folderCode, keys, envs)
  {
    if visible != [] {
      SelectMeans(visible[..|visible| - 1], folderCode, keys, envs, row);
      assert visible == visible[..|visible| - 1] + [visible[|visible| - 1]];
    }
  }

  // ---- grouping ----

  datatype GroupKey = GroupKey(folderCode: string, key: string)

  datatype GroupState = GroupState(projectCode: string, comment: string, envs: map<string, Option<EnvValue>>)

  function KeyOf(row: Row): GroupKey { GroupKey(row.folderCode, row.key) }

  ghost predicate AllOpen(rows: seq<Row>, open: Opener) {
    forall k :: 0 <= k < |rows| ==> open(rows[k].payload).Ok?
  }

  /** The group keys in order of first appearance. */
  function Order(rows: seq<Row>): seq<GroupKey> {
    if rows == [] then []
    else
      var before, k := Order(rows[..|rows| - 1]), KeyOf(rows[|rows| - 1]);
      if k in before then before else before + [k]
  }

  function RowsOf(rows: seq<Row>, gk: GroupKey): seq<Row> {
    if rows == [] then []
    else
      var before, last := RowsOf(rows[..|rows| - 1], gk), rows[|rows| - 1];
      if KeyOf(last) == gk then before + [last] else before
  }

  lemma {:induction false} RowsOfMeans(rows: seq<Row>, gk: GroupKey, row: Row)
    ensures row in RowsOf(rows, gk) <==> row in rows && KeyOf(row) == gk
  {
    if rows != [] {
      RowsOfMeans(rows[..|rows| - 1], gk, row);
      assert rows == rows[..|rows| - 1] + [rows[|rows| - 1]];
    }
  }

  function ValueOf(row: Row, open: Opener): EnvValue
    requires open(row.payload).Ok?
  {
    EnvValue(row.folderId, open(row.payload).value, row.version, row.comment, row.secretId, row.sortOrder)
  }

  /** Every asked environment has a place, empty at first. */
  function Blank(envs: seq<string>): map<string, Option<EnvValue>> {
    map e | e in envs :: None
  }

  /** The last row of an environment fills its place. */
  function Filled(envs: seq<string>, rows: seq<Row>, open: Opener): map<string, Option<EnvValue>>
    requires AllOpen(rows, open)
  {
    if rows == [] then Blank(envs)
    else
      var last := rows[|rows| - 1];
      Filled(envs, rows[..|rows| - 1], open)[last.envCode := Some(ValueOf(last, open))]
  }

  lemma {:induction false} OwnOpen(rows: seq<Row>, gk: GroupKey, open: Opener)
    requires AllOpen(rows, open)
    ensures AllOpen(RowsOf(rows, gk), open)
  {
    forall k | 0 <= k < |RowsOf(rows, gk)|
      ensures open(RowsOf(rows, gk)[k].payload).Ok?
    {
      RowsOfMeans(rows, gk, RowsOf(rows, gk)[k]);
      var j :| 0 <= j < |rows| && rows[j] == RowsOf(rows, gk)[k];
    }
  }

  /** Project code and comment come from the group's first row. */
  ghost predicate IsState(g: GroupState, own: seq<Row>, envs: seq<string>, open: Opener) {
    && own != [] && AllOpen(own, open)
    && g == GroupState(own[0].projectCode, own[0].comment, Filled(envs, own, open))
  }

  ghost predicate Grouped(groups: map<GroupKey, GroupState>, order: seq<GroupKey>, rows: seq<Row>, envs: seq<string>,
                          open: Opener)
  {
    && order == Order(rows) && (forall gk :: gk in groups <==> gk in order)
    && forall gk :: gk in groups ==> IsState(groups[gk], RowsOf(rows, gk), envs, open)
  }

  lemma {:induction false} OrderMeans(rows: seq<Row>, gk: GroupKey)
    ensures gk in Order(rows) <==> RowsOf(rows, gk) != []
    ensures forall i, j :: 0 <= i < j < |Order(rows)| ==> Order(rows)[i] != Order(rows)[j]
  {
    if rows != [] { OrderMeans(rows[..|rows| - 1], gk); }
  }

  method BlankEnvs(envs: seq<string>) returns (blank: map<string, Option<EnvValue>>)
    ensures blank == Blank(envs)
  {
    blank := map[];
    for i := 0 to |envs|
      invariant blank == Blank(envs[..i])
    {
      assert envs[..i + 1] == envs[..i] + [envs[i]];
      blank := blank[envs[i] := None];
    }
    assert envs[..|envs|] == envs;
  }

  lemma {:induction false} RowsOfSnoc(rows: seq<Row>, row: Row, gk: GroupKey)
    ensures RowsOf(rows + [row], gk) == if KeyOf(row) == gk then RowsOf(rows, gk) + [row] else RowsOf(rows, gk)
  {
    assert (rows + [row])[..|rows|] == rows;
  }

  lemma {:induction false} OrderSnoc(rows: seq<Row>, row: Row)
    ensures Order(rows + [row]) == if KeyOf(row) in Order(rows) then Order(rows) else Order(rows) + [KeyOf(row)]
  {
    assert (rows + [row])[..|rows|] == rows;
  }

  /** The state of a group after one more of its rows. */
  lemma {:induction false} StateNext(own: seq<Row>, row: Row, g: GroupState, envs: seq<string>, open: Opener)
    requires open(row.payload).Ok?
    requires if own == [] then g == GroupState(row.projectCode, row.comment, Blank(envs)) else IsState(g, own, envs, open)
    ensures IsState(g.(envs := g.envs[row.envCode := Some(ValueOf(row, open))]), own + [row], envs, open)
  {
    assert (own + [row])[..|own|] == own;
  }

  lemma {:induction false} GroupedNext(groups: map<GroupKey, GroupState>, order: seq<GroupKey>, rows: seq<Row>,
                                       row: Row,
                                       g: GroupState, envs: seq<string>, open: Opener)
    requires Grouped(groups, order, rows, envs, open)
    requires IsState(g, RowsOf(rows, KeyOf(row)) + [row], envs, open)
    ensures Grouped(groups[KeyOf(row) := g], if KeyOf(row) in order then order else order + [KeyOf(row)], rows + [row], envs, open)
  {
    OrderSnoc(rows, row);
    var groups' := groups[KeyOf(row) := g];
    forall gk | gk in groups'
      ensures IsState(groups'[gk], RowsOf(rows + [row], gk), envs, open)
    {
      RowsOfSnoc(rows, row, gk);
    }
  }

  /** The first project code that is not empty. */
  function ProjectCodeOf(rows: seq<Row>): string {
    if rows == [] then ""
    else
      var before := ProjectCodeOf(rows[..|rows| - 1]);
      if before == "" then rows[|rows| - 1].projectCode else before
  }

  /** One turn of the loop: the row joins its group, which is made on first sight. */
  method AddRow(groups: map<GroupKey, GroupState>, order: seq<GroupKey>, ghost rows: seq<Row>, row: Row,
                envs: seq<string>, open: Opener)
    returns (groups': map<GroupKey, GroupState>, order': seq<GroupKey>)
    requires open(row.payload).Ok? && Grouped(groups, order, rows, envs, open)
    ensures Grouped(groups', order', rows + [row], envs, open)
  {
    var gk := KeyOf(row);
    OrderMeans(rows, gk);
    var g: GroupState;
    order' := order;
    if gk in groups {
      g := groups[gk];
    } else {
      var blank := BlankEnvs(envs);
      g := GroupState(row.projectCode, row.comment, blank);
      order' := order + [gk];
    }
    StateNext(RowsOf(rows, gk), row, g, envs, open);
    g := g.(envs := g.envs[row.envCode := Some(ValueOf(row, open))]);
    GroupedNext(groups, order, rows, row, g, envs, open);
    groups' := groups[gk := g];
  }

  /** The aggregation loop. A payload that does not open ends the call. */
  method Group(rows: seq<Row>, envs: seq<string>, open: Opener)
    returns (r: Result<()>, groups: map<GroupKey, GroupState>, order: seq<GroupKey>, projectCode: string)
    ensures r.Ok? <==> AllOpen(rows, open)
    ensures r.Ok? ==> Grouped(groups, order, rows, envs, open) && projectCode == ProjectCodeOf(rows)
    ensures r.Err? ==> exists k :: 0 <= k < |rows| && open(rows[k].payload) == Err(r.error) && AllOpen(rows[..k], open)
  {
    groups, order, projectCode := map[], [], "";
    for i := 0 to |rows|
      invariant AllOpen(rows[..i], open) && Grouped(groups, order, rows[..i], envs, open)
      invariant projectCode == ProjectCodeOf(rows[..i])
    {
      var row := rows[i];
      assert rows[..i + 1] == rows[..i] + [row] && rows[..i + 1][..i] == rows[..i];
      if projectCode == "" { projectCode := row.projectCode; }
      var plain := open(row.payload);
      if plain.Err? { return Err(plain.error), groups, order, projectCode; }
      groups, order := AddRow(groups, order, rows[..i], row, envs, open);
    }
    assert rows[..|rows|] == rows;
    return Ok(()), groups, order, projectCode;
  }

  // ---- counting the values present ----

  function Present(envs: map<string, Option<EnvValue>>): nat {
    |set e | e in envs && envs[e].Some?|
  }

  function Hits(items: seq<AcrossEnvs>): nat {
    if items == [] then 0 else Hits(items[..|items| - 1]) + Present(items[|items| - 1].envs)
  }

  /** Ranges over one group's environments in any order. */
  method CountPresent(envs: map<string, Option<EnvValue>>) returns (n: nat)
    ensures n == Present(envs)
  {
    n := 0;
    var seen: set<string> := {};
    ghost var found: set<string> := {};
    while seen != envs.Keys
      invariant seen <= envs.Keys && found == (set e | e in seen && envs[e].Some?) && n == |found|
      decreases envs.Keys - seen
    {
      assert envs.Keys - seen != {};
      var e :| e in envs.Keys - seen;
      seen := seen + {e};
      if envs[e].Some? {
        n := n + 1;
        found := found + {e};
      }
    }
    assert found == set e | e in envs && envs[e].Some?;
  }

  // ---- the whole call ----

  function ItemOf(gk: GroupKey, g: GroupState): AcrossEnvs {
    AcrossEnvs(g.projectCode, gk.key, g.comment, g.envs)
  }

  /** The elements for the groups, in order. */
  function HitItems(order: seq<GroupKey>, groups: map<GroupKey, GroupState>): (items: seq<AcrossEnvs>)
    requires forall k :: 0 <= k < |order| ==> order[k] in groups
    ensures |items| == |order| && forall k :: 0 <= k < |order| ==> items[k] == ItemOf(order[k], groups[order[k]])
  {
    seq(|order|, k requires 0 <= k < |order| => ItemOf(order[k], groups[order[k]]))
  }

  /** The asked keys that no group has, in order. */
  function Missing(keys: seq<string>, hit: set<string>): seq<string> {
    if keys == [] then []
    else
      var before, last := Missing(keys[..|keys| - 1], hit), keys[|keys| - 1];
      if last in hit then before else before + [last]
  }

  function Placeholders(missing: seq<string>, projectCode: string, envs: seq<string>): (items: seq<AcrossEnvs>)
    ensures |items| == |missing|
    ensures forall k :: 0 <= k < |missing| ==> items[k] == AcrossEnvs(projectCode, missing[k], "", Blank(envs))
  {
    seq(|missing|, k requires 0 <= k < |missing| => AcrossEnvs(projectCode, missing[k], "", Blank(envs)))
  }

  function HitKeys(order: seq<GroupKey>): set<string> {
    set k | 0 <= k < |order| :: order[k].key
  }

  /** What the service answers: the elements, and the hit count written to the audit, if one was written. */
  datatype Response = Response(items: seq<AcrossEnvs>, audited: Option<nat>)

  /** What is refused before any row is read. */
  function Refusal(userId: string, projectId: string, folderCode: string, keys: seq<string>,
                   envList: seq<string>): Option<Error> {
    if TrimSpace(userId) == "" then Some(ErrPermissionDenied)
    else if TrimSpace(projectId) == "" then Some(ErrOther)
    else if exists k :: 0 <= k < |keys| && !AcceptableKey(keys[k]) then Some(ErrOther)
    else if |Cleaned(keys)| > MAX_KEYS then Some(ErrOther)
    else if |Cleaned(keys)| > 0 && TrimSpace(folderCode) == "" then Some(ErrOther)
    else if |Cleaned(envList)| == 0 || |Cleaned(envList)| > MAX_ENVS then Some(ErrOther)
    else None
  }

  /** The pattern ^[A-Z][A-Z0-9_]*$ */
  ghost predicate FitsPattern(key: string) {
    key != "" && 'A' <= key[0] && key[0] <= 'Z'
    && forall k :: 0 <= k < |key| ==> ('A' <= key[k] <= 'Z') || ('0' <= key[k] <= '9') || key[k] == '_'
  }

  /** Accepted exactly with a caller, a project, at most 32 keys that all fit the pattern, blanks aside, a folder if there
      is any key, and between one and 32 environments. */
  method Validate(userId: string, projectId: string, folderCode: string, keys: seq<string>, envList: seq<string>)
    returns (refused: Option<Error>, cleanedKeys: seq<string>, cleaned: seq<string>)
    ensures refused == Refusal(userId, projectId, folderCode, keys, envList)
    ensures refused.None? ==> cleanedKeys == Cleaned(keys) && cleaned == Cleaned(envList)
    ensures refused.None? <==>
      && TrimSpace(userId) != "" && TrimSpace(projectId) != ""
      && (forall k :: 0 <= k < |keys| ==> TrimSpace(keys[k]) == "" || FitsPattern(TrimSpace(keys[k])))
      && |Cleaned(keys)| <= 32 && (Cleaned(keys) != [] ==> TrimSpace(folderCode) != "")
      && 1 <= |Cleaned(envList)| <= 32
    ensures refused.Some? ==> refused.value == if TrimSpace(userId) == "" then ErrPermissionDenied else ErrOther
  {
    cleanedKeys, cleaned := [], [];
    if TrimSpace(userId) == "" { return Some(ErrPermissionDenied), cleanedKeys, cleaned; }
    if TrimSpace(projectId) == "" { return Some(ErrOther), cleanedKeys, cleaned; }
    var checked := CleanKeys(keys);
    if checked.Err? { return Some(ErrOther), cleanedKeys, cleaned; }
    cleanedKeys := checked.value;
    if |cleanedKeys| > MAX_KEYS { return Some(ErrOther), cleanedKeys, cleaned; }
    if |cleanedKeys| > 0 && TrimSpace(folderCode) == "" { return Some(ErrOther), cleanedKeys, cleaned; }
    cleaned := CleanEnvs(envList);
    if |cleaned| == 0 || |cleaned| > MAX_ENVS { return Some(ErrOther), cleanedKeys, cleaned; }
    return None, cleanedKeys, cleaned;
  }

  /** The response a grouping gives. */
  ghost predicate AnswersWith(response: Response, groups: map<GroupKey, GroupState>, rows: seq<Row>, keys: seq<string>,
                              envs: seq<string>, open: Opener)
  {
    Grouped(groups, Order(rows), rows, envs, open) &&
    var hits := HitItems(Order(rows), groups);
    && response.items == hits + Placeholders(Missing(keys, HitKeys(Order(rows))), ProjectCodeOf(rows), envs)
    && response.audited == if rows == [] then None else Some(Hits(hits))
  }

  ghost predicate Answers(response: Response, rows: seq<Row>, keys: seq<string>, envs: seq<string>, open: Opener) {
    exists groups :: AnswersWith(response, groups, rows, keys, envs, open)
  }

  method TotalHits(order: seq<GroupKey>, groups: map<GroupKey, GroupState>) returns (items: seq<AcrossEnvs>, total: nat)
    requires forall k :: 0 <= k < |order| ==> order[k] in groups
    ensures items == HitItems(order, groups) && total == Hits(items)
  {
    items, total := [], 0;
    for i := 0 to |order|
      invariant |items| == i && forall k :: 0 <= k < i ==> items[k] == ItemOf(order[k], groups[order[k]])
      invariant total == Hits(items)
    {
      var n := CountPresent(groups[order[i]].envs);
      var item := ItemOf(order[i], groups[order[i]]);
      assert (items + [item])[..i] == items;
      items := items + [item];
      total := total + n;
    }
  }

  method AddMissing(keys: seq<string>, order: seq<GroupKey>, projectCode: string, envs: seq<string>)
    returns (items: seq<AcrossEnvs>)
    ensures items == Placeholders(Missing(keys, HitKeys(order)), projectCode, envs)
  {
    var hitKeys := HitKeys(order);
    items := [];
    for i := 0 to |keys|
      invariant items == Placeholders(Missing(keys[..i], hitKeys), projectCode, envs)
    {
      assert keys[..i + 1][..i] == keys[..i];
      if keys[i] in hitKeys { continue; }
      var blank := BlankEnvs(envs);
      items := items + [AcrossEnvs(projectCode, keys[i], "", blank)];
    }
    assert keys[..|keys|] == keys;
  }

  /** `visible` are the project's secrets the caller may read, in query order; `record` is the answer of writing
      the audit record, which happens only when something was found. */
  method ListAcrossEnvs(userId: string, projectId: string, folderCode: string, keys: seq<string>, envList: seq<string>,
                        visible: seq<Row>, open: Opener, record: Result<()>)
    returns (r: Result<Response>)
    ensures var refusal := Refusal(userId, projectId, folderCode, keys, envList);
            var rows := Select(visible, TrimSpace(folderCode), Cleaned(keys), Cleaned(envList));
            && (refusal.Some? ==> r == Err(refusal.value))
            && (refusal.None? ==>
                 && (r.Ok? <==> AllOpen(rows, open) && (rows != [] ==> record.Ok?))
                 && (r.Ok? ==> Answers(r.value, rows, Cleaned(keys), Cleaned(envList), open))
                 && (r.Err? && AllOpen(rows, open) ==> r.error == record.error))
  {
    var refused, cleanedKeys, cleaned := Validate(userId, projectId, folderCode, keys, envList);
    if refused.Some? { return Err(refused.value); }
    var rows := Select(visible, TrimSpace(folderCode), cleanedKeys, cleaned);
    var done, groups, order, projectCode := Group(rows, cleaned, open);
    if done.Err? { return Err(done.error); }
    OrderEmpty(rows);
    var items, total := TotalHits(order, groups);
    var audited: Option<nat> := None;
    if |order| > 0 {
      if record.Err? { return Err(record.error); }
      audited := Some(total);
    }
    var rest := AddMissing(cleanedKeys, order, projectCode, cleaned);
    var response := Response(items + rest, audited);
    assert AnswersWith(response, groups, rows, cleanedKeys, cleaned, open);
    return Ok(response);
  }

  lemma {:induction false} OrderEmpty(rows: seq<Row>)
    ensures Order(rows) == [] <==> rows == []
  {
    if rows != [] {
      OrderMeans(rows, KeyOf(rows[|rows| - 1]));
    }
  }

  // ---- what the answer shows of the rows ----

  /** The row is asked for: its environment is, and either its key and folder are, or no key is and its folder is or no
      folder is. */
  ghost predicate Asked(row: Row, folderCode: string, keys: seq<string>, envs: seq<string>) {
    && row.envCode in envs
    && (keys != [] ==> row.folderCode == folderCode && row.key in keys)
    && (keys == [] && folderCode != "" ==> row.folderCode == folderCode)
  }

  /** The value shows the row. */
  ghost predicate ShowsRow(v: EnvValue, row: Row, open: Opener) {
    && v.folderId == row.folderId && Ok(v.value) == open(row.payload) && v.version == row.version
    && v.comment == row.comment && v.id == row.secretId && v.sortOrder == row.sortOrder
  }

  /** The element is for the row's key, with the project code and comment of the first row asked for of its folder and
      key. */
  ghost predicate HeadedBy(item: AcrossEnvs, first: Row) {
    item.key == first.key && item.projectCode == first.projectCode && item.comment == first.comment
  }

  lemma {:induction false} AskedIsSelected(row: Row, folderCode: string, keys: seq<string>, envs: seq<string>)
    ensures Selects(row, folderCode, keys, envs) <==> Asked(row, folderCode, keys, envs)
  {
  }

  // ---- what the answer means ----

  /** The last row of a group in an environment. */
  function LastRow(rows: seq<Row>, gk: GroupKey, env: string): Option<Row> {
    if rows == [] then None
    else
      var last := rows[|rows| - 1];
      if KeyOf(last) == gk && last.envCode == env then Some(last) else LastRow(rows[..|rows| - 1], gk, env)
  }

  lemma {:induction false} LastRowMeans(rows: seq<Row>, gk: GroupKey, env: string) returns (j: int)
    ensures LastRow(rows, gk, env).Some? <==> 0 <= j < |rows|
    ensures j < |rows| && (0 <= j ==> LastRow(rows, gk, env) == Some(rows[j]) && KeyOf(rows[j]) == gk && rows[j].envCode == env)
    ensures forall k :: 0 <= k < |rows| && j < k ==> !(KeyOf(rows[k]) == gk && rows[k].envCode == env)
  {
    if rows == [] {
      j := -1;
    } else if KeyOf(rows[|rows| - 1]) == gk && rows[|rows| - 1].envCode == env {
      j := |rows| - 1;
    } else {
      j := LastRowMeans(rows[..|rows| - 1], gk, env);
    }
  }

  /** The last of a group's own rows in an environment. */
  function LastIn(own: seq<Row>, env: string): Option<Row> {
    if own == [] then None
    else if own[|own| - 1].envCode == env then Some(own[|own| - 1]) else LastIn(own[..|own| - 1], env)
  }

  lemma {:induction false} LastInIsLastRow(rows: seq<Row>, gk: GroupKey, env: string)
    ensures LastIn(RowsOf(rows, gk), env) == LastRow(rows, gk, env)
  {
    if rows != [] {
      var before, last := rows[..|rows| - 1], rows[|rows| - 1];
      LastInIsLastRow(before, gk, env);
      if KeyOf(last) == gk { assert (RowsOf(before, gk) + [last])[..|RowsOf(before, gk)|] == RowsOf(before, gk); }
    }
  }

  /** A group's places: the asked environments, each holding its last row's value. */
  lemma {:induction false} FilledMeans(envs: seq<string>, own: seq<Row>, open: Opener, e: string)
    requires AllOpen(own, open) && forall k :: 0 <= k < |own| ==> own[k].envCode in envs
    ensures e in Filled(envs, own, open) <==> e in envs
    ensures e in envs ==> Filled(envs, own, open)[e] == Shown(LastIn(own, e), open)
  {
    if own != [] { FilledMeans(envs, own[..|own| - 1], open, e); }
  }

  /** The value shown for a row, if there is one. */
  function Shown(row: Option<Row>, open: Opener): Option<EnvValue> {
    if row.Some? && open(row.value.payload).Ok? then Some(ValueOf(row.value, open)) else None
  }

  /** An element shows group gk of the rows, with a place for every asked environment. */
  ghost predicate ShowsGroup(item: AcrossEnvs, rows: seq<Row>, gk: GroupKey, envs: seq<string>, open: Opener) {
    && item.key == gk.key
    && (forall e :: e in item.envs <==> e in envs)
    && forall e :: e in envs ==> item.envs[e] == Shown(LastRow(rows, gk, e), open)
  }

  ghost predicate ShowsNothing(item: AcrossEnvs, key: string, envs: seq<string>) {
    item.key == key && (forall e :: e in item.envs <==> e in envs) && forall e :: e in envs ==> item.envs[e] == None
  }

  lemma {:induction false} BlankShowsNothing(key: string, projectCode: string, envs: seq<string>)
    ensures ShowsNothing(AcrossEnvs(projectCode, key, "", Blank(envs)), key, envs)
    ensures Present(Blank(envs)) == 0
  {
    assert (set e | e in Blank(envs) && Blank(envs)[e].Some?) == {};
  }

  lemma {:induction false} GroupShown(groups: map<GroupKey, GroupState>, rows: seq<Row>, gk: GroupKey,
                                      envs: seq<string>, open: Opener)
    requires AllOpen(rows, open) && Grouped(groups, Order(rows), rows, envs, open) && gk in groups
    requires forall k :: 0 <= k < |rows| ==> rows[k].envCode in envs
    ensures ShowsGroup(ItemOf(gk, groups[gk]), rows, gk, envs, open)
  {
    OwnOpen(rows, gk, open);
    forall k | 0 <= k < |RowsOf(rows, gk)|
      ensures RowsOf(rows, gk)[k].envCode in envs
    {
      RowsOfMeans(rows, gk, RowsOf(rows, gk)[k]);
    }
    forall e
      ensures e in groups[gk].envs <==> e in envs
      ensures e in envs ==> groups[gk].envs[e] == Shown(LastRow(rows, gk, e), open)
    {
      FilledMeans(envs, RowsOf(rows, gk), open, e);
      LastInIsLastRow(rows, gk, e);
    }
  }

  ghost predicate ShowsAll(items: seq<AcrossEnvs>, rows: seq<Row>, order: seq<GroupKey>, missing: seq<string>,
                           envs: seq<string>, open: Opener)
  {
    && |items| == |order| + |missing|
    && (forall k :: 0 <= k < |order| ==> ShowsGroup(items[k], rows, order[k], envs, open))
    && (forall k :: 0 <= k < |missing| ==> ShowsNothing(items[|order| + k], missing[k], envs))
  }

  lemma {:induction false} HitsShow(groups: map<GroupKey, GroupState>, rows: seq<Row>, order: seq<GroupKey>,
                                    envs: seq<string>, open: Opener, k: nat)
    requires AllOpen(rows, open) && Grouped(groups, order, rows, envs, open) && k < |order|
    requires forall k :: 0 <= k < |rows| ==> rows[k].envCode in envs
    ensures ShowsGroup(HitItems(order, groups)[k], rows, order[k], envs, open)
  {
    assert order[k] in groups;
    GroupShown(groups, rows, order[k], envs, open);
  }

  lemma {:induction false} RestShows(missing: seq<string>, projectCode: string, envs: seq<string>, k: nat)
    requires k < |missing|
    ensures ShowsNothing(Placeholders(missing, projectCode, envs)[k], missing[k], envs)
  {
    BlankShowsNothing(missing[k], projectCode, envs);
  }

  lemma {:induction false} JoinedShow(hits: seq<AcrossEnvs>, rest: seq<AcrossEnvs>, rows: seq<Row>,
                                      order: seq<GroupKey>,
                                      missing: seq<string>, envs: seq<string>, open: Opener)
    requires |hits| == |order| && |rest| == |missing|
    requires forall k :: 0 <= k < |order| ==> ShowsGroup(hits[k], rows, order[k], envs, open)
    requires forall k :: 0 <= k < |missing| ==> ShowsNothing(rest[k], missing[k], envs)
    ensures ShowsAll(hits + rest, rows, order, missing, envs, open)
  {
    forall k | 0 <= k < |missing|
      ensures ShowsNothing((hits + rest)[|order| + k], missing[k], envs)
    {
      assert (hits + rest)[|order| + k] == rest[k];
    }
  }

  lemma {:induction false} AnswersShow(response: Response, groups: map<GroupKey, GroupState>, rows: seq<Row>,
                                       keys: seq<string>, envs: seq<string>, open: Opener)
    requires AllOpen(rows, open) && AnswersWith(response, groups, rows, keys, envs, open)
    requires forall k :: 0 <= k < |rows| ==> rows[k].envCode in envs
    ensures ShowsAll(response.items, rows, Order(rows), Missing(keys, HitKeys(Order(rows))), envs, open)
  {
    var order, missing := Order(rows), Missing(keys, HitKeys(Order(rows)));
    var hits, rest := HitItems(order, groups), Placeholders(missing, ProjectCodeOf(rows), envs);
    forall k | 0 <= k < |order|
      ensures ShowsGroup(hits[k], rows, order[k], envs, open)
    {
      HitsShow(groups, rows, order, envs, open, k);
    }
    forall k | 0 <= k < |missing|
      ensures ShowsNothing(rest[k], missing[k], envs)
    {
      RestShows(missing, ProjectCodeOf(rows), envs, k);
    }
    JoinedShow(hits, rest, rows, order, missing, envs, open);
  }

  /** The elements: one per group in order of first row, then one placeholder per missing key in request order;
      every element has exactly the asked environments, and a value exactly where the rows have one, the last
      row's. */
  lemma {:induction false} AnswerShows(response: Response, rows: seq<Row>, keys: seq<string>, envs: seq<string>,
                                       open: Opener)
    requires AllOpen(rows, open) && Answers(response, rows, keys, envs, open)
    requires forall k :: 0 <= k < |rows| ==> rows[k].envCode in envs
    ensures ShowsAll(response.items, rows, Order(rows), Missing(keys, HitKeys(Order(rows))), envs, open)
  {
    var groups :| AnswersWith(response, groups, rows, keys, envs, open);
    AnswersShow(response, groups, rows, keys, envs, open);
  }

  lemma {:induction false} MissingMeans(keys: seq<string>, hit: set<string>, v: string)
    ensures v in Missing(keys, hit) <==> v in keys && v !in hit
    ensures (forall i, j :: 0 <= i < j < |keys| ==> keys[i] != keys[j]) ==>
            forall i, j :: 0 <= i < j < |Missing(keys, hit)| ==> Missing(keys, hit)[i] != Missing(keys, hit)[j]
  {
    if keys != [] {
      var before, last := keys[..|keys| - 1], keys[|keys| - 1];
      MissingMeans(before, hit, v);
      MissingMeans(before, hit, last);
      assert forall k :: 0 <= k < |before| ==> before[k] == keys[k];
      assert keys == before + [last];
    }
  }

  lemma {:induction false} OrderSelected(visible: seq<Row>, folderCode: string, keys: seq<string>, envs: seq<string>,
                                         gk: GroupKey)
    requires keys != [] && gk in Order(Select(visible, folderCode, keys, envs))
    ensures gk.folderCode == folderCode && gk.key in keys
  {
    var rows := Select(visible, folderCode, keys, envs);
    OrderMeans(rows, gk);
    var row := RowsOf(rows, gk)[0];
    RowsOfMeans(rows, gk, row);
    SelectMeans(visible, folderCode, keys, envs, row);
  }

  /** The keys of the elements: the groups' first, all of one folder and asked for, then the missing ones. */
  ghost predicate KeysFollow(items: seq<AcrossEnvs>, order: seq<GroupKey>, missing: seq<string>, folderCode: string,
                             keys: seq<string>)
  {
    && |items| == |order| + |missing|
    && (forall k :: 0 <= k < |order| ==>
         items[k].key == order[k].key && order[k].folderCode == folderCode && order[k].key in keys)
    && (forall k :: 0 <= k < |missing| ==> items[|order| + k].key == missing[k])
  }

  lemma {:induction false} ItemKeys(items: seq<AcrossEnvs>, rows: seq<Row>, order: seq<GroupKey>, missing: seq<string>,
                                    folderCode: string, keys: seq<string>, envs: seq<string>, open: Opener)
    requires ShowsAll(items, rows, order, missing, envs, open)
    requires forall k :: 0 <= k < |order| ==> order[k].folderCode == folderCode && order[k].key in keys
    ensures KeysFollow(items, order, missing, folderCode, keys)
  {
    forall k | 0 <= k < |order|
      ensures items[k].key == order[k].key
    {
      assert ShowsGroup(items[k], rows, order[k], envs, open);
    }
    forall k | 0 <= k < |missing|
      ensures items[|order| + k].key == missing[k]
    {
      assert ShowsNothing(items[|order| + k], missing[k], envs);
    }
  }

  lemma {:induction false} KeysDistinct(items: seq<AcrossEnvs>, order: seq<GroupKey>, missing: seq<string>,
                                        folderCode: string)
    requires |items| == |order| + |missing|
    requires forall k :: 0 <= k < |order| ==> items[k].key == order[k].key && order[k].folderCode == folderCode
    requires forall k :: 0 <= k < |missing| ==> items[|order| + k].key == missing[k] && missing[k] !in HitKeys(order)
    requires forall i, j :: 0 <= i < j < |order| ==> order[i] != order[j]
    requires forall i, j :: 0 <= i < j < |missing| ==> missing[i] != missing[j]
    ensures forall i, j :: 0 <= i < j < |items| ==> items[i].key != items[j].key
  {
    forall i, j | 0 <= i < j < |items|
      ensures items[i].key != items[j].key
    {
      if j < |order| {
        assert order[i] != order[j];
      } else {
        assert items[j].key == missing[j - |order|];
        if i < |order| {
          assert order[i].key in HitKeys(order);
        } else {
          assert items[i].key == missing[i - |order|];
        }
      }
    }
  }

  lemma {:induction false} SelectedKeys(response: Response, visible: seq<Row>, rows: seq<Row>, folderCode: string,
                                        keys: seq<string>, envs: seq<string>, open: Opener)
    requires keys != [] && rows == Select(visible, folderCode, keys, envs)
    requires AllOpen(rows, open) && Answers(response, rows, keys, envs, open)
    ensures KeysFollow(response.items, Order(rows), Missing(keys, HitKeys(Order(rows))), folderCode, keys)
  {
    forall k | 0 <= k < |rows|
      ensures rows[k].envCode in envs
    {
      SelectMeans(visible, folderCode, keys, envs, rows[k]);
    }
    AnswerShows(response, rows, keys, envs, open);
    var order := Order(rows);
    forall k | 0 <= k < |order|
      ensures order[k].folderCode == folderCode && order[k].key in keys
    {
      assert order[k] in order;
      OrderSelected(visible, folderCode, keys, envs, order[k]);
    }
    ItemKeys(response.items, rows, order, Missing(keys, HitKeys(order)), folderCode, keys, envs, open);
  }

  lemma {:induction false} KeysOnce(items: seq<AcrossEnvs>, order: seq<GroupKey>, missing: seq<string>,
                                    folderCode: string, keys: seq<string>)
    requires forall i, j :: 0 <= i < j < |keys| ==> keys[i] != keys[j]
    requires forall i, j :: 0 <= i < j < |order| ==> order[i] != order[j]
    requires missing == Missing(keys, HitKeys(order)) && KeysFollow(items, order, missing, folderCode, keys)
    ensures forall i, j :: 0 <= i < j < |items| ==> items[i].key != items[j].key
    ensures forall v :: v in keys <==> exists i :: 0 <= i < |items| && items[i].key == v
  {
    forall k | 0 <= k < |missing|
      ensures missing[k] !in HitKeys(order)
    {
      MissingMeans(keys, HitKeys(order), missing[k]);
    }
    MissingMeans(keys, HitKeys(order), "");
    KeysDistinct(items, order, missing, folderCode);
    forall v
      ensures v in keys <==> exists i :: 0 <= i < |items| && items[i].key == v
    {
      KeyShown(items, order, missing, keys, v);
    }
  }

  /** For a non-empty key list every asked key comes exactly once, and nothing else comes. */
  lemma {:induction false} EveryKeyOnce(response: Response, visible: seq<Row>, folderCode: string, keys: seq<string>,
                                        envs: seq<string>, open: Opener)
    requires keys != [] && forall i, j :: 0 <= i < j < |keys| ==> keys[i] != keys[j]
    requires AllOpen(Select(visible, folderCode, keys, envs), open)
    requires Answers(response, Select(visible, folderCode, keys, envs), keys, envs, open)
    ensures forall i, j :: 0 <= i < j < |response.items| ==> response.items[i].key != response.items[j].key
    ensures forall v :: v in keys <==> exists i :: 0 <= i < |response.items| && response.items[i].key == v
  {
    var rows := Select(visible, folderCode, keys, envs);
    SelectedKeys(response, visible, rows, folderCode, keys, envs, open);
    OrderMeans(rows, GroupKey("", ""));
    KeysOnce(response.items, Order(rows), Missing(keys, HitKeys(Order(rows))), folderCode, keys);
  }

  lemma {:induction false} KeyShown(items: seq<AcrossEnvs>, order: seq<GroupKey>, missing: seq<string>,
                                    keys: seq<string>, v: string)
    requires missing == Missing(keys, HitKeys(order)) && |items| == |order| + |missing|
    requires forall k :: 0 <= k < |order| ==> items[k].key == order[k].key && order[k].key in keys
    requires forall k :: 0 <= k < |missing| ==> items[|order| + k].key == missing[k]
    ensures v in keys <==> exists i :: 0 <= i < |items| && items[i].key == v
  {
    MissingMeans(keys, HitKeys(order), v);
    if v in HitKeys(order) {
      var k :| 0 <= k < |order| && order[k].key == v;
      assert items[k].key == v;
    } else if v in keys {
      var k :| 0 <= k < |missing| && missing[k] == v;
      assert items[|order| + k].key == v;
    }
    if i :| 0 <= i < |items| && items[i].key == v && i >= |order| {
      assert missing[i - |order|] == v;
    }
  }

  lemma {:induction false} HitsConcat(a: seq<AcrossEnvs>, b: seq<AcrossEnvs>)
    requires forall k :: 0 <= k < |b| ==> Present(b[k].envs) == 0
    ensures Hits(a + b) == Hits(a)
  {
    if b == [] {
      assert a + b == a;
    } else {
      HitsConcat(a, b[..|b| - 1]);
      assert (a + b)[..|a + b| - 1] == a + b[..|b| - 1];
    }
  }

  lemma {:induction false} AuditCounts(response: Response, groups: map<GroupKey, GroupState>, rows: seq<Row>,
                                       keys: seq<string>, envs: seq<string>, open: Opener)
    requires AnswersWith(response, groups, rows, keys, envs, open)
    ensures Hits(response.items) == if response.audited.Some? then response.audited.value else 0
    ensures response.audited.None? <==> rows == []
  {
    var hits := HitItems(Order(rows), groups);
    var missing := Missing(keys, HitKeys(Order(rows)));
    var rest := Placeholders(missing, ProjectCodeOf(rows), envs);
    forall k | 0 <= k < |rest|
      ensures Present(rest[k].envs) == 0
    {
      BlankShowsNothing(missing[k], ProjectCodeOf(rows), envs);
    }
    HitsConcat(hits, rest);
    OrderEmpty(rows);
    assert rows == [] ==> hits == [];
  }

  /** The audited hit count is the number of values in the response; without an audit there are none. */
  lemma {:induction false} AuditCountsValues(response: Response, rows: seq<Row>, keys: seq<string>, envs: seq<string>,
                                             open: Opener)
    requires Answers(response, rows, keys, envs, open)
    ensures Hits(response.items) == if response.audited.Some? then response.audited.value else 0
    ensures response.audited.None? <==> rows == []
  {
    var groups :| AnswersWith(response, groups, rows, keys, envs, open);
    AuditCounts(response, groups, rows, keys, envs, open);
  }

  // ---- every row asked for, and no other ----

  lemma {:induction false} ShownRow(rows: seq<Row>, gk: GroupKey, e: string, open: Opener)
    requires AllOpen(rows, open)
    ensures var v := Shown(LastRow(rows, gk, e), open);
            && (v.Some? <==> exists k :: 0 <= k < |rows| && KeyOf(rows[k]) == gk && rows[k].envCode == e)
            && (v.Some? ==> exists k :: 0 <= k < |rows| && KeyOf(rows[k]) == gk && rows[k].envCode == e
                                        && ShowsRow(v.value, rows[k], open)
                                        && forall j :: k < j < |rows| ==> !(KeyOf(rows[j]) == gk && rows[j].envCode == e))
  {
    var j := LastRowMeans(rows, gk, e);
    if 0 <= j {
      assert ShowsRow(Shown(LastRow(rows, gk, e), open).value, rows[j], open);
    }
  }

  /** The element's place for the row's environment shows the row. */
  ghost predicate ShownIn(item: AcrossEnvs, row: Row, open: Opener) {
    && item.key == row.key && row.envCode in item.envs && item.envs[row.envCode].Some?
    && ShowsRow(item.envs[row.envCode].value, row, open)
  }

  lemma {:induction false} PlaceShowsRow(items: seq<AcrossEnvs>, rows: seq<Row>, order: seq<GroupKey>,
                                         missing: seq<string>, envs: seq<string>, open: Opener, i: nat, e: string)
    requires AllOpen(rows, open) && ShowsAll(items, rows, order, missing, envs, open)
    requires i < |items| && e in items[i].envs && items[i].envs[e].Some?
    ensures exists k :: 0 <= k < |rows| && rows[k].envCode == e && ShownIn(items[i], rows[k], open)
  {
    if i < |order| {
      assert ShowsGroup(items[i], rows, order[i], envs, open);
      ShownRow(rows, order[i], e, open);
      var k :| 0 <= k < |rows| && KeyOf(rows[k]) == order[i] && rows[k].envCode == e
               && ShowsRow(items[i].envs[e].value, rows[k], open);
      assert ShownIn(items[i], rows[k], open);
    } else {
      PlaceholderEmpty(items, rows, order, missing, envs, open, i, e);
    }
  }

  lemma {:induction false} PlaceholderEmpty(items: seq<AcrossEnvs>, rows: seq<Row>, order: seq<GroupKey>,
                                            missing: seq<string>, envs: seq<string>, open: Opener, i: nat, e: string)
    requires ShowsAll(items, rows, order, missing, envs, open) && |order| <= i < |items| && e in items[i].envs
    ensures items[i].envs[e] == None
  {
    var k := i - |order|;
    assert ShowsNothing(items[|order| + k], missing[k], envs);
  }

  lemma {:induction false} RowHasPlace(items: seq<AcrossEnvs>, rows: seq<Row>, order: seq<GroupKey>,
                                       missing: seq<string>, envs: seq<string>, open: Opener, at: nat)
    requires AllOpen(rows, open) && ShowsAll(items, rows, order, missing, envs, open) && order == Order(rows)
    requires at < |rows| && rows[at].envCode in envs
    ensures exists i, k :: 0 <= i < |items| && 0 <= k < |rows| && KeyOf(rows[k]) == KeyOf(rows[at])
                           && rows[k].envCode == rows[at].envCode && ShownIn(items[i], rows[k], open)
  {
    var gk, e := KeyOf(rows[at]), rows[at].envCode;
    RowsOfMeans(rows, gk, rows[at]);
    OrderMeans(rows, gk);
    var i :| 0 <= i < |order| && order[i] == gk;
    assert ShowsGroup(items[i], rows, order[i], envs, open);
    ShownRow(rows, gk, e, open);
    var k :| 0 <= k < |rows| && KeyOf(rows[k]) == gk && rows[k].envCode == e
             && ShowsRow(items[i].envs[e].value, rows[k], open);
    assert ShownIn(items[i], rows[k], open);
  }

  lemma {:induction false} SelectedEnvs(visible: seq<Row>, folderCode: string, keys: seq<string>, envs: seq<string>)
    ensures var rows := Select(visible, folderCode, keys, envs);
            forall k :: 0 <= k < |rows| ==> rows[k].envCode in envs
  {
    var rows := Select(visible, folderCode, keys, envs);
    forall k | 0 <= k < |rows|
      ensures rows[k].envCode in envs
    {
      SelectMeans(visible, folderCode, keys, envs, rows[k]);
    }
  }

  lemma {:induction false} SelectedIsAsked(visible: seq<Row>, folderCode: string, keys: seq<string>, envs: seq<string>,
                                           row: Row)
    ensures row in Select(visible, folderCode, keys, envs) <==> row in visible && Asked(row, folderCode, keys, envs)
  {
    SelectMeans(visible, folderCode, keys, envs, row);
    AskedIsSelected(row, folderCode, keys, envs);
  }

  /** A value in the answer shows a visible row that was asked for, of the element's key and the value's environment. */
  lemma {:induction false} OnlyAskedRows(response: Response, visible: seq<Row>, rows: seq<Row>, folderCode: string,
                                         keys: seq<string>, envs: seq<string>, open: Opener, i: nat, e: string)
    requires rows == Select(visible, folderCode, keys, envs)
    requires AllOpen(rows, open) && Answers(response, rows, keys, envs, open)
    requires i < |response.items| && e in response.items[i].envs && response.items[i].envs[e].Some?
    ensures exists row :: row in visible && Asked(row, folderCode, keys, envs) && row.envCode == e
                          && ShownIn(response.items[i], row, open)
  {
    SelectedEnvs(visible, folderCode, keys, envs);
    AnswerShows(response, rows, keys, envs, open);
    PlaceShowsRow(response.items, rows, Order(rows), Missing(keys, HitKeys(Order(rows))), envs, open, i, e);
    var k :| 0 <= k < |rows| && rows[k].envCode == e && ShownIn(response.items[i], rows[k], open);
    SelectedIsAsked(visible, folderCode, keys, envs, rows[k]);
  }

  /** Every visible row asked for has its place in the answer filled, by itself or by another one asked for of the same
      folder, key and environment. With neither keys nor folder code that is every visible row of the environments. */
  lemma {:induction false} EveryAskedRow(response: Response, visible: seq<Row>, rows: seq<Row>, folderCode: string,
                                         keys: seq<string>, envs: seq<string>, open: Opener, row: Row)
    requires rows == Select(visible, folderCode, keys, envs)
    requires AllOpen(rows, open) && Answers(response, rows, keys, envs, open)
    requires row in visible && Asked(row, folderCode, keys, envs)
    ensures exists i, shown :: && 0 <= i < |response.items| && ShownIn(response.items[i], shown, open)
                               && shown in visible && Asked(shown, folderCode, keys, envs)
                               && shown.folderCode == row.folderCode && shown.key == row.key && shown.envCode == row.envCode
  {
    SelectedEnvs(visible, folderCode, keys, envs);
    AnswerShows(response, rows, keys, envs, open);
    SelectedIsAsked(visible, folderCode, keys, envs, row);
    var at :| 0 <= at < |rows| && rows[at] == row;
    RowHasPlace(response.items, rows, Order(rows), Missing(keys, HitKeys(Order(rows))), envs, open, at);
    var i, k :| 0 <= i < |response.items| && 0 <= k < |rows| && KeyOf(rows[k]) == KeyOf(row)
                && rows[k].envCode == row.envCode && ShownIn(response.items[i], rows[k], open);
    SelectedIsAsked(visible, folderCode, keys, envs, rows[k]);
  }

  /** The elements for groups carry the project code and comment of the first row of their folder and key; those for
      missing keys have no comment and the first project code met. */
  lemma {:induction false} ElementsHeaded(response: Response, rows: seq<Row>, keys: seq<string>, envs: seq<string>,
                                          open: Opener, i: nat)
    requires Answers(response, rows, keys, envs, open) && i < |response.items|
    ensures i < |Order(rows)| ==>
            exists k :: 0 <= k < |rows| && KeyOf(rows[k]) == Order(rows)[i] && HeadedBy(response.items[i], rows[k])
                        && forall j :: 0 <= j < k ==> KeyOf(rows[j]) != Order(rows)[i]
    ensures i >= |Order(rows)| ==> response.items[i].comment == "" && response.items[i].projectCode == ProjectCodeOf(rows)
  {
    var groups :| AnswersWith(response, groups, rows, keys, envs, open);
    if i < |Order(rows)| {
      var gk := Order(rows)[i];
      OrderMeans(rows, gk);
      assert gk in Order(rows) && IsState(groups[gk], RowsOf(rows, gk), envs, open);
      var k := FirstOf(rows, gk);
      assert HeadedBy(response.items[i], rows[k]);
    }
  }

  lemma {:induction false} FirstOf(rows: seq<Row>, gk: GroupKey) returns (k: nat)
    requires RowsOf(rows, gk) != []
    ensures k < |rows| && KeyOf(rows[k]) == gk && rows[k] == RowsOf(rows, gk)[0]
    ensures forall j :: 0 <= j < k ==> KeyOf(rows[j]) != gk
  {
    var before := rows[..|rows| - 1];
    if RowsOf(before, gk) != [] {
      k := FirstOf(before, gk);
    } else {
      k := |rows| - 1;
      forall j | 0 <= j < k
        ensures KeyOf(rows[j]) != gk
      {
        RowsOfMeans(before, gk, rows[j]);
        assert before[j] == rows[j];
      }
    }
  }

  lemma {:induction false} ProjectCodeMeans(rows: seq<Row>)
    ensures ProjectCodeOf(rows) == "" <==> forall k :: 0 <= k < |rows| ==> rows[k].projectCode == ""
    ensures ProjectCodeOf(rows) != "" ==>
            exists k :: 0 <= k < |rows| && rows[k].projectCode == ProjectCodeOf(rows)
                        && forall j :: 0 <= j < k ==> rows[j].projectCode == ""
  {
    if rows != [] {
      var before := rows[..|rows| - 1];
      ProjectCodeMeans(before);
      assert forall k :: 0 <= k < |before| ==> before[k] == rows[k];
      if ProjectCodeOf(before) != "" {
        var k :| 0 <= k < |before| && before[k].projectCode == ProjectCodeOf(before)
                 && forall j :: 0 <= j < k ==> before[j].projectCode == "";
        assert rows[k].projectCode == ProjectCodeOf(rows);
      } else if ProjectCodeOf(rows) != "" {
        assert rows[|rows| - 1].projectCode == ProjectCodeOf(rows);
      }
    }
  }

  lemma {:induction false} OrderIsFirst(rows: seq<Row>, i: nat, j: nat, b: nat)
    requires i < j < |Order(rows)| && b < |rows| && KeyOf(rows[b]) == Order(rows)[j]
    ensures exists a :: 0 <= a < b && KeyOf(rows[a]) == Order(rows)[i]
  {
    var before := rows[..|rows| - 1];
    OrderMeans(before, KeyOf(rows[|rows| - 1]));
    OrderMeans(before, Order(rows)[i]);
    RowsOfMeans(before, KeyOf(rows[b]), rows[b]);
    OrderMeans(before, KeyOf(rows[b]));
    assert b < |before| ==> before[b] == rows[b];
    if i < |Order(before)| {
      assert Order(before)[i] in Order(before);
      if b < |before| && j < |Order(before)| {
        OrderIsFirst(before, i, j, b);
        var a :| 0 <= a < b && KeyOf(before[a]) == Order(before)[i];
        assert KeyOf(rows[a]) == Order(rows)[i];
      } else {
        if b < |before| { assert false; }
        var row := RowsOf(before, Order(rows)[i])[0];
        RowsOfMeans(before, Order(rows)[i], row);
        var a :| 0 <= a < |before| && before[a] == row;
        assert KeyOf(rows[a]) == Order(rows)[i];
      }
    }
  }
}
