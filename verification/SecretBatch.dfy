/** Batch create and batch update of secrets: internal/service/secret_service.go over the transactions of
    internal/store/postgres/repository.go. */
module SecretBatch {
  import opened Wrappers
  import opened Text
  import opened Tables
  import opened Resources
  import Reveal = AcrossEnvs

  datatype NewSecret = NewSecret(folderId: Id, key: string, comment: string, ciphertext: string)

  datatype Change = Change(id: Id, key: string, comment: string, ciphertext: string)

  // ---- the transactions ----

  function RowFor(item: NewSecret): SecretRow {
    SecretRow(item.folderId, item.key, item.ciphertext, item.comment, 1, false)
  }

  /** The folder's environment is read for the audit; a missing folder or environment row ends the batch. */
  predicate EnvCodeKnown(t: Tables, folderId: Id) {
    folderId in t.folders && t.folders[folderId].environmentId in t.environments
  }

  function InsertOne(t: Tables, item: NewSecret, id: Id): Result<Tables> {
    match InsertSecret(t, id, RowFor(item))
    case Err(e) => Err(e)
    case Ok(t1) => if EnvCodeKnown(t1, item.folderId) then Ok(t1) else Err(ErrOther)
  }

  /** One insert per item, in order, under the ids drawn beforehand. */
  function Inserted(t: Tables, items: seq<NewSecret>, ids: seq<Id>): Result<Tables>
    requires |ids| == |items|
  {
    if items == [] then Ok(t)
    else
      match Inserted(t, items[..|items| - 1], ids[..|items| - 1])
      case Err(e) => Err(e)
      case Ok(t1) => InsertOne(t1, items[|items| - 1], ids[|items| - 1])
  }

  /** The first folder id that is not empty. */
  function TemplateFolder(items: seq<NewSecret>): Id {
    if items == [] then ""
    else
      var before := TemplateFolder(items[..|items| - 1]);
      if before == "" then items[|items| - 1].folderId else before
  }

  function BatchCreated(t: Tables, items: seq<NewSecret>, ids: seq<Id>): Result<Tables>
    requires |ids| == |items|
  {
    if items == [] then Ok(t)
    else
      match Inserted(t, items, ids)
      case Err(e) => Err(e)
      case Ok(t1) => Ok(Audited(t1, "folder", TemplateFolder(items), "create_batch"))
  }

  function Changed(row: SecretRow, c: Change): SecretRow {
    row.(key := c.key, ciphertext := c.ciphertext, comment := c.comment, version := row.version + 1)
  }

  /** One update. The unique index is checked at once, against the rows as they stand. */
  function UpdateOne(t: Tables, c: Change): Result<Tables> {
    if !ActiveSecret(t, c.id) then Err(ErrNotFound)
    else
      var row := Changed(t.secrets[c.id], c);
      if exists k :: k in t.secrets && k != c.id && !t.secrets[k].isDeleted && SameKey(t.secrets[k], row) then Err(ErrConflict)
      else Ok(Audited(t.(secrets := t.secrets[c.id := row]), "secret", c.id, "update"))
  }

  function Updated(t: Tables, items: seq<Change>): Result<Tables> {
    if items == [] then Ok(t)
    else
      match Updated(t, items[..|items| - 1])
      case Err(e) => Err(e)
      case Ok(t1) => UpdateOne(t1, items[|items| - 1])
  }

  function BatchUpdated(t: Tables, items: seq<Change>): Result<Tables> {
    if items == [] then Ok(t)
    else
      match Updated(t, items)
      case Err(e) => Err(e)
      case Ok(t1) => Ok(Audited(t1, "secret", items[0].id, "update_batch"))
  }

  /** GetSecret joins the rows above, deleted or not. */
  predicate Readable(t: Tables, id: Id) {
    && ActiveSecret(t, id) && EnvCodeKnown(t, t.secrets[id].folderId)
    && var p := t.environments[t.folders[t.secrets[id].folderId].environmentId].projectId;
       p in t.projects && t.projects[p].orgId in t.orgs
  }

  function Rows(t: Tables, ids: seq<Id>): (rows: seq<SecretRow>)
    requires forall k :: 0 <= k < |ids| ==> ids[k] in t.secrets
    ensures |rows| == |ids| && forall k :: 0 <= k < |ids| ==> rows[k] == t.secrets[ids[k]]
  {
    seq(|ids|, k requires 0 <= k < |ids| && ids[k] in t.secrets => t.secrets[ids[k]])
  }

  /** The reads after the commit, in the order of the ids. */
  function ReadBack(t: Tables, ids: seq<Id>): Result<seq<SecretRow>> {
    if exists k :: 0 <= k < |ids| && !Readable(t, ids[k]) then Err(ErrNotFound) else Ok(Rows(t, ids))
  }

  function ChangeIds(items: seq<Change>): (ids: seq<Id>)
    ensures |ids| == |items| && forall k :: 0 <= k < |items| ==> ids[k] == items[k].id
  {
    seq(|items|, k requires 0 <= k < |items| => items[k].id)
  }

  class Repository {
    var tables: Tables

    method GetSecrets(ids: seq<Id>) returns (r: Result<seq<SecretRow>>)
      ensures r == ReadBack(tables, ids)
    {
      var out: seq<SecretRow> := [];
      for k := 0 to |ids|
        invariant |out| == k && forall j :: 0 <= j < k ==> Readable(tables, ids[j]) && out[j] == tables.secrets[ids[j]]
      {
        if !Readable(tables, ids[k]) { return Err(ErrNotFound); }
        out := out + [tables.secrets[ids[k]]];
      }
      assert out == Rows(tables, ids);
      return Ok(out);
    }

    /** Returning before `tables` is assigned is the rollback. */
    method BatchCreateSecrets(items: seq<NewSecret>, ids: seq<Id>) returns (r: Result<seq<SecretRow>>)
      requires |ids| == |items|
      modifies this
      ensures match BatchCreated(old(tables), items, ids)
              case Err(e) => r == Err(e) && tables == old(tables)
              case Ok(t) => tables == t && r == ReadBack(t, ids)
    {
      if items == [] {
        assert Rows(tables, ids) == [];
        return Ok([]);
      }
      var tx, template := tables, "";
      for k := 0 to |items|
        invariant tables == old(tables) && Inserted(tables, items[..k], ids[..k]) == Ok(tx)
        invariant template == TemplateFolder(items[..k])
      {
        assert items[..k + 1][..k] == items[..k] && ids[..k + 1][..k] == ids[..k];
        var inserted := InsertOne(tx, items[k], ids[k]);
        if inserted.Err? {
          InsertFailsEarly(tables, items, ids, k + 1);
          return Err(inserted.error);
        }
        tx := inserted.value;
        if template == "" { template := items[k].folderId; }
      }
      assert items[..|items|] == items && ids[..|items|] == ids;
      tables := Audited(tx, "folder", template, "create_batch");
      r := GetSecrets(ids);
    }

    method BatchUpdateSecrets(items: seq<Change>) returns (r: Result<seq<SecretRow>>)
      modifies this
      ensures match BatchUpdated(old(tables), items)
              case Err(e) => r == Err(e) && tables == old(tables)
              case Ok(t) => tables == t && r == ReadBack(t, ChangeIds(items))
    {
      if items == [] {
        assert Rows(tables, ChangeIds(items)) == [];
        return Ok([]);
      }
      var tx, ids := tables, [];
      for k := 0 to |items|
        invariant tables == old(tables) && Updated(tables, items[..k]) == Ok(tx)
        invariant ids == ChangeIds(items[..k])
      {
        assert items[..k + 1][..k] == items[..k];
        var updated := UpdateOne(tx, items[k]);
        if updated.Err? {
          UpdateFailsEarly(tables, items, k + 1);
          return Err(updated.error);
        }
        tx := updated.value;
        ids := ids + [items[k].id];
      }
      assert items[..|items|] == items;
      tables := Audited(tx, "secret", ids[0], "update_batch");
      r := GetSecrets(ids);
    }
  }

  lemma {:induction false} InsertFailsEarly(t: Tables, items: seq<NewSecret>, ids: seq<Id>, k: nat)
    requires |ids| == |items| && k <= |items| && Inserted(t, items[..k], ids[..k]).Err?
    ensures Inserted(t, items, ids) == Inserted(t, items[..k], ids[..k])
  {
    if k < |items| {
      var n := |items| - 1;
      assert items[..n][..k] == items[..k] && ids[..n][..k] == ids[..k];
      InsertFailsEarly(t, items[..n], ids[..n], k);
    } else {
      assert items[..k] == items && ids[..k] == ids;
    }
  }

  lemma {:induction false} UpdateFailsEarly(t: Tables, items: seq<Change>, k: nat)
    requires k <= |items| && Updated(t, items[..k]).Err?
    ensures Updated(t, items) == Updated(t, items[..k])
  {
    if k < |items| {
      assert items[..|items| - 1][..k] == items[..k];
      UpdateFailsEarly(t, items[..|items| - 1], k);
    } else {
      assert items[..k] == items;
    }
  }

  // ---- what a batch create does ----

  ghost predicate OnlySecretsAndAudits(t: Tables, t': Tables) {
    t'.orgs == t.orgs && t'.projects == t.projects && t'.environments == t.environments && t'.folders == t.folders
  }

  /** Insert by insert: the tables above stay, the new ids are new and distinct from all rows so far. */
  lemma {:induction false} InsertedFrame(t: Tables, items: seq<NewSecret>, ids: seq<Id>)
    requires |ids| == |items| && Inserted(t, items, ids).Ok?
    ensures var t' := Inserted(t, items, ids).value;
            && OnlySecretsAndAudits(t, t') && t'.audits == t.audits
            && (forall s :: s in t'.secrets <==> s in t.secrets || s in ids)
            && (forall s :: s in t.secrets ==> s !in ids && t'.secrets[s] == t.secrets[s])
  {
    if items != [] {
      var n := |items| - 1;
      InsertedFrame(t, items[..n], ids[..n]);
      assert ids == ids[..n] + [ids[n]];
    }
  }

  lemma {:induction false} InsertedRows(t: Tables, items: seq<NewSecret>, ids: seq<Id>, k: nat)
    requires |ids| == |items| && Inserted(t, items, ids).Ok? && k < |items|
    ensures ids[k] in Inserted(t, items, ids).value.secrets
    ensures Inserted(t, items, ids).value.secrets[ids[k]] == RowFor(items[k])
  {
    var n := |items| - 1;
    if k < n {
      InsertedRows(t, items[..n], ids[..n], k);
    }
  }

  lemma {:induction false} InsertedUnique(t: Tables, items: seq<NewSecret>, ids: seq<Id>)
    requires |ids| == |items| && Inserted(t, items, ids).Ok? && UniqueKeys(t.secrets)
    ensures UniqueKeys(Inserted(t, items, ids).value.secrets)
  {
    if items != [] {
      var n := |items| - 1;
      InsertedUnique(t, items[..n], ids[..n]);
      InsertKeepsUnique(Inserted(t, items[..n], ids[..n]).value, ids[n], RowFor(items[n]));
    }
  }

  lemma {:induction false} InsertKeepsUnique(t: Tables, id: Id, row: SecretRow)
    requires UniqueKeys(t.secrets) && InsertSecret(t, id, row).Ok?
    ensures UniqueKeys(InsertSecret(t, id, row).value.secrets)
  {
  }

  /** A successful batch create adds exactly its rows, each as given and at version 1, reads them back in input
      order, keeps every other row and the unique keys, and writes one audit record. */
  lemma {:induction false} CreateExact(t: Tables, items: seq<NewSecret>, ids: seq<Id>)
    requires |ids| == |items| && items != [] && BatchCreated(t, items, ids).Ok?
    ensures var t' := BatchCreated(t, items, ids).value;
            && OnlySecretsAndAudits(t, t')
            && t'.audits == t.audits + [Audit("folder", TemplateFolder(items), "create_batch")]
            && (forall s :: s in t'.secrets <==> s in t.secrets || s in ids)
            && (forall s :: s in t.secrets ==> s !in ids && t'.secrets[s] == t.secrets[s])
            && (forall k :: 0 <= k < |items| ==> t'.secrets[ids[k]] == RowFor(items[k]))
            && (UniqueKeys(t.secrets) ==> UniqueKeys(t'.secrets))
            && (ReadBack(t', ids).Ok? ==>
                 |ReadBack(t', ids).value| == |items|
                 && forall k :: 0 <= k < |items| ==> ReadBack(t', ids).value[k] == RowFor(items[k]))
  {
    InsertedFrame(t, items, ids);
    forall k | 0 <= k < |items|
      ensures ids[k] in Inserted(t, items, ids).value.secrets
      ensures Inserted(t, items, ids).value.secrets[ids[k]] == RowFor(items[k])
    {
      InsertedRows(t, items, ids, k);
    }
    if UniqueKeys(t.secrets) { InsertedUnique(t, items, ids); }
  }

  /** The batch's k-th row can be inserted: its id is new, its folder and environment rows exist, and no active row and no
      earlier one of the batch has its folder and key. */
  ghost predicate ItemFits(t: Tables, items: seq<NewSecret>, ids: seq<Id>, k: nat)
    requires |ids| == |items| && k < |items|
  {
    && ids[k] !in t.secrets && (forall j :: 0 <= j < k ==> ids[j] != ids[k])
    && items[k].folderId in t.folders && t.folders[items[k].folderId].environmentId in t.environments
    && (forall s :: ActiveSecret(t, s) ==> !(t.secrets[s].folderId == items[k].folderId && t.secrets[s].key == items[k].key))
    && (forall j :: 0 <= j < k ==> !(items[j].folderId == items[k].folderId && items[j].key == items[k].key))
  }

  /** The rows there after the first n inserts. */
  lemma {:induction false} InsertedSoFar(t: Tables, items: seq<NewSecret>, ids: seq<Id>, n: nat, s: Id)
    requires |ids| == |items| && n <= |items| && Inserted(t, items[..n], ids[..n]).Ok?
    ensures var t1 := Inserted(t, items[..n], ids[..n]).value;
            && (s in t1.secrets <==> s in t.secrets || exists j :: 0 <= j < n && ids[j] == s)
            && (s in t.secrets ==> s in t1.secrets && t1.secrets[s] == t.secrets[s])
            && (forall j :: 0 <= j < n && ids[j] == s ==> s in t1.secrets && t1.secrets[s] == RowFor(items[j]))
  {
    InsertedFrame(t, items[..n], ids[..n]);
    forall j | 0 <= j < n && ids[j] == s
      ensures s in ids[..n] && s in Inserted(t, items[..n], ids[..n]).value.secrets
      ensures Inserted(t, items[..n], ids[..n]).value.secrets[s] == RowFor(items[j])
    {
      assert ids[..n][j] == s;
      InsertedRows(t, items[..n], ids[..n], j);
    }
  }

  lemma {:induction false} ConflictSoFar(t: Tables, items: seq<NewSecret>, ids: seq<Id>, n: nat)
    requires |ids| == |items| && n < |items| && Inserted(t, items[..n], ids[..n]).Ok?
    ensures var t1 := Inserted(t, items[..n], ids[..n]).value; var row := RowFor(items[n]);
            (exists s :: s in t1.secrets && !t1.secrets[s].isDeleted && SameKey(t1.secrets[s], row)) <==>
            || (exists s :: ActiveSecret(t, s) && SameKey(t.secrets[s], row))
            || (exists j :: 0 <= j < n && SameKey(RowFor(items[j]), row))
  {
    var t1, row := Inserted(t, items[..n], ids[..n]).value, RowFor(items[n]);
    if s :| s in t1.secrets && !t1.secrets[s].isDeleted && SameKey(t1.secrets[s], row) {
      InsertedSoFar(t, items, ids, n, s);
    }
    if s :| ActiveSecret(t, s) && SameKey(t.secrets[s], row) {
      InsertedSoFar(t, items, ids, n, s);
      assert s in t1.secrets && SameKey(t1.secrets[s], row);
    }
    if j :| 0 <= j < n && SameKey(RowFor(items[j]), row) {
      InsertedSoFar(t, items, ids, n, ids[j]);
      assert ids[j] in t1.secrets && SameKey(t1.secrets[ids[j]], row);
    }
  }

  lemma {:induction false} NextInsertFits(t: Tables, items: seq<NewSecret>, ids: seq<Id>, n: nat)
    requires |ids| == |items| && n < |items| && Inserted(t, items[..n], ids[..n]).Ok?
    ensures InsertOne(Inserted(t, items[..n], ids[..n]).value, items[n], ids[n]).Ok? <==> ItemFits(t, items, ids, n)
  {
    InsertedFrame(t, items[..n], ids[..n]);
    InsertedSoFar(t, items, ids, n, ids[n]);
    ConflictSoFar(t, items, ids, n);
  }

  lemma {:induction false} InsertedIffFits(t: Tables, items: seq<NewSecret>, ids: seq<Id>)
    requires |ids| == |items|
    ensures Inserted(t, items, ids).Ok? <==> forall k :: 0 <= k < |items| ==> ItemFits(t, items, ids, k)
  {
    if items != [] {
      var n := |items| - 1;
      InsertedIffFits(t, items[..n], ids[..n]);
      forall k | 0 <= k < n
        ensures ItemFits(t, items[..n], ids[..n], k) <==> ItemFits(t, items, ids, k)
      {
        assert items[..n][k] == items[k] && ids[..n][k] == ids[k];
        assert forall j :: 0 <= j < k ==> items[..n][j] == items[j] && ids[..n][j] == ids[j];
      }
      if Inserted(t, items[..n], ids[..n]).Ok? { NextInsertFits(t, items, ids, n); }
    }
  }

  /** A batch create commits if and only if every one of its rows fits. */
  lemma {:induction false} CreateCommitsIff(t: Tables, items: seq<NewSecret>, ids: seq<Id>)
    requires |ids| == |items|
    ensures BatchCreated(t, items, ids).Ok? <==> forall k :: 0 <= k < |items| ==> ItemFits(t, items, ids, k)
  {
    InsertedIffFits(t, items, ids);
  }

  // ---- what a batch update does ----

  function Occurrences(items: seq<Change>, id: Id): nat {
    if items == [] then 0
    else Occurrences(items[..|items| - 1], id) + (if items[|items| - 1].id == id then 1 else 0)
  }

  function LastChange(items: seq<Change>, id: Id): Option<Change> {
    if items == [] then None
    else if items[|items| - 1].id == id then Some(items[|items| - 1])
    else LastChange(items[..|items| - 1], id)
  }

  /** The row as the batch leaves it: the last change of it, at a version one higher per change. */
  function Final(row: SecretRow, items: seq<Change>, id: Id): SecretRow {
    match LastChange(items, id)
    case None => row
    case Some(c) => row.(key := c.key, ciphertext := c.ciphertext, comment := c.comment,
                         version := row.version + Occurrences(items, id))
  }

  lemma {:induction false} NoneNoOccurrence(items: seq<Change>, id: Id)
    ensures LastChange(items, id).None? <==> Occurrences(items, id) == 0
  {
    if items != [] { NoneNoOccurrence(items[..|items| - 1], id); }
  }

  lemma {:induction false} UpdateKeepsUnique(t: Tables, c: Change)
    requires UniqueKeys(t.secrets) && UpdateOne(t, c).Ok?
    ensures UniqueKeys(UpdateOne(t, c).value.secrets)
  {
  }

  lemma {:induction false} UpdatedFrame(t: Tables, items: seq<Change>)
    requires Updated(t, items).Ok?
    ensures var t' := Updated(t, items).value;
            && OnlySecretsAndAudits(t, t') && |t'.audits| == |t.audits| + |items| && t.audits <= t'.audits
            && t'.secrets.Keys == t.secrets.Keys
            && forall s :: s in t.secrets ==> t'.secrets[s].isDeleted == t.secrets[s].isDeleted
  {
    if items != [] { UpdatedFrame(t, items[..|items| - 1]); }
  }

  lemma {:induction false} UpdatedRow(t: Tables, items: seq<Change>, s: Id)
    requires Updated(t, items).Ok? && s in t.secrets
    ensures s in Updated(t, items).value.secrets && Updated(t, items).value.secrets[s] == Final(t.secrets[s], items, s)
  {
    if items != [] {
      UpdatedRow(t, items[..|items| - 1], s);
      NoneNoOccurrence(items[..|items| - 1], s);
    }
  }

  lemma {:induction false} UpdatedActive(t: Tables, items: seq<Change>, k: nat)
    requires Updated(t, items).Ok? && k < |items|
    ensures ActiveSecret(t, items[k].id)
  {
    var before := items[..|items| - 1];
    UpdatedFrame(t, before);
    if k < |before| { UpdatedActive(t, before, k); }
  }

  lemma {:induction false} UpdatedUnique(t: Tables, items: seq<Change>)
    requires Updated(t, items).Ok? && UniqueKeys(t.secrets)
    ensures UniqueKeys(Updated(t, items).value.secrets)
  {
    if items != [] {
      UpdatedUnique(t, items[..|items| - 1]);
      UpdateKeepsUnique(Updated(t, items[..|items| - 1]).value, items[|items| - 1]);
    }
  }

  /** One record per change in order, and one for the batch. */
  lemma {:induction false} UpdateAudits(t: Tables, items: seq<Change>, k: nat)
    requires items != [] && BatchUpdated(t, items).Ok?
    ensures var audits := BatchUpdated(t, items).value.audits;
            && |audits| == |t.audits| + |items| + 1 && t.audits <= audits
            && audits[|audits| - 1] == Audit("secret", items[0].id, "update_batch")
            && (k < |items| ==> audits[|t.audits| + k] == Audit("secret", items[k].id, "update"))
  {
    UpdatedAudits(t, items, k);
  }

  lemma {:induction false} UpdatedAudits(t: Tables, items: seq<Change>, k: nat)
    requires Updated(t, items).Ok?
    ensures var audits := Updated(t, items).value.audits;
            && |audits| == |t.audits| + |items| && t.audits <= audits
            && (k < |items| ==> audits[|t.audits| + k] == Audit("secret", items[k].id, "update"))
  {
    if items != [] { UpdatedAudits(t, items[..|items| - 1], k); }
  }

  /** A successful batch update changes exactly the named rows, each to its last change and its version by its
      number of occurrences, reads them back in input order, keeps the unique keys, and writes one audit record per
      change and one for the batch. */
  lemma {:induction false} UpdateExact(t: Tables, items: seq<Change>)
    requires items != [] && BatchUpdated(t, items).Ok?
    ensures var t' := BatchUpdated(t, items).value;
            && OnlySecretsAndAudits(t, t') && |t'.audits| == |t.audits| + |items| + 1 && t.audits <= t'.audits
            && t'.secrets.Keys == t.secrets.Keys
            && (forall s :: s in t.secrets ==> t'.secrets[s] == Final(t.secrets[s], items, s))
            && (UniqueKeys(t.secrets) ==> UniqueKeys(t'.secrets))
            && (ReadBack(t', ChangeIds(items)).Ok? ==>
                 |ReadBack(t', ChangeIds(items)).value| == |items|
                 && forall k :: 0 <= k < |items| ==>
                      items[k].id in t.secrets
                      && ReadBack(t', ChangeIds(items)).value[k] == Final(t.secrets[items[k].id], items, items[k].id))
  {
    UpdatedFrame(t, items);
    forall s | s in t.secrets
      ensures Updated(t, items).value.secrets[s] == Final(t.secrets[s], items, s)
    {
      UpdatedRow(t, items, s);
    }
    forall k | 0 <= k < |items|
      ensures items[k].id in t.secrets
    {
      UpdatedActive(t, items, k);
    }
    if UniqueKeys(t.secrets) { UpdatedUnique(t, items); }
  }

  // ---- when a batch update commits ----

  /** The key of secret s once `items` are applied, read off the tables before them. */
  function KeyAfter(t: Tables, items: seq<Change>, s: Id): string
    requires s in t.secrets
  {
    match LastChange(items, s)
    case None => t.secrets[s].key
    case Some(c) => c.key
  }

  /** After the changes before it, no other active row of the folder holds the key that change k gives. */
  ghost predicate KeyFree(t: Tables, items: seq<Change>, k: nat)
    requires k < |items| && ActiveSecret(t, items[k].id)
  {
    forall s :: ActiveSecret(t, s) && s != items[k].id && t.secrets[s].folderId == t.secrets[items[k].id].folderId ==>
      KeyAfter(t, items[..k], s) != items[k].key
  }

  ghost predicate ChangeFits(t: Tables, items: seq<Change>, k: nat)
    requires k < |items|
  {
    ActiveSecret(t, items[k].id) && KeyFree(t, items, k)
  }

  lemma {:induction false} NextFits(t: Tables, items: seq<Change>, k: nat)
    requires k < |items| && Updated(t, items[..k]).Ok?
    ensures UpdateOne(Updated(t, items[..k]).value, items[k]).Ok? <==> ChangeFits(t, items, k)
    ensures ActiveSecret(t, items[k].id) && !KeyFree(t, items, k) ==>
            UpdateOne(Updated(t, items[..k]).value, items[k]) == Err(ErrConflict)
  {
    var t1, c := Updated(t, items[..k]).value, items[k];
    UpdatedFrame(t, items[..k]);
    forall s | s in t.secrets
      ensures t1.secrets[s].folderId == t.secrets[s].folderId && t1.secrets[s].key == KeyAfter(t, items[..k], s)
      ensures ActiveSecret(t1, s) <==> ActiveSecret(t, s)
    {
      UpdatedRow(t, items[..k], s);
    }
  }

  lemma {:induction false} UpdatedIffFits(t: Tables, items: seq<Change>)
    ensures Updated(t, items).Ok? <==> forall k :: 0 <= k < |items| ==> ChangeFits(t, items, k)
  {
    if items != [] {
      var n := |items| - 1;
      UpdatedIffFits(t, items[..n]);
      forall k | 0 <= k < n
        ensures ChangeFits(t, items[..n], k) <==> ChangeFits(t, items, k)
      {
        assert items[..n][..k] == items[..k];
      }
      if Updated(t, items[..n]).Ok? { NextFits(t, items, n); }
    }
  }

  /** A batch update commits if and only if every row it names is active and, at its turn, no other active row of the
      folder holds the key it gives: the rows already changed count with their new keys, the rows still to change with
      their old ones. */
  lemma {:induction false} UpdateCommitsIff(t: Tables, items: seq<Change>)
    ensures BatchUpdated(t, items).Ok? <==> forall k :: 0 <= k < |items| ==> ChangeFits(t, items, k)
  {
    UpdatedIffFits(t, items);
  }

  /** So two secrets of a folder cannot swap their keys in one batch, though the keys would be unique in the end. */
  lemma {:induction false} SwapRefused(t: Tables, a: Id, b: Id, x: string, y: string)
    requires ActiveSecret(t, a) && ActiveSecret(t, b) && a != b && t.secrets[a].folderId == t.secrets[b].folderId
    ensures BatchUpdated(t, [Change(a, t.secrets[b].key, "", x), Change(b, t.secrets[a].key, "", y)]) == Err(ErrConflict)
  {
    var items := [Change(a, t.secrets[b].key, "", x), Change(b, t.secrets[a].key, "", y)];
    assert items[..1] == [items[0]] && items[..0] == [] && Updated(t, []) == Ok(t);
    assert KeyAfter(t, items[..0], b) == items[0].key;
    NextFits(t, items, 0);
    assert Updated(t, items[..1]) == UpdateOne(t, items[0]);
    UpdateFailsEarly(t, items, 1);
  }

  // ---- reading back, whatever was committed in between ----

  lemma {:induction false} ActiveReadable(t: Tables, later: Tables, s: Id)
    requires Anchored(t) && LinksKept(t, later) && s in t.secrets
    ensures Readable(later, s) <==> ActiveSecret(later, s)
  {
  }

  /** By the time a batch is read back other requests may have been committed. The read succeeds if and only if none of
      them deleted a row of the batch. */
  lemma {:induction false} ReadBackIff(t: Tables, later: Tables, ids: seq<Id>)
    requires Anchored(t) && LinksKept(t, later) && forall k :: 0 <= k < |ids| ==> ids[k] in t.secrets
    ensures ReadBack(later, ids).Ok? <==> forall k :: 0 <= k < |ids| ==> ActiveSecret(later, ids[k])
  {
    forall k | 0 <= k < |ids|
      ensures Readable(later, ids[k]) <==> ActiveSecret(later, ids[k])
    {
      ActiveReadable(t, later, ids[k]);
    }
  }

  lemma {:induction false} SecretsAnchor(t: Tables, t': Tables)
    requires Anchored(t) && OnlySecretsAndAudits(t, t')
    requires forall s :: s in t.secrets ==> s in t'.secrets && t'.secrets[s].folderId == t.secrets[s].folderId
    requires forall s :: s in t'.secrets && s !in t.secrets ==> t'.secrets[s].folderId in t.folders
    ensures Anchored(t') && LinksKept(t, t')
  {
  }

  lemma {:induction false} UpdateAnchors(t: Tables, items: seq<Change>)
    requires Anchored(t) && BatchUpdated(t, items).Ok?
    ensures Anchored(BatchUpdated(t, items).value) && LinksKept(t, BatchUpdated(t, items).value)
  {
    if items != [] {
      UpdatedFrame(t, items);
      forall s | s in t.secrets
        ensures Updated(t, items).value.secrets[s].folderId == t.secrets[s].folderId
      {
        UpdatedRow(t, items, s);
      }
      SecretsAnchor(t, BatchUpdated(t, items).value);
    } else {
      SecretsAnchor(t, t);
    }
  }

  lemma {:induction false} UpdateReadsBack(t: Tables, items: seq<Change>, later: Tables)
    requires Anchored(t) && BatchUpdated(t, items).Ok? && LinksKept(BatchUpdated(t, items).value, later)
    ensures ReadBack(later, ChangeIds(items)).Ok? <==> forall k :: 0 <= k < |items| ==> ActiveSecret(later, items[k].id)
  {
    var t' := BatchUpdated(t, items).value;
    UpdateAnchors(t, items);
    forall k | 0 <= k < |items|
      ensures items[k].id in t'.secrets
    {
      UpdatedActive(t, items, k);
    }
    ReadBackIff(t', later, ChangeIds(items));
  }

  lemma {:induction false} InsertedKnown(t: Tables, items: seq<NewSecret>, ids: seq<Id>, k: nat)
    requires |ids| == |items| && Inserted(t, items, ids).Ok? && k < |items|
    ensures EnvCodeKnown(t, items[k].folderId)
  {
    var n := |items| - 1;
    InsertedFrame(t, items[..n], ids[..n]);
    if k < n { InsertedKnown(t, items[..n], ids[..n], k); }
  }

  lemma {:induction false} CreatedAnchored(t: Tables, items: seq<NewSecret>, ids: seq<Id>, s: Id)
    requires items != [] && |ids| == |items| && BatchCreated(t, items, ids).Ok?
    requires s in BatchCreated(t, items, ids).value.secrets && s !in t.secrets
    ensures BatchCreated(t, items, ids).value.secrets[s].folderId in t.folders
  {
    CreateExact(t, items, ids);
    var k :| 0 <= k < |ids| && ids[k] == s;
    InsertedKnown(t, items, ids, k);
  }

  lemma {:induction false} CreateAnchors(t: Tables, items: seq<NewSecret>, ids: seq<Id>)
    requires Anchored(t) && |ids| == |items| && BatchCreated(t, items, ids).Ok?
    ensures Anchored(BatchCreated(t, items, ids).value) && LinksKept(t, BatchCreated(t, items, ids).value)
  {
    if items != [] {
      var t' := BatchCreated(t, items, ids).value;
      InsertedFrame(t, items, ids);
      forall s | s in t'.secrets && s !in t.secrets
        ensures t'.secrets[s].folderId in t'.folders
      {
        CreatedAnchored(t, items, ids, s);
      }
      SecretsAnchor(t, t');
    } else {
      SecretsAnchor(t, t);
    }
  }

  lemma {:induction false} CreateReadsBack(t: Tables, items: seq<NewSecret>, ids: seq<Id>, later: Tables)
    requires Anchored(t) && |ids| == |items| && BatchCreated(t, items, ids).Ok?
    requires LinksKept(BatchCreated(t, items, ids).value, later)
    ensures ReadBack(later, ids).Ok? <==> forall k :: 0 <= k < |ids| ==> ActiveSecret(later, ids[k])
  {
    CreateAnchors(t, items, ids);
    if items != [] {
      CreateExact(t, items, ids);
      assert forall k :: 0 <= k < |ids| ==> ids[k] in ids;
    }
    ReadBackIff(BatchCreated(t, items, ids).value, later, ids);
  }

  /** What a delete in between does: rows that were written, and an error when they are read back. */
  lemma {:induction false} DeletedBeforeReadBack(t: Tables, items: seq<NewSecret>, ids: seq<Id>, k: nat)
    requires Anchored(t) && |ids| == |items| && BatchCreated(t, items, ids).Ok? && k < |ids|
    ensures var committed := BatchCreated(t, items, ids).value;
            && DeleteSecret(committed, ids[k]).Ok?
            && var later := DeleteSecret(committed, ids[k]).value.tables;
               LinksKept(committed, later) && ReadBack(later, ids) == Err(ErrNotFound)
  {
    CreateExact(t, items, ids);
    assert ids[k] in ids;
  }

  // ---- the service ----

  datatype Target = Target(folderId: Id, value: string)

  datatype CreateItem = CreateItem(key: string, comment: string, envs: seq<Target>)

  datatype UpdateItem = UpdateItem(id: Id, key: string, comment: string, value: string)

  type Encryptor = string -> Result<string>

  /** Asked about secret:create on a folder, or secret:update on a secret. */
  type Authorizer = Id -> Result<()>

  predicate CreateItemOk(item: CreateItem) {
    Reveal.IsKey(item.key) && item.envs != [] && forall j :: 0 <= j < |item.envs| ==> TrimSpace(item.envs[j].folderId) != ""
  }

  predicate UpdateItemOk(item: UpdateItem) {
    TrimSpace(item.id) != "" && Reveal.IsKey(item.key)
  }

  /** One row asked for: a key in one environment's folder. */
  datatype Ask = Ask(id: Id, key: string, comment: string, value: string)

  function AsksOf(item: CreateItem, n: nat): (asks: seq<Ask>)
    requires n <= |item.envs|
    ensures |asks| == n
    ensures forall k :: 0 <= k < n ==> asks[k] == Ask(item.envs[k].folderId, item.key, item.comment, item.envs[k].value)
  {
    seq(n, k requires 0 <= k < n => Ask(item.envs[k].folderId, item.key, item.comment, item.envs[k].value))
  }

  /** The asked rows in order: item by item, environment by environment. */
  function Flattened(list: seq<CreateItem>): seq<Ask> {
    if list == [] then []
    else Flattened(list[..|list| - 1]) + AsksOf(list[|list| - 1], |list[|list| - 1].envs|)
  }

  function UpdateAsks(list: seq<UpdateItem>): (asks: seq<Ask>)
    ensures |asks| == |list|
    ensures forall k :: 0 <= k < |list| ==> asks[k] == Ask(list[k].id, list[k].key, list[k].comment, list[k].value)
  {
    seq(|list|, k requires 0 <= k < |list| => Ask(list[k].id, list[k].key, list[k].comment, list[k].value))
  }

  /** The error of the first value that does not encrypt. */
  function EncryptError(asks: seq<Ask>, encrypt: Encryptor): Option<Error> {
    if asks == [] then None
    else
      var before, last := EncryptError(asks[..|asks| - 1], encrypt), encrypt(asks[|asks| - 1].value);
      if before.Some? then before else if last.Err? then Some(last.error) else None
  }

  /** The error of the first row that is not allowed. */
  function Denial(asks: seq<Ask>, allow: Authorizer): Option<Error> {
    if asks == [] then None
    else
      var before, last := Denial(asks[..|asks| - 1], allow), allow(asks[|asks| - 1].id);
      if before.Some? then before else if last.Err? then Some(last.error) else None
  }

  /** What stops a batch before the store: a caller, rows badly formed, encryption, permission, in that order. */
  function Refusal(userId: string, empty: bool, wellFormed: bool, asks: seq<Ask>, encrypt: Encryptor,
                   allow: Authorizer): Option<Error> {
    if TrimSpace(userId) == "" then Some(ErrPermissionDenied)
    else if empty || !wellFormed then Some(ErrOther)
    else if EncryptError(asks, encrypt).Some? then EncryptError(asks, encrypt)
    else Denial(asks, allow)
  }

  lemma {:induction false} NoEncryptError(asks: seq<Ask>, encrypt: Encryptor, k: nat)
    requires EncryptError(asks, encrypt).None? && k < |asks|
    ensures encrypt(asks[k].value).Ok?
  {
    if k < |asks| - 1 { NoEncryptError(asks[..|asks| - 1], encrypt, k); }
  }

  lemma {:induction false} NoDenial(asks: seq<Ask>, allow: Authorizer, k: nat)
    requires Denial(asks, allow).None? && k < |asks|
    ensures allow(asks[k].id).Ok?
  {
    if k < |asks| - 1 { NoDenial(asks[..|asks| - 1], allow, k); }
  }

  lemma {:induction false} FirstEncryptError(asks: seq<Ask>, encrypt: Encryptor, k: nat)
    requires k <= |asks| && EncryptError(asks[..k], encrypt).Some?
    ensures EncryptError(asks, encrypt) == EncryptError(asks[..k], encrypt)
  {
    if k < |asks| {
      assert asks[..|asks| - 1][..k] == asks[..k];
      FirstEncryptError(asks[..|asks| - 1], encrypt, k);
    } else {
      assert asks[..k] == asks;
    }
  }

  lemma {:induction false} FirstDenial(asks: seq<Ask>, allow: Authorizer, k: nat)
    requires k <= |asks| && Denial(asks[..k], allow).Some?
    ensures Denial(asks, allow) == Denial(asks[..k], allow)
  {
    if k < |asks| {
      assert asks[..|asks| - 1][..k] == asks[..k];
      FirstDenial(asks[..|asks| - 1], allow, k);
    } else {
      assert asks[..k] == asks;
    }
  }

  function Ciphertext(ask: Ask, encrypt: Encryptor): string {
    if encrypt(ask.value).Ok? then encrypt(ask.value).value else ""
  }

  function NewSecrets(asks: seq<Ask>, encrypt: Encryptor): (items: seq<NewSecret>)
    ensures |items| == |asks|
    ensures forall k :: 0 <= k < |asks| ==>
      items[k] == NewSecret(asks[k].id, asks[k].key, asks[k].comment, Ciphertext(asks[k], encrypt))
  {
    seq(|asks|, k requires 0 <= k < |asks| => NewSecret(asks[k].id, asks[k].key, asks[k].comment, Ciphertext(asks[k], encrypt)))
  }

  function Changes(asks: seq<Ask>, encrypt: Encryptor): (items: seq<Change>)
    ensures |items| == |asks|
    ensures forall k :: 0 <= k < |asks| ==>
      items[k] == Change(asks[k].id, asks[k].key, asks[k].comment, Ciphertext(asks[k], encrypt))
  {
    seq(|asks|, k requires 0 <= k < |asks| => Change(asks[k].id, asks[k].key, asks[k].comment, Ciphertext(asks[k], encrypt)))
  }

  // ---- what a batch stores, item by item ----

  /** A create item is well formed: a key of the pattern, and at least one target, none without a folder. */
  ghost predicate GoodCreate(item: CreateItem) {
    Reveal.FitsPattern(item.key) && |item.envs| > 0
    && forall j :: 0 <= j < |item.envs| ==> TrimSpace(item.envs[j].folderId) != ""
  }

  ghost predicate GoodUpdate(item: UpdateItem) {
    TrimSpace(item.id) != "" && Reveal.FitsPattern(item.key)
  }

  /** The row holds what was asked for, its value encrypted. */
  ghost predicate Stores(row: SecretRow, key: string, comment: string, value: string, encrypt: Encryptor) {
    row.key == key && row.comment == comment && !row.isDeleted && encrypt(value) == Ok(row.ciphertext)
  }

  /** How many targets the first n items have. */
  ghost function TargetsBefore(list: seq<CreateItem>, n: nat): nat
    requires n <= |list|
  {
    if n == 0 then 0 else TargetsBefore(list, n - 1) + |list[n - 1].envs|
  }

  /** Targets become rows in order: item by item, and within an item in the order of its targets. */
  lemma {:induction false} FlattenedAt(list: seq<CreateItem>, i: nat, j: nat)
    requires i < |list| && j < |list[i].envs|
    ensures |Flattened(list)| == TargetsBefore(list, |list|) && TargetsBefore(list, i) + j < |Flattened(list)|
    ensures var target := list[i].envs[j];
            Flattened(list)[TargetsBefore(list, i) + j] == Ask(target.folderId, list[i].key, list[i].comment, target.value)
  {
    var before := list[..|list| - 1];
    FlattenedSize(before);
    TargetsPrefix(list, |before|);
    if i < |before| {
      FlattenedAt(before, i, j);
      TargetsPrefix(list, i);
    }
  }

  lemma {:induction false} FlattenedSize(list: seq<CreateItem>)
    ensures |Flattened(list)| == TargetsBefore(list, |list|)
  {
    if list != [] {
      FlattenedSize(list[..|list| - 1]);
      TargetsPrefix(list, |list| - 1);
    }
  }

  lemma {:induction false} TargetsPrefix(list: seq<CreateItem>, n: nat)
    requires list != [] && n <= |list| - 1
    ensures TargetsBefore(list[..|list| - 1], n) == TargetsBefore(list, n)
  {
    if n > 0 { TargetsPrefix(list, n - 1); }
  }

  lemma {:induction false} FlattenedFrom(list: seq<CreateItem>, k: nat) returns (i: nat, j: nat)
    requires k < |Flattened(list)|
    ensures i < |list| && j < |list[i].envs| && k == TargetsBefore(list, i) + j
  {
    var before := list[..|list| - 1];
    FlattenedSize(before);
    TargetsPrefix(list, |before|);
    if k < |Flattened(before)| {
      i, j := FlattenedFrom(before, k);
      TargetsPrefix(list, i);
    } else {
      i, j := |before|, k - |Flattened(before)|;
    }
  }

  /** The first failure among the asks, if there is one, is the answer. */
  lemma {:induction false} FirstFailures(asks: seq<Ask>, encrypt: Encryptor, allow: Authorizer)
    ensures EncryptError(asks, encrypt).None? <==> forall k :: 0 <= k < |asks| ==> encrypt(asks[k].value).Ok?
    ensures EncryptError(asks, encrypt).Some? ==>
            exists k :: 0 <= k < |asks| && encrypt(asks[k].value) == Err(EncryptError(asks, encrypt).value)
                        && forall j :: 0 <= j < k ==> encrypt(asks[j].value).Ok?
    ensures Denial(asks, allow).None? <==> forall k :: 0 <= k < |asks| ==> allow(asks[k].id).Ok?
    ensures Denial(asks, allow).Some? ==>
            exists k :: 0 <= k < |asks| && allow(asks[k].id) == Err(Denial(asks, allow).value)
                        && forall j :: 0 <= j < k ==> allow(asks[j].id).Ok?
  {
    if asks != [] {
      var before, last := asks[..|asks| - 1], asks[|asks| - 1];
      FirstFailures(before, encrypt, allow);
      assert forall k :: 0 <= k < |before| ==> before[k] == asks[k];
      if EncryptError(before, encrypt).Some? {
        var k :| 0 <= k < |before| && encrypt(before[k].value) == Err(EncryptError(before, encrypt).value)
                 && forall j :: 0 <= j < k ==> encrypt(before[j].value).Ok?;
        assert encrypt(asks[k].value) == Err(EncryptError(asks, encrypt).value);
      } else if encrypt(last.value).Err? {
        assert encrypt(asks[|asks| - 1].value) == Err(EncryptError(asks, encrypt).value);
      }
      if Denial(before, allow).Some? {
        var k :| 0 <= k < |before| && allow(before[k].id) == Err(Denial(before, allow).value)
                 && forall j :: 0 <= j < k ==> allow(before[j].id).Ok?;
        assert allow(asks[k].id) == Err(Denial(asks, allow).value);
      } else if allow(last.id).Err? {
        assert allow(asks[|asks| - 1].id) == Err(Denial(asks, allow).value);
      }
    }
  }

  /** The row of target j of item i. */
  ghost predicate TargetStored(t: Tables, list: seq<CreateItem>, ids: seq<Id>, encrypt: Encryptor, i: nat, j: nat)
    requires i < |list| && j < |list[i].envs|
  {
    var k := TargetsBefore(list, i) + j; var target := list[i].envs[j];
    k < |ids| && ids[k] in t.secrets && t.secrets[ids[k]].folderId == target.folderId && t.secrets[ids[k]].version == 1
    && Stores(t.secrets[ids[k]], list[i].key, list[i].comment, target.value, encrypt)
  }

  ghost predicate AllStored(t: Tables, list: seq<CreateItem>, ids: seq<Id>, encrypt: Encryptor) {
    forall i, j :: 0 <= i < |list| && 0 <= j < |list[i].envs| ==> TargetStored(t, list, ids, encrypt, i, j)
  }

  lemma {:induction false} TargetStores(t: Tables, list: seq<CreateItem>, asks: seq<Ask>, ids: seq<Id>,
                                        encrypt: Encryptor, allow: Authorizer, i: nat, j: nat)
    requires asks == Flattened(list) && |ids| == |asks| && i < |list| && j < |list[i].envs|
    requires EncryptError(asks, encrypt).None? && BatchCreated(t, NewSecrets(asks, encrypt), ids).Ok?
    ensures TargetStored(BatchCreated(t, NewSecrets(asks, encrypt), ids).value, list, ids, encrypt, i, j)
  {
    var items := NewSecrets(asks, encrypt);
    FlattenedAt(list, i, j);
    var k := TargetsBefore(list, i) + j;
    NoEncryptError(asks, encrypt, k);
    InsertedRows(t, items, ids, k);
  }

  ghost predicate TargetsAdmitted(list: seq<CreateItem>, encrypt: Encryptor, allow: Authorizer) {
    forall i, j {:trigger list[i].envs[j]} :: 0 <= i < |list| && 0 <= j < |list[i].envs| ==>
      encrypt(list[i].envs[j].value).Ok? && allow(list[i].envs[j].folderId).Ok?
  }

  ghost predicate CreateAnswers(before: Tables, after: Tables, r: Result<seq<SecretRow>>, userId: string,
                                list: seq<CreateItem>, encrypt: Encryptor, allow: Authorizer, ids: seq<Id>)
    requires |ids| == |Flattened(list)|
  {
    var asks := Flattened(list);
    match Refusal(userId, list == [], forall k :: 0 <= k < |list| ==> CreateItemOk(list[k]), asks, encrypt, allow)
    case Some(e) => r == Err(e) && after == before
    case None =>
      match BatchCreated(before, NewSecrets(asks, encrypt), ids)
      case Err(e) => r == Err(e) && after == before
      case Ok(t) => after == t && r == ReadBack(t, ids)
  }

  ghost predicate UpdateAnswers(before: Tables, after: Tables, r: Result<seq<SecretRow>>, userId: string,
                                list: seq<UpdateItem>, encrypt: Encryptor, allow: Authorizer)
  {
    var asks := UpdateAsks(list);
    match Refusal(userId, list == [], forall k :: 0 <= k < |list| ==> UpdateItemOk(list[k]), asks, encrypt, allow)
    case Some(e) => r == Err(e) && after == before
    case None =>
      match BatchUpdated(before, Changes(asks, encrypt))
      case Err(e) => r == Err(e) && after == before
      case Ok(t) => after == t && r == ReadBack(t, ChangeIds(Changes(asks, encrypt)))
  }

  /** The answer is the error of the first value that does not encrypt, or, if all do, of the first target not allowed. */
  ghost predicate FirstRefusal(r: Result<seq<SecretRow>>, asks: seq<Ask>, encrypt: Encryptor, allow: Authorizer) {
    if exists k :: 0 <= k < |asks| && encrypt(asks[k].value).Err? then
      r.Err? && exists k :: 0 <= k < |asks| && encrypt(asks[k].value) == Err(r.error)
                            && forall j :: 0 <= j < k ==> encrypt(asks[j].value).Ok?
    else
      r.Err? && exists k :: 0 <= k < |asks| && allow(asks[k].id) == Err(r.error)
                            && forall j :: 0 <= j < k ==> allow(asks[j].id).Ok?
  }

  ghost predicate SomeRefused(asks: seq<Ask>, encrypt: Encryptor, allow: Authorizer) {
    exists k :: 0 <= k < |asks| && (encrypt(asks[k].value).Err? || allow(asks[k].id).Err?)
  }

  lemma {:induction false} RefusedFirst(r: Result<seq<SecretRow>>, userId: string, asks: seq<Ask>, encrypt: Encryptor,
                                        allow: Authorizer)
    requires TrimSpace(userId) != ""
    ensures SomeRefused(asks, encrypt, allow) <==> Refusal(userId, false, true, asks, encrypt, allow).Some?
    ensures SomeRefused(asks, encrypt, allow) && r == Err(Refusal(userId, false, true, asks, encrypt, allow).value) ==>
            FirstRefusal(r, asks, encrypt, allow)
  {
    FirstFailures(asks, encrypt, allow);
  }

  lemma {:induction false} GoodItems(list: seq<CreateItem>, updates: seq<UpdateItem>)
    ensures forall i :: 0 <= i < |list| ==> (CreateItemOk(list[i]) <==> GoodCreate(list[i]))
    ensures forall i :: 0 <= i < |updates| ==> (UpdateItemOk(updates[i]) <==> GoodUpdate(updates[i]))
  {
  }

  lemma {:induction false} CreateOutcome(before: Tables, after: Tables, r: Result<seq<SecretRow>>, userId: string,
                                         list: seq<CreateItem>, encrypt: Encryptor, allow: Authorizer, ids: seq<Id>)
    requires |ids| == |Flattened(list)| && CreateAnswers(before, after, r, userId, list, encrypt, allow, ids)
    ensures TrimSpace(userId) == "" ==> r == Err(ErrPermissionDenied)
    ensures TrimSpace(userId) != "" && (list == [] || exists i :: 0 <= i < |list| && !GoodCreate(list[i])) ==>
            r == Err(ErrOther)
    ensures (TrimSpace(userId) != "" && list != [] && (forall i :: 0 <= i < |list| ==> GoodCreate(list[i]))
             && SomeRefused(Flattened(list), encrypt, allow)) ==>
            FirstRefusal(r, Flattened(list), encrypt, allow) && after == before
    ensures r.Ok? || after != before ==>
      && TrimSpace(userId) != "" && list != [] && (forall i :: 0 <= i < |list| ==> GoodCreate(list[i]))
      && TargetsAdmitted(list, encrypt, allow) && AllStored(after, list, ids, encrypt)
      && after.audits == before.audits + [Audit("folder", list[0].envs[0].folderId, "create_batch")]
  {
    if TrimSpace(userId) != "" { RefusedFirst(r, userId, Flattened(list), encrypt, allow); }
    GoodItems(list, []);
    if r.Ok? || after != before {
      Admitted(list, encrypt, allow);
      CreateWrites(before, list, Flattened(list), encrypt, allow, ids);
    }
  }

  lemma {:induction false} CreateWrites(before: Tables, list: seq<CreateItem>, asks: seq<Ask>, encrypt: Encryptor,
                                        allow: Authorizer, ids: seq<Id>)
    requires asks == Flattened(list) && |ids| == |asks| && EncryptError(asks, encrypt).None?
    requires list != [] && forall i :: 0 <= i < |list| ==> GoodCreate(list[i])
    requires BatchCreated(before, NewSecrets(asks, encrypt), ids).Ok?
    ensures var after := BatchCreated(before, NewSecrets(asks, encrypt), ids).value;
            && AllStored(after, list, ids, encrypt) && list[0].envs != []
            && after.audits == before.audits + [Audit("folder", list[0].envs[0].folderId, "create_batch")]
  {
    var items := NewSecrets(asks, encrypt);
    forall i, j | 0 <= i < |list| && 0 <= j < |list[i].envs|
      ensures TargetStored(BatchCreated(before, items, ids).value, list, ids, encrypt, i, j)
    {
      TargetStores(before, list, asks, ids, encrypt, allow, i, j);
    }
    assert GoodCreate(list[0]);
    FlattenedAt(list, 0, 0);
    assert TargetsBefore(list, 0) == 0 && TrimSpace("") == "";
    TemplateIsFirst(items);
    CreateExact(before, items, ids);
  }

  lemma {:induction false} UpdateOutcome(before: Tables, after: Tables, r: Result<seq<SecretRow>>, userId: string,
                                         list: seq<UpdateItem>, encrypt: Encryptor, allow: Authorizer)
    requires UpdateAnswers(before, after, r, userId, list, encrypt, allow)
    ensures TrimSpace(userId) == "" ==> r == Err(ErrPermissionDenied)
    ensures TrimSpace(userId) != "" && (list == [] || exists i :: 0 <= i < |list| && !GoodUpdate(list[i])) ==>
            r == Err(ErrOther)
    ensures (TrimSpace(userId) != "" && list != [] && (forall i :: 0 <= i < |list| ==> GoodUpdate(list[i]))
             && SomeRefused(UpdateAsks(list), encrypt, allow)) ==>
            FirstRefusal(r, UpdateAsks(list), encrypt, allow) && after == before
    ensures r.Ok? || after != before ==>
      && TrimSpace(userId) != "" && list != [] && (forall i :: 0 <= i < |list| ==> GoodUpdate(list[i]))
      && (forall i :: 0 <= i < |list| ==> encrypt(list[i].value).Ok? && allow(list[i].id).Ok?)
      && AllChanged(before, after, list, encrypt)
  {
    if TrimSpace(userId) != "" { RefusedFirst(r, userId, UpdateAsks(list), encrypt, allow); }
    GoodItems([], list);
    if r.Ok? || after != before {
      UpdatesAdmitted(list, encrypt, allow);
      BatchChanges(before, list, encrypt, allow);
    }
  }

  lemma {:induction false} Admitted(list: seq<CreateItem>, encrypt: Encryptor, allow: Authorizer)
    requires EncryptError(Flattened(list), encrypt).None? && Denial(Flattened(list), allow).None?
    ensures TargetsAdmitted(list, encrypt, allow)
  {
    forall i, j | 0 <= i < |list| && 0 <= j < |list[i].envs|
      ensures encrypt(list[i].envs[j].value).Ok? && allow(list[i].envs[j].folderId).Ok?
    {
      FlattenedAt(list, i, j);
      NoEncryptError(Flattened(list), encrypt, TargetsBefore(list, i) + j);
      NoDenial(Flattened(list), allow, TargetsBefore(list, i) + j);
    }
  }

  lemma {:induction false} TemplateIsFirst(items: seq<NewSecret>)
    requires items != [] && items[0].folderId != ""
    ensures TemplateFolder(items) == items[0].folderId
  {
    if |items| > 1 { TemplateIsFirst(items[..|items| - 1]); }
  }

  lemma {:induction false} UpdatesAdmitted(list: seq<UpdateItem>, encrypt: Encryptor, allow: Authorizer)
    requires EncryptError(UpdateAsks(list), encrypt).None? && Denial(UpdateAsks(list), allow).None?
    ensures forall i :: 0 <= i < |list| ==> encrypt(list[i].value).Ok? && allow(list[i].id).Ok?
  {
    forall i | 0 <= i < |list|
      ensures encrypt(list[i].value).Ok? && allow(list[i].id).Ok?
    {
      NoEncryptError(UpdateAsks(list), encrypt, i);
      NoDenial(UpdateAsks(list), allow, i);
    }
  }

  /** Some later item of the list is for the same secret. */
  ghost predicate ChangedLater(list: seq<UpdateItem>, i: nat)
    requires i < |list|
  {
    exists j :: i < j < |list| && list[j].id == list[i].id
  }

  /** Each secret named holds what the last item for it asked for; every other one is as before. */
  ghost predicate AllChanged(t: Tables, t': Tables, list: seq<UpdateItem>, encrypt: Encryptor) {
    && (forall i :: 0 <= i < |list| && !ChangedLater(list, i) ==>
         list[i].id in t'.secrets && Stores(t'.secrets[list[i].id], list[i].key, list[i].comment, list[i].value, encrypt))
    && (forall s :: s in t.secrets && (forall i :: 0 <= i < |list| ==> list[i].id != s) ==>
         s in t'.secrets && t'.secrets[s] == t.secrets[s])
  }

  lemma {:induction false} LastChangeMeans(items: seq<Change>, i: nat)
    requires i < |items| && forall j :: i < j < |items| ==> items[j].id != items[i].id
    ensures LastChange(items, items[i].id) == Some(items[i])
  {
    if i < |items| - 1 { LastChangeMeans(items[..|items| - 1], i); }
  }

  lemma {:induction false} NoChangeMeans(items: seq<Change>, s: Id)
    requires forall i :: 0 <= i < |items| ==> items[i].id != s
    ensures LastChange(items, s) == None
  {
    if items != [] { NoChangeMeans(items[..|items| - 1], s); }
  }

  lemma {:induction false} ItemChanges(t: Tables, list: seq<UpdateItem>, items: seq<Change>, encrypt: Encryptor,
                                       allow: Authorizer, i: nat)
    requires i < |list| && !ChangedLater(list, i) && items == Changes(UpdateAsks(list), encrypt)
    requires EncryptError(UpdateAsks(list), encrypt).None? && Updated(t, items).Ok?
    ensures list[i].id in Updated(t, items).value.secrets
    ensures Stores(Updated(t, items).value.secrets[list[i].id], list[i].key, list[i].comment, list[i].value, encrypt)
  {
    LastChangeMeans(items, i);
    UpdatedActive(t, items, i);
    UpdatedRow(t, items, list[i].id);
    NoEncryptError(UpdateAsks(list), encrypt, i);
    UpdatedFrame(t, items);
  }

  lemma {:induction false} BatchChanges(t: Tables, list: seq<UpdateItem>, encrypt: Encryptor, allow: Authorizer)
    requires list != [] && EncryptError(UpdateAsks(list), encrypt).None?
    requires BatchUpdated(t, Changes(UpdateAsks(list), encrypt)).Ok?
    ensures AllChanged(t, BatchUpdated(t, Changes(UpdateAsks(list), encrypt)).value, list, encrypt)
  {
    var items := Changes(UpdateAsks(list), encrypt);
    forall i | 0 <= i < |list| && !ChangedLater(list, i)
      ensures list[i].id in Updated(t, items).value.secrets
      ensures Stores(Updated(t, items).value.secrets[list[i].id], list[i].key, list[i].comment, list[i].value, encrypt)
    {
      ItemChanges(t, list, items, encrypt, allow, i);
    }
    UpdatedFrame(t, items);
    forall s | s in t.secrets && (forall i :: 0 <= i < |list| ==> list[i].id != s)
      ensures Updated(t, items).value.secrets[s] == t.secrets[s]
    {
      NoChangeMeans(items, s);
      UpdatedRow(t, items, s);
    }
  }

  /** With an opener that undoes the encryption, what a batch stored opens to what was asked. */
  lemma {:induction false} StoredOpens(row: SecretRow, key: string, comment: string, value: string, encrypt: Encryptor,
                                       open: Reveal.Opener)
    requires Stores(row, key, comment, value, encrypt)
    requires forall v :: encrypt(v).Ok? ==> open(encrypt(v).value) == Ok(v)
    ensures open(row.ciphertext) == Ok(value)
  {
  }

  class Service {
    const repository: Repository

    constructor (repository: Repository)
      ensures this.repository == repository
    {
      this.repository := repository;
    }

    method Flatten(list: seq<CreateItem>) returns (asks: seq<Ask>)
      ensures asks == Flattened(list)
    {
      asks := [];
      for i := 0 to |list|
        invariant asks == Flattened(list[..i])
      {
        assert list[..i + 1][..i] == list[..i];
        var item := list[i];
        ghost var done := asks;
        for j := 0 to |item.envs|
          invariant asks == done + AsksOf(item, j)
        {
          assert AsksOf(item, j + 1) == AsksOf(item, j) + [Ask(item.envs[j].folderId, item.key, item.comment, item.envs[j].value)];
          asks := asks + [Ask(item.envs[j].folderId, item.key, item.comment, item.envs[j].value)];
        }
      }
      assert list[..|list|] == list;
    }

    method CheckEncrypt(asks: seq<Ask>, encrypt: Encryptor) returns (error: Option<Error>)
      ensures error == EncryptError(asks, encrypt)
    {
      for i := 0 to |asks|
        invariant EncryptError(asks[..i], encrypt).None?
      {
        assert asks[..i + 1][..i] == asks[..i];
        var ciphertext := encrypt(asks[i].value);
        if ciphertext.Err? {
          FirstEncryptError(asks, encrypt, i + 1);
          return Some(ciphertext.error);
        }
      }
      assert asks[..|asks|] == asks;
      return None;
    }

    method CheckAllow(asks: seq<Ask>, allow: Authorizer) returns (error: Option<Error>)
      ensures error == Denial(asks, allow)
    {
      for i := 0 to |asks|
        invariant Denial(asks[..i], allow).None?
      {
        assert asks[..i + 1][..i] == asks[..i];
        var answer := allow(asks[i].id);
        if answer.Err? {
          FirstDenial(asks, allow, i + 1);
          return Some(answer.error);
        }
      }
      assert asks[..|asks|] == asks;
      return None;
    }

    method RunCreate(userId: string, list: seq<CreateItem>, encrypt: Encryptor, allow: Authorizer, ids: seq<Id>)
      returns (r: Result<seq<SecretRow>>)
      requires |ids| == |Flattened(list)|
      modifies repository
      ensures CreateAnswers(old(repository.tables), repository.tables, r, userId, list, encrypt, allow, ids)
    {
      if TrimSpace(userId) == "" { return Err(ErrPermissionDenied); }
      if list == [] { return Err(ErrOther); }
      for i := 0 to |list|
        invariant forall k :: 0 <= k < i ==> CreateItemOk(list[k])
        invariant repository.tables == old(repository.tables)
      {
        if !CreateItemOk(list[i]) { return Err(ErrOther); }
      }
      var asks := Flatten(list);
      var failed := CheckEncrypt(asks, encrypt);
      if failed.Some? { return Err(failed.value); }
      var denied := CheckAllow(asks, allow);
      if denied.Some? { return Err(denied.value); }
      r := repository.BatchCreateSecrets(NewSecrets(asks, encrypt), ids);
    }

    /** Nothing is written unless there is a caller, the list is well formed, and every target encrypts and is allowed;
        then every target has its row, in order, with its value encrypted, or nothing was written. */
    method BatchCreate(userId: string, list: seq<CreateItem>, encrypt: Encryptor, allow: Authorizer, ids: seq<Id>)
      returns (r: Result<seq<SecretRow>>)
      requires |ids| == |Flattened(list)|
      modifies repository
      ensures CreateAnswers(old(repository.tables), repository.tables, r, userId, list, encrypt, allow, ids)
      ensures TrimSpace(userId) == "" ==> r == Err(ErrPermissionDenied)
      ensures TrimSpace(userId) != "" && (list == [] || exists i :: 0 <= i < |list| && !GoodCreate(list[i])) ==>
        r == Err(ErrOther)
      ensures (TrimSpace(userId) != "" && list != [] && (forall i :: 0 <= i < |list| ==> GoodCreate(list[i]))
         && SomeRefused(Flattened(list), encrypt, allow)) ==>
        FirstRefusal(r, Flattened(list), encrypt, allow) && repository.tables == old(repository.tables)
      ensures r.Ok? || repository.tables != old(repository.tables) ==>
        && TrimSpace(userId) != "" && list != [] && (forall i :: 0 <= i < |list| ==> GoodCreate(list[i]))
        && TargetsAdmitted(list, encrypt, allow) && AllStored(repository.tables, list, ids, encrypt)
        && repository.tables.audits
           == old(repository.tables.audits) + [Audit("folder", list[0].envs[0].folderId, "create_batch")]
    {
      r := RunCreate(userId, list, encrypt, allow, ids);
      CreateOutcome(old(repository.tables), repository.tables, r, userId, list, encrypt, allow, ids);
    }

    method RunUpdate(userId: string, list: seq<UpdateItem>, encrypt: Encryptor, allow: Authorizer)
      returns (r: Result<seq<SecretRow>>)
      modifies repository
      ensures UpdateAnswers(old(repository.tables), repository.tables, r, userId, list, encrypt, allow)
    {
      if TrimSpace(userId) == "" { return Err(ErrPermissionDenied); }
      if list == [] { return Err(ErrOther); }
      for i := 0 to |list|
        invariant forall k :: 0 <= k < i ==> UpdateItemOk(list[k])
        invariant repository.tables == old(repository.tables)
      {
        if !UpdateItemOk(list[i]) { return Err(ErrOther); }
      }
      var asks := UpdateAsks(list);
      var failed := CheckEncrypt(asks, encrypt);
      if failed.Some? { return Err(failed.value); }
      var denied := CheckAllow(asks, allow);
      if denied.Some? { return Err(denied.value); }
      r := repository.BatchUpdateSecrets(Changes(asks, encrypt));
    }

    /** The same for updates: each secret named holds what the last item for it asked, encrypted, and no other secret
        changes, or nothing was written. */
    method BatchUpdate(userId: string, list: seq<UpdateItem>, encrypt: Encryptor, allow: Authorizer)
      returns (r: Result<seq<SecretRow>>)
      modifies repository
      ensures UpdateAnswers(old(repository.tables), repository.tables, r, userId, list, encrypt, allow)
      ensures TrimSpace(userId) == "" ==> r == Err(ErrPermissionDenied)
      ensures TrimSpace(userId) != "" && (list == [] || exists i :: 0 <= i < |list| && !GoodUpdate(list[i])) ==>
        r == Err(ErrOther)
      ensures (TrimSpace(userId) != "" && list != [] && (forall i :: 0 <= i < |list| ==> GoodUpdate(list[i]))
         && SomeRefused(UpdateAsks(list), encrypt, allow)) ==>
        FirstRefusal(r, UpdateAsks(list), encrypt, allow) && repository.tables == old(repository.tables)
      ensures r.Ok? || repository.tables != old(repository.tables) ==>
        && TrimSpace(userId) != "" && list != [] && (forall i :: 0 <= i < |list| ==> GoodUpdate(list[i]))
        && (forall i :: 0 <= i < |list| ==> encrypt(list[i].value).Ok? && allow(list[i].id).Ok?)
        && AllChanged(old(repository.tables), repository.tables, list, encrypt)
    {
      r := RunUpdate(userId, list, encrypt, allow);
      UpdateOutcome(old(repository.tables), repository.tables, r, userId, list, encrypt, allow);
    }
  }

  // ---- all or nothing ----

  /** A batch create that found `before`, left `committed`, and was read back when the tables were `later`. */
  ghost predicate Created(before: Tables, committed: Tables, later: Tables, r: Result<seq<SecretRow>>,
                          items: seq<NewSecret>, ids: seq<Id>)
    requires |ids| == |items|
  {
    match BatchCreated(before, items, ids)
    case Err(e) => r == Err(e) && committed == before
    case Ok(t) => committed == t && LinksKept(t, later) && r == ReadBack(later, ids)
  }

  /** A batch create wrote all its rows or nothing. An answer without error says all; an error says nothing was written,
      or that a row was deleted again before it was read back. */
  lemma {:induction false} CreateAllOrNothing(before: Tables, committed: Tables, later: Tables,
                                              r: Result<seq<SecretRow>>, items: seq<NewSecret>, ids: seq<Id>)
    requires |ids| == |items| && Created(before, committed, later, r, items, ids) && Anchored(before)
    ensures committed == before ||
            forall k :: 0 <= k < |items| ==> ids[k] in committed.secrets && committed.secrets[ids[k]] == RowFor(items[k])
    ensures r.Err? <==> BatchCreated(before, items, ids).Err? || exists k :: 0 <= k < |ids| && !ActiveSecret(later, ids[k])
    ensures BatchCreated(before, items, ids).Err? ==> committed == before
  {
    if BatchCreated(before, items, ids).Ok? {
      CreateReadsBack(before, items, ids, later);
      if items != [] {
        CreateExact(before, items, ids);
        assert forall k :: 0 <= k < |items| ==> ids[k] in ids;
      }
    }
  }

  ghost predicate UpdateDone(before: Tables, committed: Tables, later: Tables, r: Result<seq<SecretRow>>,
                             items: seq<Change>)
  {
    match BatchUpdated(before, items)
    case Err(e) => r == Err(e) && committed == before
    case Ok(t) => committed == t && LinksKept(t, later) && r == ReadBack(later, ChangeIds(items))
  }

  /** The same for a batch update: every change and no other, or nothing. */
  lemma {:induction false} UpdateAllOrNothing(before: Tables, committed: Tables, later: Tables,
                                              r: Result<seq<SecretRow>>, items: seq<Change>)
    requires UpdateDone(before, committed, later, r, items) && Anchored(before)
    ensures committed == before ||
            (committed.secrets.Keys == before.secrets.Keys
             && forall s :: s in before.secrets ==> committed.secrets[s] == Final(before.secrets[s], items, s))
    ensures r.Err? <==> BatchUpdated(before, items).Err?
                        || exists k :: 0 <= k < |items| && !ActiveSecret(later, items[k].id)
    ensures BatchUpdated(before, items).Err? ==> committed == before
  {
    if BatchUpdated(before, items).Ok? {
      UpdateReadsBack(before, items, later);
      if items != [] { UpdateExact(before, items); }
    }
  }
}
