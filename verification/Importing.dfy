/** Importing a list of endpoints is complete and idempotent. */
module Importing {
  import opened Basics
  import opened Text
  import opened Registry
  import opened History
  import opened Interleaving

  type MethodPath = (string, string)

  /** The (method, path) keys of an account. */
  ghost function KeysOf(t: Tables, owner: Uuid): set<MethodPath> {
    set id | id in t.endpoints && t.endpoints[id].account == owner :: (t.endpoints[id].verb, t.endpoints[id].path)
  }

  function KeyOf(item: ImportItem): MethodPath {
    (ToUpper(item.verb), item.path)
  }

  ghost function ItemKeys(items: seq<ImportItem>): set<MethodPath> {
    set i | 0 <= i < |items| :: KeyOf(items[i])
  }

  lemma KeyTakenIff(t: Tables, e: Endpoint)
    requires e.id !in t.endpoints
    ensures KeyTaken(t, e) <==> (e.verb, e.path) in KeysOf(t, e.account)
  {
    if (e.verb, e.path) in KeysOf(t, e.account) {
      var id :| id in t.endpoints && t.endpoints[id].account == e.account
                && (t.endpoints[id].verb, t.endpoints[id].path) == (e.verb, e.path);
      assert SameKey(t.endpoints[id], e);
    }
  }

  lemma KeysAfterImported(t: Tables, e: Endpoint, item: ImportItem)
    requires e.id !in t.endpoints
    ensures KeysOf(WithImported(t, e, item), e.account) == KeysOf(t, e.account) + {(e.verb, e.path)}
  {
    var t2 := WithImported(t, e, item);
    forall k | k in KeysOf(t, e.account) + {(e.verb, e.path)}
      ensures k in KeysOf(t2, e.account)
    {
      if k == (e.verb, e.path) {
        assert e.id in t2.endpoints && t2.endpoints[e.id] == e;
      } else {
        var id :| id in t.endpoints && t.endpoints[id].account == e.account
                  && (t.endpoints[id].verb, t.endpoints[id].path) == k;
        assert t2.endpoints[id] == t.endpoints[id];
      }
    }
  }

  lemma ItemKeysCons(items: seq<ImportItem>)
    requires items != []
    ensures ItemKeys(items) == {KeyOf(items[0])} + ItemKeys(items[1..])
  {
    forall k | k in ItemKeys(items) ensures k in {KeyOf(items[0])} + ItemKeys(items[1..]) {
      var i :| 0 <= i < |items| && KeyOf(items[i]) == k;
      if i > 0 { assert items[1..][i - 1] == items[i]; }
    }
    forall k | k in ItemKeys(items[1..]) ensures k in ItemKeys(items) {
      var i :| 0 <= i < |items[1..]| && KeyOf(items[1..][i]) == k;
      assert items[i + 1] == items[1..][i];
    }
  }

  lemma ImportedRows(t: Tables, e: Endpoint, item: ImportItem)
    requires t.versions.Keys == t.endpoints.Keys && e.id !in t.endpoints
    ensures
      var t2 := WithImported(t, e, item);
      && t2.versions.Keys == t2.endpoints.Keys == t.endpoints.Keys + {e.id}
      && |t2.endpoints| == |t.endpoints| + 1
  {
    assert t.endpoints[e.id := e].Keys == t.endpoints.Keys + {e.id};
    assert |t.endpoints.Keys + {e.id}| == |t.endpoints.Keys| + 1;
  }

  /** Every item is counted once. */
  lemma {:induction false} ImportCounts(t: Tables, used: set<Uuid>, owner: Uuid, items: seq<ImportItem>, ids: seq<Uuid>,
                                        done: ImportResult)
    requires t.versions.Keys == t.endpoints.Keys <= used && FreshIds(used, items, ids)
    requires |done.endpoints| == done.created
    ensures
      var r := ImportAll(t, owner, items, ids, done);
      && r.Ok?
      && r.value.1.created + r.value.1.skipped == done.created + done.skipped + |items|
      && |r.value.1.endpoints| == r.value.1.created
      && |r.value.0.endpoints| == |t.endpoints| + (r.value.1.created - done.created)
    decreases |items|
  {
    if items == [] {
    } else {
      var e := Imported(owner, ids[0], items[0]);
      ImportUnfold(t, owner, items, ids, done);
      FreshTail(used, items, ids);
      if KeyTaken(t, e) {
        ImportCounts(t, used, owner, items[1..], ids[1..], done.(skipped := done.skipped + 1));
      } else {
        ImportedRows(t, e, items[0]);
        ImportCounts(WithImported(t, e, items[0]), used + {ids[0]}, owner, items[1..], ids[1..],
                     ImportResult(done.created + 1, done.skipped, done.endpoints + [e]));
      }
    }
  }

  ghost predicate HasKeys(t: Tables, owner: Uuid, keys: set<MethodPath>) {
    KeysOf(t, owner) == keys
  }

  lemma KeysAfterItem(t: Tables, e: Endpoint, item: ImportItem, keys: set<MethodPath>)
    requires e.id !in t.endpoints && HasKeys(t, e.account, keys)
    ensures KeyTaken(t, e) ==> keys + {(e.verb, e.path)} == keys
    ensures HasKeys(WithImported(t, e, item), e.account, keys + {(e.verb, e.path)})
  {
    KeyTakenIff(t, e);
    KeysAfterImported(t, e, item);
  }

  lemma AddAllKeys(keys: set<MethodPath>, items: seq<ImportItem>)
    requires items != []
    ensures (keys + {KeyOf(items[0])}) + ItemKeys(items[1..]) == keys + ItemKeys(items)
  {
    ItemKeysCons(items);
  }

  /** Importing leaves the account with exactly its old keys and the items'. */
  lemma {:induction false} ImportAddsKeys(t: Tables, used: set<Uuid>, owner: Uuid, items: seq<ImportItem>,
      ids: seq<Uuid>, done: ImportResult, keys: set<MethodPath>)
    requires t.versions.Keys == t.endpoints.Keys <= used && FreshIds(used, items, ids)
    requires HasKeys(t, owner, keys)
    ensures
      var r := ImportAll(t, owner, items, ids, done);
      r.Ok? && HasKeys(r.value.0, owner, keys + ItemKeys(items))
    decreases |items|
  {
    if items == [] {
      assert keys + ItemKeys(items) == keys;
    } else {
      var e := Imported(owner, ids[0], items[0]);
      var more := keys + {KeyOf(items[0])};
      ImportUnfold(t, owner, items, ids, done);
      FreshTail(used, items, ids);
      KeysAfterItem(t, e, items[0], keys);
      AddAllKeys(keys, items);
      if KeyTaken(t, e) {
        ImportAddsKeys(t, used, owner, items[1..], ids[1..], done.(skipped := done.skipped + 1), more);
      } else {
        ImportedRows(t, e, items[0]);
        ImportAddsKeys(WithImported(t, e, items[0]), used + {ids[0]}, owner, items[1..], ids[1..],
                       ImportResult(done.created + 1, done.skipped, done.endpoints + [e]), more);
      }
    }
  }

  function Skipping(done: ImportResult, n: nat): ImportResult {
    done.(skipped := done.skipped + n)
  }

  /** Items whose keys are all taken are all skipped, and nothing changes. */
  lemma {:induction false} TakenItemsAreSkipped(t: Tables, used: set<Uuid>, owner: Uuid, items: seq<ImportItem>,
      ids: seq<Uuid>, done: ImportResult)
    requires t.versions.Keys == t.endpoints.Keys <= used && FreshIds(used, items, ids)
    requires ItemKeys(items) <= KeysOf(t, owner)
    ensures ImportAll(t, owner, items, ids, done) == Ok((t, Skipping(done, |items|)))
    decreases |items|
  {
    if items == [] {
    } else {
      var e := Imported(owner, ids[0], items[0]);
      ImportUnfold(t, owner, items, ids, done);
      FreshTail(used, items, ids);
      ItemKeysCons(items);
      KeyTakenIff(t, e);
      assert KeyTaken(t, e);
      TakenItemsAreSkipped(t, used, owner, items[1..], ids[1..], done.(skipped := done.skipped + 1));
      assert Skipping(done.(skipped := done.skipped + 1), |items[1..]|) == Skipping(done, |items|);
    }
  }

  /** A successful import settles every item, one way or the other, and adds
      exactly the items' keys to the account's. */
  lemma ImportIsComplete(t: Tables, used: set<Uuid>, owner: Uuid, items: seq<ImportItem>, ids: seq<Uuid>)
    requires t.versions.Keys == t.endpoints.Keys <= used && FreshIds(used, items, ids)
    ensures
      var (result, t') := ImportOp(t, owner, items, ids, None);
      && result.Ok?
      && result.value.created + result.value.skipped == |items|
      && |t'.endpoints| == |t.endpoints| + result.value.created
      && KeysOf(t', owner) == KeysOf(t, owner) + ItemKeys(items)
  {
    ImportCounts(t, used, owner, items, ids, NOTHING);
    ImportAddsKeys(t, used, owner, items, ids, NOTHING, KeysOf(t, owner));
  }

  lemma ImportOfTaken(t: Tables, used: set<Uuid>, owner: Uuid, items: seq<ImportItem>, ids: seq<Uuid>)
    requires t.versions.Keys == t.endpoints.Keys <= used && FreshIds(used, items, ids)
    requires ItemKeys(items) <= KeysOf(t, owner)
    ensures ImportOp(t, owner, items, ids, None) == (Ok(ImportResult(0, |items|, [])), t)
  {
    TakenItemsAreSkipped(t, used, owner, items, ids, NOTHING);
    assert Skipping(NOTHING, |items|) == ImportResult(0, |items|, []);
  }

  /** Importing the same list again creates nothing and changes no row. */
  lemma ReimportChangesNothing(t: Tables, used: set<Uuid>, owner: Uuid, items: seq<ImportItem>, ids: seq<Uuid>,
      again: seq<Uuid>)
    requires Intact(t) && t.endpoints.Keys <= used && FreshIds(used, items, ids)
    requires FreshIds(used + IdSet(ids), items, again)
    ensures
      var t' := ImportOp(t, owner, items, ids, None).1;
      ImportOp(t', owner, items, again, None) == (Ok(ImportResult(0, |items|, [])), t')
  {
    ImportAddsKeys(t, used, owner, items, ids, NOTHING, KeysOf(t, owner));
    ImportKeepsIntact(t, used, owner, items, ids, NOTHING);
    ImportOfTaken(ImportAll(t, owner, items, ids, NOTHING).value.0, used + IdSet(ids), owner, items, again);
  }

  lemma {:induction false} ProgressIsResult(t: Tables, owner: Uuid, items: seq<ImportItem>, ids: seq<Uuid>,
      done: ImportResult)
    requires |ids| == |items| && ImportAll(t, owner, items, ids, done).Ok?
    ensures ImportProgress(t, owner, items, ids, done) == ImportAll(t, owner, items, ids, done).value.1
    decreases |items|
  {
    if items == [] {
    } else {
      var (t', next) := ImportOne(t, owner, items[0], ids[0], done).value;
      ProgressIsResult(t', owner, items[1..], ids[1..], next);
    }
  }

  /** An import the database fails in the middle of changes nothing, but still
      reports every item before the failure as created or skipped. */
  lemma FailedImportStillCounts(t: Tables, used: set<Uuid>, owner: Uuid, items: seq<ImportItem>, ids: seq<Uuid>, n: nat)
    requires t.versions.Keys == t.endpoints.Keys <= used && FreshIds(used, items, ids) && n < |items|
    ensures
      var done := ImportProgress(t, owner, items[..n], ids[..n], NOTHING);
      && ImportOp(t, owner, items, ids, Some(n)) == (Err(Storage), t)
      && done.created + done.skipped == n && |done.endpoints| == done.created
  {
    ImportCounts(t, used, owner, items[..n], ids[..n], NOTHING);
    ProgressIsResult(t, owner, items[..n], ids[..n], NOTHING);
  }
}
