/** The index storage the indexer writes into: per named index, a map from a symbol to a growable
    collection. The indexer only looks collections up and appends to them. */
module IndexStore {
  import opened Common

  /** The container entry a class file came from: an opaque handle, identified here by its path. */
  datatype Entry = Entry(path: string)

  /** What a collection holds: a container entry, or, in `subTypeNames`, the name of a subtype. */
  datatype Item = EntryItem(entry: Entry) | SubTypeItem(typeName: Sym)

  type Index = map<Sym, seq<Item>>
  type Store = map<string, Index>

  /** The storage collaborator. `getIndex(name)` is `store[name]` and yields `null` for a name not in
      `store`; `index.get(key)` likewise yields `null` for a key without a collection. */
  class Indexes {
    var store: Store

    constructor (initial: Store)
      ensures store == initial
    {
      store := initial;
    }
  }

  /** `idx` with `item` appended to the collection of every key in `keys`. */
  function Appended(idx: Index, keys: set<Sym>, item: Item): Index
    requires keys <= idx.Keys
  {
    map k | k in idx :: if k in keys then idx[k] + [item] else idx[k]
  }

  lemma AppendedNothing(idx: Index, item: Item)
    ensures Appended(idx, {}, item) == idx
  {
  }

  /** Appending under one more key, one collection at a time, as the write loops do. */
  lemma AppendedStep(idx: Index, done: set<Sym>, key: Sym, item: Item)
    requires done <= idx.Keys && key in idx && key !in done
    ensures Appended(idx, done + {key}, item) == Appended(idx, done, item)[key := Appended(idx, done, item)[key] + [item]]
  {
  }

  /** One write step of a pass: append `item` under every key of `keys` in the index called `indexName`. */
  datatype WriteTask = WriteTask(indexName: string, keys: set<Sym>, item: Item)

  /** A write step runs to its end when its set is empty (the index is then not even looked up) or when the
      index exists and has a collection for every key. */
  predicate TaskOk(store: Store, t: WriteTask) {
    t.keys == {} || (t.indexName in store && t.keys <= store[t.indexName].Keys)
  }

  function Apply(store: Store, t: WriteTask): Store
    requires TaskOk(store, t)
  {
    if t.keys == {} then store else store[t.indexName := Appended(store[t.indexName], t.keys, t.item)]
  }

  /** The steps run in order; `None` when one of them cannot run to its end. */
  function ApplyTasks(store: Store, ts: seq<WriteTask>): Option<Store> {
    if ts == [] then Some(store)
    else
      var before := ApplyTasks(store, ts[..|ts| - 1]);
      if before.Some? && TaskOk(before.value, ts[|ts| - 1]) then Some(Apply(before.value, ts[|ts| - 1]))
      else None
  }

  /** `after` is `before` with the write step `t` cut short by a missing index or collection: the item was
      appended under the keys of `done` only, which are keys of `t` that have a collection, and at least one
      key of `t` was not reached. */
  predicate StoppedPartway(before: Store, t: WriteTask, done: set<Sym>, after: Store) {
    && !TaskOk(before, t)
    && done <= t.keys && done != t.keys
    && if t.indexName in before then done <= before[t.indexName].Keys
                                     && after == before[t.indexName := Appended(before[t.indexName], done, t.item)]
       else done == {} && after == before
  }

  /** `after` is what running `ts` leaves when step `k` stops partway, after `ts[..k]` ran to their end. */
  predicate StoppedAt(before: Store, ts: seq<WriteTask>, k: nat, done: set<Sym>, after: Store) {
    && k < |ts|
    && ApplyTasks(before, ts[..k]).Some?
    && StoppedPartway(ApplyTasks(before, ts[..k]).value, ts[k], done, after)
  }

  /** Store `b` extends store `a`: the same index names and keys, and every collection of `a` is a prefix of
      the matching collection of `b`. */
  predicate Extends(a: Store, b: Store) {
    && a.Keys == b.Keys
    && forall n :: n in a ==> a[n].Keys == b[n].Keys && forall k :: k in a[n] ==> a[n][k] <= b[n][k]
  }

  // ---------------------------------------------------------------------------------------------
  // Lemmas: writing is append-only.

  lemma ExtendsTransitive(a: Store, b: Store, c: Store)
    requires Extends(a, b) && Extends(b, c)
    ensures Extends(a, c)
  {
    forall n, k | n in a && k in a[n] ensures a[n][k] <= c[n][k] {
      assert a[n][k] <= b[n][k] && b[n][k] <= c[n][k];
    }
  }

  /** One completed step only appends. */
  lemma ApplyExtends(store: Store, t: WriteTask)
    requires TaskOk(store, t)
    ensures Extends(store, Apply(store, t))
  {
  }

  /** Running the steps never creates or removes an index or a key and never removes or reorders an item:
      every old collection is a prefix of the new one. */
  lemma {:induction false} ApplyTasksExtends(store: Store, ts: seq<WriteTask>)
    requires ApplyTasks(store, ts).Some?
    ensures Extends(store, ApplyTasks(store, ts).value)
  {
    if ts != [] {
      var p := ts[..|ts| - 1];
      ApplyTasksExtends(store, p);
      ApplyExtends(ApplyTasks(store, p).value, ts[|ts| - 1]);
      ExtendsTransitive(store, ApplyTasks(store, p).value, ApplyTasks(store, ts).value);
    }
  }

  /** A step cut short only appends too: the writes made before the fault stay in place. */
  lemma StoppedAtExtends(before: Store, ts: seq<WriteTask>, k: nat, done: set<Sym>, after: Store)
    requires StoppedAt(before, ts, k, done, after)
    ensures Extends(before, after)
  {
    var mid := ApplyTasks(before, ts[..k]).value;
    ApplyTasksExtends(before, ts[..k]);
    assert Extends(mid, after);
    ExtendsTransitive(before, mid, after);
  }

  /** After the steps have run, the item of every step is in the collection of every key of that step. */
  lemma {:induction false} ApplyTasksRecords(store: Store, ts: seq<WriteTask>, j: nat, key: Sym)
    requires ApplyTasks(store, ts).Some?
    requires j < |ts| && key in ts[j].keys
    ensures ts[j].indexName in ApplyTasks(store, ts).value
    ensures key in ApplyTasks(store, ts).value[ts[j].indexName]
    ensures ts[j].item in ApplyTasks(store, ts).value[ts[j].indexName][key]
  {
    var p := ts[..|ts| - 1];
    var mid := ApplyTasks(store, p).value;
    var last := ts[|ts| - 1];
    if j == |ts| - 1 {
      assert ts[j] == last;
    } else {
      assert p[j] == ts[j];
      ApplyTasksRecords(store, p, j, key);
      ApplyExtends(mid, last);
      var n := ts[j].indexName;
      assert mid[n][key] <= Apply(mid, last)[n][key];
    }
  }

  /** `item` is in the collection under `key` of the index called `indexName`. */
  predicate Recorded(store: Store, indexName: string, key: Sym, item: Item) {
    indexName in store && key in store[indexName] && item in store[indexName][key]
  }

  /** After the steps have run, the item of step `j` is recorded under every key of that step. */
  lemma ApplyTasksRecordsStep(store: Store, ts: seq<WriteTask>, j: nat, indexName: string, keys: set<Sym>, item: Item)
    requires ApplyTasks(store, ts).Some? && j < |ts| && ts[j] == WriteTask(indexName, keys, item)
    ensures forall key :: key in keys ==> Recorded(ApplyTasks(store, ts).value, indexName, key, item)
  {
    forall key | key in keys
      ensures Recorded(ApplyTasks(store, ts).value, indexName, key, item)
    {
      ApplyTasksRecords(store, ts, j, key);
    }
  }

  /** Once a step cannot run to its end, the sequence as a whole does not either. */
  lemma {:induction false} ApplyTasksStuck(store: Store, ts: seq<WriteTask>, j: nat)
    requires j < |ts| && ApplyTasks(store, ts[..j]).Some? && !TaskOk(ApplyTasks(store, ts[..j]).value, ts[j])
    ensures ApplyTasks(store, ts).None?
    decreases |ts|
  {
    var p := ts[..|ts| - 1];
    if |ts| == j + 1 {
      assert p == ts[..j];
    } else {
      assert p[..j] == ts[..j] && p[j] == ts[j];
      ApplyTasksStuck(store, p, j);
    }
  }
}
