/** The versioned key/value contract every backend promises: one table, and operations
    that compare an expected version with the stored one. `After` and `Reply` are the
    atomic specification; `Store` is the standalone backend, which meets it under one mutex. */
module VersionedStore {

  type Bytes = seq<bv8>

  datatype Entry = Entry(value: Bytes, version: int)

  type Table<!K> = map<K, Entry>

  datatype Op<K> =
    | Get(key: K)
    | Write(key: K, value: Bytes, expected: int)
    | Delete(key: K, expected: int)

  datatype Answer =
    | Found(entry: Entry)
    | Missing
    | Written(version: int)
    | Deleted
    | Conflict

  /** The stored version of a key; an absent key counts as version 0. */
  function Version<K>(t: Table<K>, k: K): int {
    if k in t then t[k].version else 0
  }

  /** What an operation answers when it runs alone on table `t`. */
  function Reply<K>(t: Table<K>, op: Op<K>): Answer {
    match op
    case Get(k) => if k in t then Found(t[k]) else Missing
    case Write(k, _, expected) =>
      if expected == Version(t, k) then Written(expected + 1) else Conflict
    case Delete(k, expected) =>
      if k in t && expected != 0 && expected != t[k].version then Conflict else Deleted
  }

  /** The table an operation leaves when it runs alone on table `t`. */
  function After<K>(t: Table<K>, op: Op<K>): Table<K> {
    match op
    case Get(_) => t
    case Write(k, value, expected) =>
      if expected == Version(t, k) then t[k := Entry(value, expected + 1)] else t
    case Delete(k, expected) =>
      if k in t && (expected == 0 || expected == t[k].version) then t - {k} else t
  }

  /** Every stored version is at least 1, so expected version 0 always means "create". */
  ghost predicate Positive<K>(t: Table<K>) {
    forall k :: k in t ==> t[k].version >= 1
  }

  lemma AfterPositive<K>(t: Table<K>, op: Op<K>)
    requires Positive(t)
    ensures Positive(After(t, op))
  {
  }

  /** A refused operation leaves the table alone, and a refused write is one whose
      expected version is not the stored one. */
  lemma RefusedIsNoOp<K>(t: Table<K>, op: Op<K>)
    ensures Reply(t, op).Conflict? ==> After(t, op) == t
    ensures op.Write? ==> (Reply(t, op).Conflict? <==> op.expected != Version(t, op.key))
  {
  }

  /** What an accepted operation does to the table, told by its answer: a write that reported a
      version left that value at that version, a delete that succeeded left no entry, and no
      operation touches another key. */
  lemma AnswerTellsTable<K(!new)>(t: Table<K>, op: Op<K>)
    ensures Reply(t, op).Written? ==>
              op.Write? && op.key in After(t, op) && After(t, op)[op.key] == Entry(op.value, Reply(t, op).version)
    ensures Reply(t, op).Deleted? ==> op.Delete? && op.key !in After(t, op)
    ensures op.Get? || Reply(t, op).Conflict? ==> After(t, op) == t
    ensures SameBut(t, After(t, op), op.key)
  {
  }

  /** Two tables agree on every slot but this one. */
  ghost predicate SameBut<K(!new)>(t: Table<K>, t': Table<K>, k: K) {
    forall x :: x != k ==> (x in t <==> x in t') && (x in t ==> t[x] == t'[x])
  }

  type Nested<!N, !K> = map<N, map<K, Entry>>

  ghost function Slots<N, K>(ns: Nested<N, K>): set<(N, K)> {
    set n, k | n in ns && k in ns[n] :: (n, k)
  }

  /** The one table nested maps stand for; empty inner maps leave no trace. */
  ghost function Flat<N, K>(ns: Nested<N, K>): Table<(N, K)> {
    map x | x in Slots(ns) :: ns[x.0][x.1]
  }

  function Keys<N, K>(ns: Nested<N, K>, n: N): map<K, Entry> {
    if n in ns then ns[n] else map[]
  }

  lemma FlatLookup<N, K>(ns: Nested<N, K>, n: N, k: K)
    ensures (n, k) in Flat(ns) <==> k in Keys(ns, n)
    ensures k in Keys(ns, n) ==> Flat(ns)[(n, k)] == Keys(ns, n)[k]
  {
  }

  /** Storing into one key map stores into that slot of the table and no other. */
  lemma FlatPut<N, K>(ns: Nested<N, K>, n: N, k: K, e: Entry)
    ensures Flat(ns[n := Keys(ns, n)[k := e]]) == Flat(ns)[(n, k) := e]
  {
    var ns' := ns[n := Keys(ns, n)[k := e]];
    assert Slots(ns') == Slots(ns) + {(n, k)};
  }

  /** Removing from one key map clears that slot of the table and no other. */
  lemma FlatCut<N, K>(ns: Nested<N, K>, n: N, k: K)
    ensures Flat(ns[n := Keys(ns, n) - {k}]) == Flat(ns) - {(n, k)}
  {
    var ns' := ns[n := Keys(ns, n) - {k}];
    assert Slots(ns') == Slots(ns) - {(n, k)};
  }

  /** The standalone backend: a namespace map of key maps. */
  class Store {
    var ns: Nested<string, string>

    ghost predicate Valid()
      reads this
    {
      Positive(Flat(ns))
    }

    constructor ()
      ensures Valid() && Flat(ns) == map[]
    {
      ns := map[];
    }

    method Get(namespace: string, key: string) returns (answer: Answer)
      requires Valid()
      ensures answer == Reply(Flat(ns), Op.Get((namespace, key)))
      ensures (namespace, key) in Flat(ns) ==> answer == Found(Flat(ns)[(namespace, key)])
      ensures (namespace, key) !in Flat(ns) ==> answer == Missing
    {
      FlatLookup(ns, namespace, key);
      var keys := Keys(ns, namespace);
      answer := if key in keys then Found(keys[key]) else Missing;
    }

    method Write(namespace: string, key: string, value: Bytes, expected: int) returns (answer: Answer)
      requires Valid()
      modifies this
      ensures Valid()
      ensures answer == Reply(old(Flat(ns)), Op.Write((namespace, key), value, expected))
      ensures Flat(ns) == After(old(Flat(ns)), Op.Write((namespace, key), value, expected))
      ensures SameBut(old(Flat(ns)), Flat(ns), (namespace, key))
      ensures var slot := (namespace, key);
              var was := if slot in old(Flat(ns)) then old(Flat(ns))[slot].version else 0;
              if expected == was then
                answer == Written(was + 1) && slot in Flat(ns) && Flat(ns)[slot] == Entry(value, was + 1)
              else
                answer == Conflict && Flat(ns) == old(Flat(ns))
    {
      FlatLookup(ns, namespace, key);
      var keys := Keys(ns, namespace);
      var current := if key in keys then keys[key].version else 0;
      if expected != current {
        return Conflict;
      }
      var next := current + 1;
      FlatPut(ns, namespace, key, Entry(value, next));
      ns := ns[namespace := keys[key := Entry(value, next)]];
      answer := Written(next);
    }

    method Delete(namespace: string, key: string, expected: int) returns (answer: Answer)
      requires Valid()
      modifies this
      ensures Valid()
      ensures answer == Reply(old(Flat(ns)), Op.Delete((namespace, key), expected))
      ensures Flat(ns) == After(old(Flat(ns)), Op.Delete((namespace, key), expected))
      ensures SameBut(old(Flat(ns)), Flat(ns), (namespace, key))
      ensures answer == Deleted ==> (namespace, key) !in Flat(ns)
      ensures answer == Conflict ==> Flat(ns) == old(Flat(ns))
      ensures answer == Deleted || answer == Conflict
      ensures answer == Conflict <==>
                && (namespace, key) in old(Flat(ns)) && expected != 0
                && expected != old(Flat(ns))[(namespace, key)].version
    {
      FlatLookup(ns, namespace, key);
      var keys := Keys(ns, namespace);
      if key !in keys {
        return Deleted;
      }
      if expected != 0 && expected != keys[key].version {
        return Conflict;
      }
      FlatCut(ns, namespace, key);
      ns := ns[namespace := keys - {key}];
      answer := Deleted;
    }
  }
}
