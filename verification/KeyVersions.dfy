/**
  internal/crypto/keystore.go for one scope: the scope_keys table, the
  per-process cache of unwrapped keys, and the operations that resolve, create
  and forget key versions.
 */
module KeyVersions {
  import opened Basics
  import opened FieldCrypto

  /** scope_keys: version -> data key. Versions start at 1. */
  type KeyTable = map<nat, Dek>

  /** One process's (version -> key) cache. */
  type Cache = map<nat, Dek>

  lemma {:induction false} MaxExists(s: set<nat>)
    requires s != {}
    ensures exists m :: m in s && forall x :: x in s ==> x <= m
  {
    var a :| a in s;
    var rest := s - {a};
    if rest == {} {
      assert s == {a};
    } else {
      MaxExists(rest);
      var m :| m in rest && forall x :: x in rest ==> x <= m;
      assert forall x :: x in s ==> x == a || x in rest;
      var top := if a <= m then m else a;
      assert top in s && forall x :: x in s ==> x <= top;
    }
  }

  /** coalesce(max(version), 0) */
  function Current(table: KeyTable): (v: nat)
    ensures table.Keys == {} ==> v == 0
    ensures table.Keys != {} ==> v in table
    ensures forall x :: x in table ==> x <= v
  {
    if table.Keys == {} then 0
    else
      MaxExists(table.Keys);
      var m :| m in table.Keys && forall x :: x in table.Keys ==> x <= m;
      m
  }

  /** insert ... on conflict do nothing */
  function Insert(table: KeyTable, v: nat, dek: Dek): KeyTable {
    if v in table then table else table[v := dek]
  }

  /** GetVersion's answer: the cached key, else the stored one, else not found. */
  function Lookup(cache: Cache, table: KeyTable, v: nat): Option<Dek> {
    if v in cache then Some(cache[v])
    else if v in table then Some(table[v])
    else None
  }

  /** The cache after GetVersion has answered. */
  function Remember(cache: Cache, table: KeyTable, v: nat): Cache {
    match Lookup(cache, table, v)
    case Some(d) => cache[v := d]
    case None => cache
  }

  /** The cache never contradicts the stored keys it still shares a version with. */
  predicate Agrees(cache: Cache, table: KeyTable) {
    forall v :: v in cache && v in table ==> cache[v] == table[v]
  }

  /** The database's copy of the scope's keys, shared by every process. */
  class KeyDb {
    var keys: KeyTable

    constructor ()
      ensures keys == map[]
    {
      keys := map[];
    }
  }

  /** One process's key store. */
  class KeyStore {
    const db: KeyDb
    var cache: Cache

    constructor (db: KeyDb)
      ensures this.db == db && cache == map[]
    {
      this.db := db;
      cache := map[];
    }

    method CurrentVersion() returns (v: nat)
      ensures v == Current(db.keys)
    {
      v := Current(db.keys);
    }

    method GetVersion(v: nat) returns (key: Option<Dek>)
      modifies this`cache
      ensures key == Lookup(old(cache), db.keys, v)
      ensures cache == Remember(old(cache), db.keys, v)
      ensures key == if v in old(cache) then Some(old(cache)[v]) else if v in db.keys then Some(db.keys[v]) else None
      ensures cache == if key.Some? then old(cache)[v := key.value] else old(cache)
    {
      if v in cache {
        key := Some(cache[v]);
      } else if v in db.keys {
        key := Some(db.keys[v]);
      } else {
        key := None;
      }
      if key.Some? {
        cache := cache[v := key.value];
      }
    }

    /**
      Inserts a freshly generated key unless another process already stored one
      for this version, and caches whatever is stored, never the loser.
     */
    method CreateVersion(v: nat, generated: Dek) returns (created: nat)
      modifies this`cache, db`keys
      ensures created == v
      ensures db.keys == Insert(old(db.keys), v, generated)
      ensures db.keys == if v in old(db.keys) then old(db.keys) else old(db.keys)[v := generated]
      ensures cache == Remember(old(cache), db.keys, v)
      ensures cache == old(cache)[v := if v in old(cache) then old(cache)[v] else db.keys[v]]
      ensures old(Agrees(cache, db.keys)) && v !in old(cache) ==> v in cache && cache[v] == db.keys[v]
    {
      db.keys := Insert(db.keys, v, generated);
      var reloaded := GetVersion(v);
      assert reloaded.Some?;
      created := v;
    }

    /** None is the source's "no existing key to rotate" error. */
    method CreateNextVersion(generated: Dek) returns (created: Option<nat>)
      modifies this`cache, db`keys
      ensures created.None? <==> old(Current(db.keys)) == 0
      ensures created.None? ==> db.keys == old(db.keys) && cache == old(cache)
      ensures created.Some? ==>
                && created.value == old(Current(db.keys)) + 1
                && created.value !in old(db.keys)
                && db.keys == old(db.keys)[created.value := generated]
                && Current(db.keys) == created.value
                && cache == Remember(old(cache), db.keys, created.value)
    {
      var current := CurrentVersion();
      if current == 0 {
        return None;
      }
      var v := CreateVersion(current + 1, generated);
      assert v in db.keys && Current(db.keys) in db.keys;
      created := Some(v);
    }

    /**
      The key every write goes under: the newest stored version, created as
      version 1 when the scope has none.
     */
    method GetOrCreate(generated: Dek) returns (key: Dek, version: nat)
      modifies this`cache, db`keys
      ensures db.keys == if old(Current(db.keys)) == 0 then Insert(old(db.keys), 1, generated) else old(db.keys)
      ensures old(db.keys) == map[] ==> db.keys == map[1 := generated] && version == 1
      ensures forall v :: v in db.keys ==> v <= version
      ensures version == Current(db.keys) && version in db.keys
      ensures Lookup(old(cache), db.keys, version) == Some(key)
      ensures Agrees(old(cache), db.keys) ==> key == db.keys[version] && Agrees(cache, db.keys)
    {
      version := CurrentVersion();
      if version == 0 {
        version := CreateVersion(1, generated);
        assert 1 in db.keys && Current(db.keys) in db.keys;
      }
      var found := GetVersion(version);
      key := found.value;
    }

    method Evict(v: nat)
      modifies this`cache
      ensures cache == old(cache) - {v}
    {
      cache := cache - {v};
    }
  }
}
