/**
 * The public-key cache: two IndexedDB object stores, `publicKeyStore` and
 * `paramsStore`, each keyed by the ACL contract address. Reading returns the
 * key under `publicKey` (absent when not cached) and the 2048-bit public
 * parameters under `publicParams` (null when not cached). Outside a browser
 * there is no database: reads find nothing and writes are dropped.
 */
module PublicKeyStorage {
  import opened Wrappers

  type Address = string
  type Bytes = seq<bv8>

  /** `FhevmStoredPublicKey`. */
  datatype StoredPublicKey = StoredPublicKey(publicKeyId: string, publicKey: Bytes)

  /** `FhevmStoredPublicParams`. */
  datatype StoredPublicParams = StoredPublicParams(publicParamsId: string, publicParams: Bytes)

  /** The `{ id, data }` shape in which a cached key is handed back. */
  datatype PublicKeyView = PublicKeyView(id: string, data: Bytes)

  /**
   * The result of `publicKeyStorageGet`: `publicKey` None is the absent field,
   * `publicParams2048` None is `publicParams: null`, and Some(pp) is
   * `publicParams: { "2048": pp }`.
   */
  datatype CachedMaterial = CachedMaterial(publicKey: Option<PublicKeyView>, publicParams2048: Option<StoredPublicParams>)

  /** The IndexedDB database `fhevm` with its two object stores. */
  class KeyDatabase {
    var publicKeyStore: map<Address, StoredPublicKey>
    var paramsStore: map<Address, StoredPublicParams>

    constructor ()
      ensures publicKeyStore == map[] && paramsStore == map[]
    {
      publicKeyStore, paramsStore := map[], map[];
    }
  }

  /** What a read for `acl` returns from the two stores. */
  function CachedFor(keys: map<Address, StoredPublicKey>, params: map<Address, StoredPublicParams>,
                     acl: Address): CachedMaterial
  {
    CachedMaterial(
      if acl in keys then Some(PublicKeyView(keys[acl].publicKeyId, keys[acl].publicKey)) else None,
      if acl in params then Some(params[acl]) else None)
  }

  /** A store after a put of `v` under `acl` when `v` is non-null, unchanged otherwise. */
  function PutIfPresent<V>(store: map<Address, V>, acl: Address, v: Option<V>): map<Address, V> {
    if v.Some? then store[acl := v.value] else store
  }

  /** `publicKeyStorageGet`; `db` is null when there is no window. */
  method Get(db: KeyDatabase?, acl: Address) returns (r: CachedMaterial)
    ensures db == null ==> r == CachedMaterial(None, None)
    ensures db != null ==> r == CachedFor(db.publicKeyStore, db.paramsStore, acl)
  {
    if db == null {
      return CachedMaterial(None, None);
    }
    var publicKey := None;
    if acl in db.publicKeyStore {
      var pk := db.publicKeyStore[acl];
      publicKey := Some(PublicKeyView(pk.publicKeyId, pk.publicKey));
    }
    var publicParams := None;
    if acl in db.paramsStore {
      publicParams := Some(db.paramsStore[acl]);
    }
    r := CachedMaterial(publicKey, publicParams);
  }

  /** `publicKeyStorageSet`: each non-null argument is put into its own store. */
  method Set(db: KeyDatabase?, acl: Address, publicKey: Option<StoredPublicKey>,
             publicParams: Option<StoredPublicParams>)
    modifies db
    ensures db != null ==> db.publicKeyStore == PutIfPresent(old(db.publicKeyStore), acl, publicKey)
    ensures db != null ==> db.paramsStore == PutIfPresent(old(db.paramsStore), acl, publicParams)
  {
    if db == null {
      return;
    }
    if publicKey.Some? {
      db.publicKeyStore := db.publicKeyStore[acl := publicKey.value];
    }
    if publicParams.Some? {
      db.paramsStore := db.paramsStore[acl := publicParams.value];
    }
  }

  /**
   * After a set for `acl`, a read for `acl` returns what was set, for each
   * store whose argument was non-null, and what was there before otherwise;
   * reads for every other address are unchanged.
   */
  lemma GetAfterSet(keys: map<Address, StoredPublicKey>, params: map<Address, StoredPublicParams>,
                    acl: Address, pk: Option<StoredPublicKey>, pp: Option<StoredPublicParams>, other: Address)
    ensures var r := CachedFor(PutIfPresent(keys, acl, pk), PutIfPresent(params, acl, pp), acl);
            && r.publicKey == (if pk.Some? then Some(PublicKeyView(pk.value.publicKeyId, pk.value.publicKey))
                               else CachedFor(keys, params, acl).publicKey)
            && r.publicParams2048 == (if pp.Some? then pp else CachedFor(keys, params, acl).publicParams2048)
    ensures other != acl ==>
            CachedFor(PutIfPresent(keys, acl, pk), PutIfPresent(params, acl, pp), other) == CachedFor(keys, params, other)
  {
  }

  /** An unknown address has neither a key nor parameters. */
  lemma UnknownAddress(keys: map<Address, StoredPublicKey>, params: map<Address, StoredPublicParams>, acl: Address)
    requires acl !in keys && acl !in params
    ensures CachedFor(keys, params, acl) == CachedMaterial(None, None)
  {
  }

  /**
   * The stores are independent: the key read for an address depends only on
   * the key store and the parameters read only on the parameter store, so
   * either can be cached without the other.
   */
  lemma StoresAreIndependent(keys: map<Address, StoredPublicKey>, keys': map<Address, StoredPublicKey>,
                             params: map<Address, StoredPublicParams>, params': map<Address, StoredPublicParams>,
                             acl: Address)
    ensures CachedFor(keys, params, acl).publicKey == CachedFor(keys, params', acl).publicKey
    ensures CachedFor(keys, params, acl).publicParams2048 == CachedFor(keys', params, acl).publicParams2048
  {
  }
}
