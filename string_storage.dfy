/**
 * GenericStringStorage: a namespaced view of the browser's localStorage.
 * Every item `key` of a storage with namespace `ns` lives in localStorage under
 * the physical key `ns + ":" + key`. Outside a browser (no `window`) reads find
 * nothing and writes are dropped.
 */
module StringStorage {
  import opened Wrappers

  /** The namespace a storage gets when its constructor is given none. */
  const DefaultNamespace: string := "fhevm"

  /** The physical localStorage key of item `key` in namespace `ns`. */
  function PhysicalKey(ns: string, key: string): string {
    ns + ":" + key
  }

  /** What localStorage holds for item `key` of namespace `ns`. */
  function Lookup(entries: map<string, string>, ns: string, key: string): Option<string> {
    var k := PhysicalKey(ns, key);
    if k in entries then Some(entries[k]) else None
  }

  /** localStorage after item `key` of namespace `ns` is set to `value`. */
  function Put(entries: map<string, string>, ns: string, key: string, value: string): map<string, string> {
    entries[PhysicalKey(ns, key) := value]
  }

  /** The browser's localStorage: one flat table shared by every storage object. */
  class LocalStorage {
    var entries: map<string, string>

    constructor ()
      ensures entries == map[]
    {
      entries := map[];
    }
  }

  class GenericStringStorage {
    const ns: string
    /** The page's localStorage, or null when there is no `window`. */
    const window: LocalStorage?

    constructor (ns: string, window: LocalStorage?)
      ensures this.ns == ns && this.window == window
    {
      this.ns := ns;
      this.window := window;
    }

    /** `getItem`: the stored string, or null. */
    method GetItem(key: string) returns (r: Option<string>)
      ensures window == null ==> r == None
      ensures window != null ==> r == Lookup(window.entries, ns, key)
    {
      if window == null {
        return None;
      }
      var k := PhysicalKey(ns, key);
      r := if k in window.entries then Some(window.entries[k]) else None;
    }

    /** `setItem`: stores `value`; without a window nothing changes. */
    method SetItem(key: string, value: string)
      modifies window
      ensures window != null ==> window.entries == Put(old(window.entries), ns, key, value)
    {
      if window == null {
        return;
      }
      window.entries := window.entries[PhysicalKey(ns, key) := value];
    }
  }

  /** A set item reads back, and a later set of the same item overwrites it. */
  lemma GetAfterSet(entries: map<string, string>, ns: string, key: string, v: string, w: string)
    ensures Lookup(Put(entries, ns, key, v), ns, key) == Some(v)
    ensures Put(Put(entries, ns, key, v), ns, key, w) == Put(entries, ns, key, w)
  {
  }

  /**
   * Setting one item changes the value read for another item exactly when the
   * two share a physical key; namespaces are not escaped, so sharing the
   * physical key is the only thing that matters.
   */
  lemma SetChangesOnlyItsSlot(entries: map<string, string>, ns: string, key: string, v: string,
                              ns': string, key': string)
    ensures Lookup(entries, ns', key') != Some(v) ==>
              (Lookup(Put(entries, ns, key, v), ns', key') == Some(v)) == (PhysicalKey(ns, key) == PhysicalKey(ns', key'))
    ensures PhysicalKey(ns, key) != PhysicalKey(ns', key') ==>
              Lookup(Put(entries, ns, key, v), ns', key') == Lookup(entries, ns', key')
  {
  }

  /**
   * Because namespaces are not escaped, a key with a colon in namespace `ns`
   * shares its slot with a different (namespace, key) pair: namespace
   * `ns:a` with key `b` (for example `fhevm` with `vote:k` and `fhevm:vote` with `k`).
   */
  lemma NamespacesCanCollide(ns: string, a: string, b: string)
    ensures PhysicalKey(ns, a + ":" + b) == PhysicalKey(ns + ":" + a, b)
    ensures ns != ns + ":" + a
  {
    assert ns + ":" + (a + ":" + b) == (ns + ":" + a) + ":" + b;
  }

  /** Namespaces without a colon never share a slot unless namespace and key both agree. */
  lemma ColonFreeNamespacesAreSeparate(ns: string, key: string, ns': string, key': string)
    requires ':' !in ns && ':' !in ns'
    ensures PhysicalKey(ns, key) == PhysicalKey(ns', key') <==> ns == ns' && key == key'
  {
    var p, p' := PhysicalKey(ns, key), PhysicalKey(ns', key');
    if p == p' {
      SeparatorIsFirstColon(ns, key);
      SeparatorIsFirstColon(ns', key');
      assert ns == p[..|ns|] == p'[..|ns|] == ns';
      assert key == p[|ns| + 1..] == p'[|ns| + 1..] == key';
    }
  }

  /** The position of the first colon in `s`, or |s| when there is none. */
  function FirstColon(s: string): (i: nat)
    ensures i <= |s|
  {
    if |s| == 0 || s[0] == ':' then 0 else 1 + FirstColon(s[1..])
  }

  /** In a physical key, the first colon is the separator whenever the namespace has none. */
  lemma {:induction false} SeparatorIsFirstColon(ns: string, key: string)
    requires ':' !in ns
    ensures FirstColon(PhysicalKey(ns, key)) == |ns|
  {
    if |ns| > 0 {
      assert PhysicalKey(ns, key)[1..] == PhysicalKey(ns[1..], key);
      SeparatorIsFirstColon(ns[1..], key);
    }
  }

  /** Within one namespace, distinct items have distinct physical keys. */
  lemma SameNamespaceSeparate(ns: string, key: string, key': string)
    ensures PhysicalKey(ns, key) == PhysicalKey(ns, key') <==> key == key'
  {
    if PhysicalKey(ns, key) == PhysicalKey(ns, key') {
      assert PhysicalKey(ns, key)[|ns| + 1..] == key;
      assert PhysicalKey(ns, key')[|ns| + 1..] == key';
    }
  }

  /** When `after` is `before` or `before` with item `key` set, every other item of the namespace reads the same. */
  lemma OnlyOwnSlotChanges(before: map<string, string>, after: map<string, string>, ns: string, key: string)
    requires after == before || exists v :: after == Put(before, ns, key, v)
    ensures forall k | k != key :: Lookup(after, ns, k) == Lookup(before, ns, k)
  {
    forall k | k != key
      ensures Lookup(after, ns, k) == Lookup(before, ns, k)
    {
      SameNamespaceSeparate(ns, key, k);
    }
  }

  /** The two namespaces the application uses, the default one and the vote app's, are disjoint. */
  lemma ApplicationNamespacesDisjoint(key: string, key': string)
    ensures PhysicalKey(DefaultNamespace, key) != PhysicalKey("fhevm-vote", key')
  {
    ColonFreeNamespacesAreSeparate(DefaultNamespace, key, "fhevm-vote", key');
  }
}
