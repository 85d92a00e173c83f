/**
 * The asset manager: two string-keyed hash tables of 200 buckets, one for ids that start
 * with '$' (static assets) and one for every other id (dynamic assets). Each bucket is a
 * chain of nodes; a chain is modelled as a sequence in chain order.
 */
module Assets {
  import opened Common

  const TableSize: nat := 200

  /** The asset type marking an asset the cleanup callback must not see. */
  const UnhandledAsset: nat := 255

  /** A `void*`; 0 is NULL. */
  type Address = nat

  const Null: Address := 0

  datatype AssetInfo = AssetInfo(assetType: nat, data: Address)

  /** A key the table does not own (safe) is shared with the caller; otherwise the table keeps a copy. */
  datatype Node = Node(key: seq<char>, value: AssetInfo, isSafeKey: bool)

  /**
   * djb2 over the key's character codes, wrapping at the width of size_t. A key is the text
   * before its NUL, so it holds no NUL; the C code reads it as unsigned bytes, which are the
   * character codes for the ASCII asset ids the program uses.
   */
  function Hash(key: seq<char>): (h: nat)
    ensures h < SizeModulus
  {
    if |key| == 0 then 5381
    else (Hash(key[..|key| - 1]) * 33 + key[|key| - 1] as int) % SizeModulus
  }

  /** The same polynomial without any wrapping: 5381 * 33^n plus each code times a power of 33. */
  function UnboundedHash(key: seq<char>): nat
  {
    if |key| == 0 then 5381
    else UnboundedHash(key[..|key| - 1]) * 33 + key[|key| - 1] as int
  }

  /** The wrapping hash is the unbounded polynomial reduced once, at the end. */
  lemma {:induction false} HashIsReducedPolynomial(key: seq<char>)
    ensures Hash(key) == UnboundedHash(key) % SizeModulus
  {
    if |key| > 0 {
      var prefix := key[..|key| - 1];
      HashIsReducedPolynomial(prefix);
      ReduceThenStep(UnboundedHash(prefix), key[|key| - 1] as int);
    }
  }

  lemma ReduceThenStep(a: nat, c: nat)
    ensures (a % SizeModulus * 33 + c) % SizeModulus == (a * 33 + c) % SizeModulus
  {
    var q, r := a / SizeModulus, a % SizeModulus;
    assert a * 33 + c == (q * 33) * SizeModulus + (r * 33 + c);
    ShiftByMultiple(r * 33 + c, q * 33);
  }

  lemma {:induction false} ShiftByMultiple(n: nat, k: nat)
    ensures (k * SizeModulus + n) % SizeModulus == n % SizeModulus
  {
    if k > 0 {
      ShiftByMultiple(n, k - 1);
      assert k * SizeModulus + n == (k - 1) * SizeModulus + n + SizeModulus;
    }
  }

  /** The bucket a key lives in. */
  function Bucket(key: seq<char>): (b: nat)
    ensures b < TableSize
  {
    Hash(key) % TableSize
  }

  /** The value stored under key in a chain: the first node with that key. */
  function ChainFind(chain: seq<Node>, key: seq<char>): (r: Option<AssetInfo>)
    ensures r.None? <==> forall i :: 0 <= i < |chain| ==> chain[i].key != key
  {
    if |chain| == 0 then None
    else if chain[0].key == key then Some(chain[0].value)
    else ChainFind(chain[1..], key)
  }

  /** The chain after setting key: the first node with that key gets the value, or a node is added at the end. */
  function ChainSet(chain: seq<Node>, isSafeKey: bool, key: seq<char>, value: AssetInfo): seq<Node>
  {
    if |chain| == 0 then [Node(key, value, isSafeKey)]
    else if chain[0].key == key then [chain[0].(value := value)] + chain[1..]
    else [chain[0]] + ChainSet(chain[1..], isSafeKey, key, value)
  }

  function TableFind(buckets: seq<seq<Node>>, key: seq<char>): Option<AssetInfo>
    requires |buckets| == TableSize
  {
    ChainFind(buckets[Bucket(key)], key)
  }

  function TableSet(buckets: seq<seq<Node>>, isSafeKey: bool, key: seq<char>, value: AssetInfo): seq<seq<Node>>
    requires |buckets| == TableSize
  {
    buckets[Bucket(key) := ChainSet(buckets[Bucket(key)], isSafeKey, key, value)]
  }

  /** assetman_table_get's result: the stored data, or NULL for a key not in the table. */
  function DataOf(r: Option<AssetInfo>): Address
  {
    if r.Some? then r.value.data else Null
  }

  function EmptyBuckets(): (bs: seq<seq<Node>>)
    ensures |bs| == TableSize && forall b :: 0 <= b < TableSize ==> bs[b] == []
  {
    seq(TableSize, _ => [])
  }

  /** A table with every bucket empty finds nothing: get gives NULL after init and after a clear. */
  lemma FindInEmpty(key: seq<char>)
    ensures TableFind(EmptyBuckets(), key).None? && DataOf(TableFind(EmptyBuckets(), key)) == Null
  {
  }

  /** Each node sits in its key's bucket and no key appears twice in a chain. */
  predicate WellFormed(buckets: seq<seq<Node>>)
  {
    |buckets| == TableSize
    && (forall b, i :: 0 <= b < TableSize && 0 <= i < |buckets[b]| ==> Bucket(buckets[b][i].key) == b)
    && (forall b, i, j :: 0 <= b < TableSize && 0 <= i < j < |buckets[b]| ==> buckets[b][i].key != buckets[b][j].key)
  }

  /** Setting a key that is already in the chain changes that node's value and nothing else. */
  lemma {:induction false} ChainSetExisting(chain: seq<Node>, isSafeKey: bool, key: seq<char>, value: AssetInfo, i: nat)
    requires i < |chain| && chain[i].key == key
    requires forall k :: 0 <= k < i ==> chain[k].key != key
    ensures ChainSet(chain, isSafeKey, key, value) == chain[i := chain[i].(value := value)]
  {
    if i > 0 {
      ChainSetExisting(chain[1..], isSafeKey, key, value, i - 1);
    }
  }

  /** Setting a key that is not in the chain adds one node at the end. */
  lemma {:induction false} ChainSetMissing(chain: seq<Node>, isSafeKey: bool, key: seq<char>, value: AssetInfo)
    requires forall k :: 0 <= k < |chain| ==> chain[k].key != key
    ensures ChainSet(chain, isSafeKey, key, value) == chain + [Node(key, value, isSafeKey)]
  {
    if |chain| > 0 {
      ChainSetMissing(chain[1..], isSafeKey, key, value);
    }
  }

  /** After a set, the key finds the new value. */
  lemma {:induction false} ChainSetThenFind(chain: seq<Node>, isSafeKey: bool, key: seq<char>, value: AssetInfo)
    ensures ChainFind(ChainSet(chain, isSafeKey, key, value), key) == Some(value)
  {
    if |chain| > 0 && chain[0].key != key {
      ChainSetThenFind(chain[1..], isSafeKey, key, value);
    }
  }

  /** A set leaves every other key's lookup as it was. */
  lemma {:induction false} ChainSetKeepsOthers(chain: seq<Node>, isSafeKey: bool, key: seq<char>, value: AssetInfo, other: seq<char>)
    requires other != key
    ensures ChainFind(ChainSet(chain, isSafeKey, key, value), other) == ChainFind(chain, other)
  {
    if |chain| > 0 && chain[0].key != key {
      ChainSetKeepsOthers(chain[1..], isSafeKey, key, value, other);
    }
  }

  /** After assetman_table_set, get finds the value just set and every other key what it found before. */
  lemma SetThenFind(buckets: seq<seq<Node>>, isSafeKey: bool, key: seq<char>, value: AssetInfo, other: seq<char>)
    requires |buckets| == TableSize
    ensures TableFind(TableSet(buckets, isSafeKey, key, value), key) == Some(value)
    ensures other != key ==>
      TableFind(TableSet(buckets, isSafeKey, key, value), other) == TableFind(buckets, other)
  {
    ChainSetThenFind(buckets[Bucket(key)], isSafeKey, key, value);
    if other != key && Bucket(other) == Bucket(key) {
      ChainSetKeepsOthers(buckets[Bucket(key)], isSafeKey, key, value, other);
    }
  }

  /** All nodes of a table, bucket by bucket, each chain in order. */
  function Nodes(buckets: seq<seq<Node>>): seq<Node>
  {
    if |buckets| == 0 then [] else Nodes(buckets[..|buckets| - 1]) + buckets[|buckets| - 1]
  }

  /** Setting an existing key adds no node; setting a new one adds exactly one. */
  lemma SetNodeCount(buckets: seq<seq<Node>>, isSafeKey: bool, key: seq<char>, value: AssetInfo)
    requires |buckets| == TableSize
    ensures TableFind(buckets, key).Some? ==> |Nodes(TableSet(buckets, isSafeKey, key, value))| == |Nodes(buckets)|
    ensures TableFind(buckets, key).None? ==> |Nodes(TableSet(buckets, isSafeKey, key, value))| == |Nodes(buckets)| + 1
  {
    var chain := buckets[Bucket(key)];
    var updated := ChainSet(chain, isSafeKey, key, value);
    if TableFind(buckets, key).Some? {
      var i := FirstWithKey(chain, key);
      ChainSetExisting(chain, isSafeKey, key, value, i);
      assert |updated| == |chain|;
    } else {
      ChainSetMissing(chain, isSafeKey, key, value);
    }
    NodesReplace(buckets, Bucket(key), updated);
  }

  lemma FirstWithKey(chain: seq<Node>, key: seq<char>) returns (i: nat)
    requires ChainFind(chain, key).Some?
    ensures i < |chain| && chain[i].key == key
    ensures forall k :: 0 <= k < i ==> chain[k].key != key
  {
    i := 0;
    while chain[i].key != key
      invariant i < |chain|
      invariant forall k :: 0 <= k < i ==> chain[k].key != key
      decreases |chain| - i
    {
      i := i + 1;
    }
  }

  /** Replacing one bucket changes the node count by the change in that bucket's length. */
  lemma {:induction false} NodesReplace(buckets: seq<seq<Node>>, b: nat, chain: seq<Node>)
    requires b < |buckets|
    ensures |Nodes(buckets[b := chain])| == |Nodes(buckets)| - |buckets[b]| + |chain|
  {
    var n := |buckets| - 1;
    if b < n {
      assert buckets[b := chain][..n] == buckets[..n][b := chain];
      NodesReplace(buckets[..n], b, chain);
    } else {
      assert buckets[b := chain][..n] == buckets[..n];
    }
  }

  /** Setting keeps each node in its bucket and each key once per chain. */
  lemma SetKeepsWellFormed(buckets: seq<seq<Node>>, isSafeKey: bool, key: seq<char>, value: AssetInfo)
    requires WellFormed(buckets)
    ensures WellFormed(TableSet(buckets, isSafeKey, key, value))
  {
    var b := Bucket(key);
    var chain := buckets[b];
    if ChainFind(chain, key).Some? {
      var i := FirstWithKey(chain, key);
      ChainSetExisting(chain, isSafeKey, key, value, i);
    } else {
      ChainSetMissing(chain, isSafeKey, key, value);
    }
  }

  /** The asset infos the cleanup callback receives for a list of nodes: those of a handled type. */
  function Handled(nodes: seq<Node>): (r: seq<AssetInfo>)
    ensures |r| <= |nodes|
    ensures forall i :: 0 <= i < |r| ==> r[i].assetType != UnhandledAsset
  {
    if |nodes| == 0 then []
    else
      var last := nodes[|nodes| - 1];
      Handled(nodes[..|nodes| - 1]) + (if last.value.assetType != UnhandledAsset then [last.value] else [])
  }

  lemma {:induction false} HandledConcat(a: seq<Node>, b: seq<Node>)
    ensures Handled(a + b) == Handled(a) + Handled(b)
    decreases |b|
  {
    if |b| > 0 {
      var n := |b| - 1;
      assert (a + b)[..|a + b| - 1] == a + b[..n];
      HandledConcat(a, b[..n]);
    } else {
      assert a + b == a;
    }
  }

  /** The callback is called once for every node of a handled type, and for no other. */
  lemma {:induction false} HandledCount(nodes: seq<Node>)
    ensures |Handled(nodes)| == |set i | 0 <= i < |nodes| && nodes[i].value.assetType != UnhandledAsset|
  {
    if |nodes| > 0 {
      var n := |nodes| - 1;
      HandledCount(nodes[..n]);
      var before := set i | 0 <= i < n && nodes[..n][i].value.assetType != UnhandledAsset;
      var after := set i | 0 <= i < |nodes| && nodes[i].value.assetType != UnhandledAsset;
      if nodes[n].value.assetType != UnhandledAsset {
        assert after == before + {n};
      } else {
        assert after == before;
      }
    }
  }

  /** assetman_table_t: 200 chains. */
  class AssetTable {
    const buckets: array<seq<Node>>

    ghost predicate Valid()
      reads buckets
    {
      buckets.Length == TableSize && WellFormed(buckets[..])
    }

    /** assetman_table_init: every bucket empty. */
    constructor ()
      ensures Valid() && buckets[..] == EmptyBuckets() && fresh(buckets)
    {
      buckets := new seq<Node>[TableSize](_ => []);
    }

    /** assetman_table_hash. */
    static method HashKey(key: seq<char>) returns (h: nat)
      ensures h == Hash(key)
    {
      h := 5381;
      var i := 0;
      while i < |key|
        invariant i <= |key|
        invariant h == Hash(key[..i])
      {
        assert key[..i + 1][..i] == key[..i];
        h := (h * 33 + key[i] as int) % SizeModulus;
        i := i + 1;
      }
      assert key[..|key|] == key;
    }

    /** assetman_table_set: walks the key's chain, replaces the value of the node with that key, or appends one. */
    method Set(isSafeKey: bool, key: seq<char>, value: AssetInfo)
      requires Valid()
      modifies buckets
      ensures Valid()
      ensures buckets[..] == TableSet(old(buckets[..]), isSafeKey, key, value)
    {
      var h := HashKey(key);
      h := h % TableSize;
      var chain := buckets[h];
      var i := 0;
      while i < |chain|
        invariant i <= |chain|
        invariant forall k :: 0 <= k < i ==> chain[k].key != key
      {
        if chain[i].key == key {
          ChainSetExisting(chain, isSafeKey, key, value, i);
          SetKeepsWellFormed(buckets[..], isSafeKey, key, value);
          buckets[h] := chain[i := chain[i].(value := value)];
          return;
        }
        i := i + 1;
      }
      ChainSetMissing(chain, isSafeKey, key, value);
      SetKeepsWellFormed(buckets[..], isSafeKey, key, value);
      buckets[h] := chain + [Node(key, value, isSafeKey)];
    }

    /** assetman_table_get: the data of the node with that key, or NULL. */
    method Get(key: seq<char>) returns (data: Address)
      requires Valid()
      ensures data == DataOf(TableFind(buckets[..], key))
    {
      var h := HashKey(key);
      h := h % TableSize;
      var chain := buckets[h];
      var i := 0;
      while i < |chain|
        invariant i <= |chain|
        invariant ChainFind(chain, key) == ChainFind(chain[i..], key)
      {
        if chain[i].key == key {
          return chain[i].value.data;
        }
        assert chain[i..][1..] == chain[i + 1..];
        i := i + 1;
      }
      return Null;
    }

    /** assetman_table_clear: hands every handled asset to the cleanup callback, then empties every bucket. */
    method Clear() returns (cleaned: seq<AssetInfo>)
      requires Valid()
      modifies buckets
      ensures Valid() && buckets[..] == EmptyBuckets()
      ensures cleaned == Handled(Nodes(old(buckets[..])))
    {
      cleaned := CollectAllHandled();
      Reset();
    }

    /** The walk of assetman_table_clear: the handled assets of every bucket, bucket by bucket. */
    method CollectAllHandled() returns (cleaned: seq<AssetInfo>)
      requires Valid()
      ensures cleaned == Handled(Nodes(buckets[..]))
    {
      cleaned := [];
      var b := 0;
      while b < TableSize
        invariant b <= TableSize
        invariant cleaned == Handled(Nodes(buckets[..b]))
      {
        var chain := buckets[b];
        var handled := CollectHandled(chain);
        HandledConcat(Nodes(buckets[..b]), chain);
        assert buckets[..b + 1][..b] == buckets[..b];
        cleaned := cleaned + handled;
        b := b + 1;
      }
      assert buckets[..TableSize] == buckets[..];
    }

    /** The re-initialisation that ends assetman_table_clear: every bucket empty. */
    method Reset()
      requires buckets.Length == TableSize
      modifies buckets
      ensures Valid() && buckets[..] == EmptyBuckets()
    {
      forall k | 0 <= k < TableSize {
        buckets[k] := [];
      }
      assert buckets[..] == EmptyBuckets();
    }
  }

  /** One bucket's walk in assetman_table_clear: the handled assets of the chain, in chain order. */
  method CollectHandled(chain: seq<Node>) returns (handled: seq<AssetInfo>)
    ensures handled == Handled(chain)
  {
    handled := [];
    var i := 0;
    while i < |chain|
      invariant i <= |chain|
      invariant handled == Handled(chain[..i])
    {
      assert chain[..i + 1][..i] == chain[..i];
      if chain[i].value.assetType != UnhandledAsset {
        handled := handled + [chain[i].value];
      }
      i := i + 1;
    }
    assert chain[..|chain|] == chain;
  }

  /** The id routing of assetman_set_asset and assetman_get_asset: a leading '$' selects the static table. */
  predicate IsStaticId(id: seq<char>)
  {
    |id| > 0 && id[0] == '$'
  }

  /** assetman_t, a single zero-initialised manager. */
  class AssetManager {
    var wasInitialized: bool
    /** The cleanup callback, as the handle it was registered with. */
    var cleanupFunction: Address
    const staticAssets: AssetTable
    const dynamicAssets: AssetTable

    ghost predicate Valid()
      reads staticAssets.buckets, dynamicAssets.buckets
    {
      staticAssets.buckets != dynamicAssets.buckets && staticAssets.Valid() && dynamicAssets.Valid()
    }

    /** Zero-initialised storage: not initialised, both tables empty. */
    constructor ()
      ensures Valid() && !wasInitialized
      ensures staticAssets.buckets[..] == EmptyBuckets() && dynamicAssets.buckets[..] == EmptyBuckets()
    {
      wasInitialized := false;
      cleanupFunction := Null;
      staticAssets := new AssetTable();
      dynamicAssets := new AssetTable();
    }

    /** assetman_init: refuses when already initialised; otherwise registers the callback and empties both tables. */
    method Init(cleanup: Address) returns (ok: bool)
      requires Valid()
      modifies this, staticAssets.buckets, dynamicAssets.buckets
      ensures Valid()
      ensures ok <==> !old(wasInitialized)
      ensures !ok ==> (wasInitialized == old(wasInitialized) && cleanupFunction == old(cleanupFunction)
        && unchanged(staticAssets.buckets) && unchanged(dynamicAssets.buckets))
      ensures ok ==> (wasInitialized && cleanupFunction == cleanup
        && staticAssets.buckets[..] == EmptyBuckets() && dynamicAssets.buckets[..] == EmptyBuckets())
    {
      if wasInitialized {
        return false;
      }
      wasInitialized := true;
      cleanupFunction := cleanup;
      forall k | 0 <= k < TableSize {
        staticAssets.buckets[k] := [];
      }
      forall k | 0 <= k < TableSize {
        dynamicAssets.buckets[k] := [];
      }
      assert staticAssets.buckets[..] == EmptyBuckets();
      assert dynamicAssets.buckets[..] == EmptyBuckets();
      return true;
    }

    /** assetman_set_asset: sets the id in the table its first character selects. */
    method SetAsset(isIdSafe: bool, id: seq<char>, assetType: nat, data: Address)
      requires Valid()
      modifies staticAssets.buckets, dynamicAssets.buckets
      ensures Valid()
      ensures IsStaticId(id) ==> (unchanged(dynamicAssets.buckets)
        && staticAssets.buckets[..] == TableSet(old(staticAssets.buckets[..]), isIdSafe, id, AssetInfo(assetType, data)))
      ensures !IsStaticId(id) ==> (unchanged(staticAssets.buckets)
        && dynamicAssets.buckets[..] == TableSet(old(dynamicAssets.buckets[..]), isIdSafe, id, AssetInfo(assetType, data)))
    {
      var target := if IsStaticId(id) then staticAssets else dynamicAssets;
      target.Set(isIdSafe, id, AssetInfo(assetType, data));
    }

    /** assetman_get_asset: looks the id up in the table its first character selects. */
    method GetAsset(id: seq<char>) returns (data: Address)
      requires Valid()
      ensures IsStaticId(id) ==> data == DataOf(TableFind(staticAssets.buckets[..], id))
      ensures !IsStaticId(id) ==> data == DataOf(TableFind(dynamicAssets.buckets[..], id))
    {
      var target := if IsStaticId(id) then staticAssets else dynamicAssets;
      data := target.Get(id);
    }

    /** assetman_free_static_assets: refuses when not initialised. */
    method FreeStaticAssets() returns (ok: bool, cleaned: seq<AssetInfo>)
      requires Valid()
      modifies staticAssets.buckets
      ensures Valid() && ok == wasInitialized
      ensures !ok ==> cleaned == [] && unchanged(staticAssets.buckets)
      ensures ok ==> (staticAssets.buckets[..] == EmptyBuckets()
        && cleaned == Handled(Nodes(old(staticAssets.buckets[..]))))
    {
      if !wasInitialized {
        return false, [];
      }
      cleaned := staticAssets.Clear();
      ok := true;
    }

    /** assetman_free_dynamic_assets: refuses when not initialised. */
    method FreeDynamicAssets() returns (ok: bool, cleaned: seq<AssetInfo>)
      requires Valid()
      modifies dynamicAssets.buckets
      ensures Valid() && ok == wasInitialized
      ensures !ok ==> cleaned == [] && unchanged(dynamicAssets.buckets)
      ensures ok ==> (dynamicAssets.buckets[..] == EmptyBuckets()
        && cleaned == Handled(Nodes(old(dynamicAssets.buckets[..]))))
    {
      if !wasInitialized {
        return false, [];
      }
      cleaned := dynamicAssets.Clear();
      ok := true;
    }

    /** assetman_finish: refuses when not initialised; may free both tables, static first; then clears the flag. */
    method Finish(freeLeftOverAssets: bool) returns (ok: bool, cleaned: seq<AssetInfo>)
      requires Valid()
      modifies this, staticAssets.buckets, dynamicAssets.buckets
      ensures Valid()
      ensures ok == old(wasInitialized) && !wasInitialized && cleanupFunction == old(cleanupFunction)
      ensures !(ok && freeLeftOverAssets) ==> (cleaned == []
        && unchanged(staticAssets.buckets) && unchanged(dynamicAssets.buckets))
      ensures ok && freeLeftOverAssets ==>
        staticAssets.buckets[..] == EmptyBuckets() && dynamicAssets.buckets[..] == EmptyBuckets()
        && cleaned == Handled(Nodes(old(staticAssets.buckets[..]))) + Handled(Nodes(old(dynamicAssets.buckets[..])))
    {
      if !wasInitialized {
        return false, [];
      }
      cleaned := [];
      if freeLeftOverAssets {
        var _, first := FreeStaticAssets();
        var _, second := FreeDynamicAssets();
        cleaned := first + second;
      }
      wasInitialized := false;
      ok := true;
    }
  }
}
