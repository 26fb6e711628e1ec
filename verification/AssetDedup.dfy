/** Uploading assets without storing the same bytes twice: the engine's listing of a node, and the
    cache with a time to live that speeds it up. */
module AssetDedup {
  import opened Text

  type Id = string
  type Path = string
  type Bytes = string
  type Hash = string

  /** Cached paths of one node, by hash, valid until a point in time. */
  datatype Bucket = Bucket(expiresAt: int, values: map<Hash, Path>)

  type Cache = map<Id, Bucket>

  // ---- The cache ----

  /** The buckets that have not expired. */
  function Swept(cache: Cache, now: int): Cache {
    map id | id in cache && cache[id].expiresAt > now :: cache[id]
  }

  function ValuesOf(cache: Cache, id: Id): map<Hash, Path> {
    if id in cache then cache[id].values else map[]
  }

  function WithEntry(cache: Cache, id: Id, hash: Hash, path: Path, now: int, ttl: int): Cache {
    var live := Swept(cache, now);
    live[id := Bucket(now + ttl, ValuesOf(live, id)[hash := path])]
  }

  datatype Entry = Entry(hash: Hash, path: Path)

  /** Later entries win, as when a map is built from a list. */
  function MapOf(entries: seq<Entry>): map<Hash, Path> {
    if entries == [] then map[]
    else
      var last := entries[|entries| - 1];
      MapOf(entries[..|entries| - 1])[last.hash := last.path]
  }

  class DedupStore {
    var entries: Cache
    const ttl: int

    constructor (ttl: int)
      ensures entries == map[] && this.ttl == ttl
    {
      entries := map[];
      this.ttl := ttl;
    }

    /** Drops every expired bucket and says how many there were. */
    method CleanupExpired(now: int) returns (deleted: nat)
      modifies this
      ensures entries == Swept(old(entries), now)
      ensures deleted == |old(entries)| - |entries|
    {
      deleted := 0;
      var left := entries.Keys;
      while left != {}
        invariant left <= old(entries).Keys
        invariant forall id: Id :: id in entries <==> id in old(entries) && (id in left || old(entries)[id].expiresAt > now)
        invariant forall id <- entries :: entries[id] == old(entries)[id]
        invariant deleted == |old(entries)| - |entries|
        decreases |left|
      {
        var id :| id in left;
        left := left - {id};
        if entries[id].expiresAt > now {
          continue;
        }
        assert entries.Keys == (entries - {id}).Keys + {id};
        entries := entries - {id};
        deleted := deleted + 1;
      }
    }

    method Get(id: Id, hash: Hash, now: int) returns (path: Option<Path>)
      modifies this
      ensures entries == Swept(old(entries), now)
      ensures path == if hash in ValuesOf(entries, id) then Some(ValuesOf(entries, id)[hash]) else None
    {
      var _ := CleanupExpired(now);
      path := if id in entries && hash in entries[id].values then Some(entries[id].values[hash]) else None;
    }

    method GetAll(id: Id, now: int) returns (values: map<Hash, Path>)
      modifies this
      ensures entries == Swept(old(entries), now) && values == ValuesOf(entries, id)
    {
      var _ := CleanupExpired(now);
      values := if id in entries then entries[id].values else map[];
    }

    method Set(id: Id, hash: Hash, path: Path, now: int)
      modifies this
      ensures entries == WithEntry(old(entries), id, hash, path, now, ttl)
    {
      var _ := CleanupExpired(now);
      if id !in entries {
        entries := entries[id := Bucket(now + ttl, map[])];
      }
      var bucket := entries[id];
      entries := entries[id := Bucket(now + ttl, bucket.values[hash := path])];
    }

    method ReplaceAll(id: Id, list: seq<Entry>, now: int)
      modifies this
      ensures entries == old(entries)[id := Bucket(now + ttl, MapOf(list))]
    {
      entries := entries[id := Bucket(now + ttl, MapOf(list))];
    }
  }

  // ---- Uploading ----

  datatype Asset = Asset(path: Path, bytes: Bytes)

  /** The assets the engine stores for each node, in listing order, and the cache. */
  datatype State = State(assets: map<Id, seq<Asset>>, cache: Cache)

  function AssetsOf(s: State, id: Id): seq<Asset> {
    if id in s.assets then s.assets[id] else []
  }

  function EntriesOf(assets: seq<Asset>, hash: Bytes -> Hash): (r: seq<Entry>)
    ensures |r| == |assets|
    ensures forall i | 0 <= i < |r| :: r[i] == Entry(hash(assets[i].bytes), assets[i].path)
  {
    if assets == [] then []
    else [Entry(hash(assets[0].bytes), assets[0].path)] + EntriesOf(assets[1..], hash)
  }

  function FindEntry(entries: seq<Entry>, hash: Hash): Option<Path> {
    if entries == [] then None
    else if entries[0].hash == hash then Some(entries[0].path)
    else FindEntry(entries[1..], hash)
  }

  /** The moments at which an upload looks at the clock. */
  datatype Clocks = Clocks(get: int, getAll: int, replaceAll: int, set_: int)

  /** What the engine does with the file, if it comes to that. */
  datatype Answer = Accepted(path: Path) | Refused

  datatype Upload = Upload(id: Id, bytes: Bytes, clocks: Clocks, answer: Answer)

  function Uploaded(s: State, u: Upload, hash: Bytes -> Hash, ttl: int): (State, Option<Path>) {
    var h := hash(u.bytes);
    var c1 := Swept(s.cache, u.clocks.get);
    if h in ValuesOf(c1, u.id) then (s.(cache := c1), Some(ValuesOf(c1, u.id)[h]))
    else
      var c2 := Swept(c1, u.clocks.getAll);
      if h in ValuesOf(c2, u.id) then
        var path := ValuesOf(c2, u.id)[h];
        (s.(cache := WithEntry(c2, u.id, h, path, u.clocks.set_, ttl)), Some(path))
      else
        var entries := EntriesOf(AssetsOf(s, u.id), hash);
        var c3 := c2[u.id := Bucket(u.clocks.replaceAll + ttl, MapOf(entries))];
        match FindEntry(entries, h)
        case Some(path) => (s.(cache := WithEntry(c3, u.id, h, path, u.clocks.set_, ttl)), Some(path))
        case None =>
          match u.answer
          case Refused => (s.(cache := c3), None)
          case Accepted(path) =>
            (State(s.assets[u.id := AssetsOf(s, u.id) + [Asset(path, u.bytes)]],
                   WithEntry(c3, u.id, h, path, u.clocks.set_, ttl)),
             Some(path))
  }

  class AssetService {
    const store: DedupStore
    const hash: Bytes -> Hash
    var assets: map<Id, seq<Asset>>

    constructor (store: DedupStore, hash: Bytes -> Hash)
      ensures this.store == store && this.hash == hash && assets == map[]
    {
      this.store, this.hash, assets := store, hash, map[];
    }

    ghost function StateNow(): State
      reads this, store
    {
      State(assets, store.entries)
    }

    /** Hashes every stored asset of a node. */
    method BuildAssetDedupEntries(id: Id) returns (entries: seq<Entry>)
      ensures entries == EntriesOf(AssetsOf(StateNow(), id), hash)
    {
      var leaves := if id in assets then assets[id] else [];
      entries := [];
      for i := 0 to |leaves|
        invariant |entries| == i
        invariant forall j | 0 <= j < i :: entries[j] == Entry(hash(leaves[j].bytes), leaves[j].path)
      {
        entries := entries + [Entry(hash(leaves[i].bytes), leaves[i].path)];
      }
    }

    method FindDuplicateAssetByHash(id: Id, h: Hash, clocks: Clocks) returns (path: Option<Path>)
      modifies store
      ensures var c2 := Swept(old(store.entries), clocks.getAll);
              if h in ValuesOf(c2, id) then store.entries == c2 && path == Some(ValuesOf(c2, id)[h])
              else
                var list := EntriesOf(AssetsOf(old(StateNow()), id), hash);
                && store.entries == c2[id := Bucket(clocks.replaceAll + store.ttl, MapOf(list))]
                && path == FindEntry(list, h)
    {
      var cached := store.GetAll(id, clocks.getAll);
      if h in cached {
        return Some(cached[h]);
      }
      var list := BuildAssetDedupEntries(id);
      store.ReplaceAll(id, list, clocks.replaceAll);
      path := FindEntry(list, h);
    }

    method UploadAsset(u: Upload) returns (path: Option<Path>)
      modifies this, store
      ensures (StateNow(), path) == Uploaded(old(StateNow()), u, hash, store.ttl)
    {
      hide Swept, WithEntry, MapOf, EntriesOf, FindEntry;
      var h := hash(u.bytes);
      path := store.Get(u.id, h, u.clocks.get);
      if path.Some? {
        return;
      }
      path := FindDuplicateAssetByHash(u.id, h, u.clocks);
      if path.Some? {
        store.Set(u.id, h, path.value, u.clocks.set_);
        return;
      }
      if u.answer.Refused? {
        return;
      }
      path := Some(u.answer.path);
      assets := assets[u.id := (if u.id in assets then assets[u.id] else []) + [Asset(u.answer.path, u.bytes)]];
      store.Set(u.id, h, u.answer.path, u.clocks.set_);
    }
  }

  // ---- Every run ----

  ghost predicate StoredWithHash(assets: seq<Asset>, hash: Bytes -> Hash, h: Hash, path: Path) {
    exists a <- assets :: a.path == path && hash(a.bytes) == h
  }

  ghost predicate DistinctHashes(assets: seq<Asset>, hash: Bytes -> Hash) {
    forall i, j | 0 <= i < j < |assets| :: hash(assets[i].bytes) != hash(assets[j].bytes)
  }

  /** No node stores two assets with one hash, and every cached path, expired or not, names a
      stored asset with the hash it is cached under. */
  ghost predicate Inv(s: State, hash: Bytes -> Hash) {
    && (forall id <- s.assets :: DistinctHashes(s.assets[id], hash))
    && (forall id <- s.cache :: CacheIsTrue(s, id, s.cache[id].values, hash))
  }

  ghost predicate CacheIsTrue(s: State, id: Id, values: map<Hash, Path>, hash: Bytes -> Hash) {
    forall h <- values :: StoredWithHash(AssetsOf(s, id), hash, h, values[h])
  }

  lemma {:induction false} MapOfIsTrue(s: State, id: Id, entries: seq<Entry>, hash: Bytes -> Hash)
    requires forall e <- entries :: StoredWithHash(AssetsOf(s, id), hash, e.hash, e.path)
    ensures CacheIsTrue(s, id, MapOf(entries), hash)
  {
    if entries != [] {
      MapOfIsTrue(s, id, entries[..|entries| - 1], hash);
    }
  }

  lemma ListingIsTrue(s: State, id: Id, hash: Bytes -> Hash)
    ensures CacheIsTrue(s, id, MapOf(EntriesOf(AssetsOf(s, id), hash)), hash)
  {
    var assets := AssetsOf(s, id);
    var entries := EntriesOf(assets, hash);
    forall i | 0 <= i < |entries| ensures StoredWithHash(assets, hash, entries[i].hash, entries[i].path) {
      assert assets[i] in assets;
    }
    MapOfIsTrue(s, id, entries, hash);
  }

  lemma {:induction false} FindEntryFinds(entries: seq<Entry>, hash: Hash)
    ensures
      match FindEntry(entries, hash)
      case Some(path) => exists e <- entries :: e.hash == hash && e.path == path
      case None => forall e <- entries :: e.hash != hash
  {
    if entries != [] && entries[0].hash != hash {
      FindEntryFinds(entries[1..], hash);
      if FindEntry(entries[1..], hash).Some? {
        var e :| e in entries[1..] && e.hash == hash && e.path == FindEntry(entries[1..], hash).value;
        assert e in entries;
      }
    }
  }

  /** The listing of a node contains a hash exactly if some stored asset has it. */
  lemma ListingFinds(s: State, id: Id, hash: Bytes -> Hash, h: Hash)
    ensures
      match FindEntry(EntriesOf(AssetsOf(s, id), hash), h)
      case Some(path) => StoredWithHash(AssetsOf(s, id), hash, h, path)
      case None => forall a <- AssetsOf(s, id) :: hash(a.bytes) != h
  {
    var assets := AssetsOf(s, id);
    var entries := EntriesOf(assets, hash);
    FindEntryFinds(entries, h);
    match FindEntry(entries, h)
    case Some(path) =>
      var e :| e in entries && e.hash == h && e.path == path;
      var i :| 0 <= i < |entries| && entries[i] == e;
      assert assets[i] in assets;
    case None =>
      forall i | 0 <= i < |assets| ensures hash(assets[i].bytes) != h {
        assert entries[i] in entries;
      }
  }

  lemma SweptIsTrue(s: State, now: int, hash: Bytes -> Hash)
    requires Inv(s, hash)
    ensures Inv(s.(cache := Swept(s.cache, now)), hash)
  {
    var t := s.(cache := Swept(s.cache, now));
    forall id | id in t.cache ensures CacheIsTrue(t, id, t.cache[id].values, hash) {
      assert CacheIsTrue(s, id, s.cache[id].values, hash);
      assert AssetsOf(t, id) == AssetsOf(s, id);
    }
  }

  lemma BucketIsTrue(s: State, id: Id, bucket: Bucket, hash: Bytes -> Hash)
    requires Inv(s, hash) && CacheIsTrue(s, id, bucket.values, hash)
    ensures Inv(s.(cache := s.cache[id := bucket]), hash)
  {
    var t := s.(cache := s.cache[id := bucket]);
    forall n | n in t.cache ensures CacheIsTrue(t, n, t.cache[n].values, hash) {
      assert AssetsOf(t, n) == AssetsOf(s, n);
      if n != id {
        assert CacheIsTrue(s, n, s.cache[n].values, hash);
      }
    }
  }

  lemma EntryIsTrue(s: State, id: Id, h: Hash, path: Path, now: int, ttl: int, hash: Bytes -> Hash)
    requires Inv(s, hash) && StoredWithHash(AssetsOf(s, id), hash, h, path)
    ensures Inv(s.(cache := WithEntry(s.cache, id, h, path, now, ttl)), hash)
  {
    SweptIsTrue(s, now, hash);
    var t := s.(cache := Swept(s.cache, now));
    var values := ValuesOf(t.cache, id)[h := path];
    assert AssetsOf(t, id) == AssetsOf(s, id);
    assert CacheIsTrue(t, id, values, hash) by {
      if id in t.cache {
        assert CacheIsTrue(t, id, t.cache[id].values, hash);
      }
    }
    BucketIsTrue(t, id, Bucket(now + ttl, values), hash);
  }

  lemma StoringIsTrue(s: State, id: Id, asset: Asset, hash: Bytes -> Hash)
    requires Inv(s, hash) && forall a <- AssetsOf(s, id) :: hash(a.bytes) != hash(asset.bytes)
    ensures Inv(s.(assets := s.assets[id := AssetsOf(s, id) + [asset]]), hash)
    ensures StoredWithHash(AssetsOf(s, id) + [asset], hash, hash(asset.bytes), asset.path)
  {
    var t := s.(assets := s.assets[id := AssetsOf(s, id) + [asset]]);
    var grown := AssetsOf(s, id) + [asset];
    assert grown[|grown| - 1] == asset && asset in grown;
    assert forall a <- AssetsOf(s, id) :: a in grown;
    assert DistinctHashes(AssetsOf(s, id), hash);
    forall n | n in t.cache ensures CacheIsTrue(t, n, t.cache[n].values, hash) {
      assert CacheIsTrue(s, n, s.cache[n].values, hash);
      forall h | h in t.cache[n].values ensures StoredWithHash(AssetsOf(t, n), hash, h, t.cache[n].values[h]) {
        var a :| a in AssetsOf(s, n) && a.path == t.cache[n].values[h] && hash(a.bytes) == h;
        assert a in AssetsOf(t, n);
      }
    }
  }

  /** What one upload does: if some asset of the node has the hash of the bytes, nothing is stored
      and the path of such an asset is returned; otherwise the file is stored, unless the engine
      refuses it, and its new path is returned. The cache, whatever has expired in it and whenever,
      makes no difference. */
  lemma UploadIsDeduplicated(s: State, u: Upload, hash: Bytes -> Hash, ttl: int)
    requires Inv(s, hash)
    ensures var (t, path) := Uploaded(s, u, hash, ttl);
            && Inv(t, hash)
            && if exists a <- AssetsOf(s, u.id) :: hash(a.bytes) == hash(u.bytes) then
                 && t.assets == s.assets && path.Some?
                 && StoredWithHash(AssetsOf(s, u.id), hash, hash(u.bytes), path.value)
               else if u.answer.Refused? then t.assets == s.assets && path.None?
               else
                 && t.assets == s.assets[u.id := AssetsOf(s, u.id) + [Asset(u.answer.path, u.bytes)]]
                 && path == Some(u.answer.path)
  {
    hide Inv, DistinctHashes, Swept, WithEntry, MapOf, EntriesOf, FindEntry;
    var h := hash(u.bytes);
    var s1 := s.(cache := Swept(s.cache, u.clocks.get));
    var s2 := s1.(cache := Swept(s1.cache, u.clocks.getAll));
    SweptIsTrue(s, u.clocks.get, hash);
    SweptIsTrue(s1, u.clocks.getAll, hash);
    if h in ValuesOf(s1.cache, u.id) {
      InvMeans(s1, hash, u.id);
    } else if h in ValuesOf(s2.cache, u.id) {
      InvMeans(s2, hash, u.id);
      EntryIsTrue(s2, u.id, h, ValuesOf(s2.cache, u.id)[h], u.clocks.set_, ttl, hash);
    } else {
      var entries := EntriesOf(AssetsOf(s, u.id), hash);
      var bucket := Bucket(u.clocks.replaceAll + ttl, MapOf(entries));
      var s3 := s2.(cache := s2.cache[u.id := bucket]);
      assert AssetsOf(s2, u.id) == AssetsOf(s, u.id) == AssetsOf(s3, u.id);
      ListingIsTrue(s2, u.id, hash);
      BucketIsTrue(s2, u.id, bucket, hash);
      ListingFinds(s, u.id, hash, h);
      match FindEntry(entries, h)
      case Some(path) => EntryIsTrue(s3, u.id, h, path, u.clocks.set_, ttl, hash);
      case None =>
        if u.answer.Accepted? {
          var asset := Asset(u.answer.path, u.bytes);
          StoringIsTrue(s3, u.id, asset, hash);
          var s4 := s3.(assets := s3.assets[u.id := AssetsOf(s3, u.id) + [asset]]);
          assert AssetsOf(s4, u.id) == AssetsOf(s3, u.id) + [asset];
          EntryIsTrue(s4, u.id, h, u.answer.path, u.clocks.set_, ttl, hash);
        }
    }
  }

  lemma InvMeans(s: State, hash: Bytes -> Hash, id: Id)
    requires Inv(s, hash)
    ensures forall h <- ValuesOf(s.cache, id) :: StoredWithHash(AssetsOf(s, id), hash, h, ValuesOf(s.cache, id)[h])
  {
    if id in s.cache {
      assert CacheIsTrue(s, id, s.cache[id].values, hash);
    }
  }

  ghost predicate Injective(hash: Bytes -> Hash) {
    forall a: Bytes, b: Bytes :: hash(a) == hash(b) ==> a == b
  }

  /** Uploading bytes a node already stores returns the path they are stored under and stores
      nothing, provided that different bytes have different hashes. */
  lemma SameBytesSamePath(s: State, u: Upload, hash: Bytes -> Hash, ttl: int, asset: Asset)
    requires Inv(s, hash) && Injective(hash)
    requires asset in AssetsOf(s, u.id) && asset.bytes == u.bytes
    ensures Uploaded(s, u, hash, ttl).0.assets == s.assets
    ensures Uploaded(s, u, hash, ttl).1 == Some(asset.path)
  {
    hide Uploaded;
    UploadIsDeduplicated(s, u, hash, ttl);
    var path := Uploaded(s, u, hash, ttl).1.value;
    var assets := AssetsOf(s, u.id);
    var i :| 0 <= i < |assets| && assets[i] == asset;
    var a :| a in assets && a.path == path && hash(a.bytes) == hash(u.bytes);
    var j :| 0 <= j < |assets| && assets[j] == a;
    assert u.id in s.assets && DistinctHashes(assets, hash);
    assert i == j;
  }

  datatype Event = Store(upload: Upload) | Expire(now: int)

  function After(s: State, event: Event, hash: Bytes -> Hash, ttl: int): State {
    match event
    case Store(upload) => Uploaded(s, upload, hash, ttl).0
    case Expire(now) => s.(cache := Swept(s.cache, now))
  }

  function Run(s: State, events: seq<Event>, hash: Bytes -> Hash, ttl: int): State
    decreases |events|
  {
    if events == [] then s else Run(After(s, events[0], hash, ttl), events[1..], hash, ttl)
  }

  /** In every run of uploads, with the cache swept at any moments in between, no two assets of a
      node ever share a hash. */
  lemma {:induction false} RunKeepsInv(s: State, events: seq<Event>, hash: Bytes -> Hash, ttl: int)
    requires Inv(s, hash)
    ensures Inv(Run(s, events, hash, ttl), hash)
    decreases |events|
  {
    hide Inv, Uploaded;
    if events != [] {
      match events[0] {
        case Store(upload) => UploadIsDeduplicated(s, upload, hash, ttl);
        case Expire(now) => SweptIsTrue(s, now, hash);
      }
      RunKeepsInv(After(s, events[0], hash, ttl), events[1..], hash, ttl);
    }
  }

  lemma NothingStoredKeepsInv(hash: Bytes -> Hash)
    ensures Inv(State(map[], map[]), hash)
  {
  }

  /** The same for every run from an empty engine and an empty cache. */
  lemma RunFromStartKeepsInv(events: seq<Event>, hash: Bytes -> Hash, ttl: int)
    ensures Inv(Run(State(map[], map[]), events, hash, ttl), hash)
  {
    hide *;
    NothingStoredKeepsInv(hash);
    RunKeepsInv(State(map[], map[]), events, hash, ttl);
  }

  // ---- What the cache is for ----

  /** After an upload that was not answered from the cache at once, its hash stays cached for the time
      to live; an upload of the same bytes within that time is answered from the cache, without asking
      the engine. What was cached for other nodes is kept until it expires. */
  lemma RepeatedUploadIsCached(s: State, u: Upload, again: Upload, hash: Bytes -> Hash, ttl: int)
    requires var c1 := Swept(s.cache, u.clocks.get); hash(u.bytes) !in ValuesOf(c1, u.id)
    requires Uploaded(s, u, hash, ttl).1.Some?
    requires again.id == u.id && hash(again.bytes) == hash(u.bytes) && again.clocks.get < u.clocks.set_ + ttl
    ensures var (t, path) := Uploaded(s, u, hash, ttl);
            Uploaded(t, again, hash, ttl) == (t.(cache := Swept(t.cache, again.clocks.get)), path)
    ensures var t := Uploaded(s, u, hash, ttl).0;
            forall other, now | other in s.cache && other != u.id && s.cache[other].expiresAt > now
                                && now >= u.clocks.get && now >= u.clocks.getAll && now >= u.clocks.set_ ::
              other in Swept(t.cache, now) && Swept(t.cache, now)[other] == s.cache[other]
  {
    hide MapOf, EntriesOf, FindEntry;
  }

  /** An upload that comes when the entries of its node have expired asks the engine, and leaves all
      that its listing shows in the cache. */
  lemma ExpiredCacheIsRebuilt(s: State, u: Upload, hash: Bytes -> Hash, ttl: int, now: int)
    requires u.id in s.cache ==> s.cache[u.id].expiresAt <= u.clocks.get
    requires now < u.clocks.replaceAll + ttl && now < u.clocks.set_ + ttl && u.clocks.set_ < u.clocks.replaceAll + ttl
    ensures var t := Uploaded(s, u, hash, ttl).0;
            forall a <- AssetsOf(s, u.id) :: hash(a.bytes) in ValuesOf(Swept(t.cache, now), u.id)
  {
    hide FindEntry;
    var entries := EntriesOf(AssetsOf(s, u.id), hash);
    forall a | a in AssetsOf(s, u.id) ensures hash(a.bytes) in MapOf(entries) {
      var i :| 0 <= i < |entries| && AssetsOf(s, u.id)[i] == a;
      MapOfHas(entries, i);
    }
    hide MapOf, EntriesOf;
  }

  lemma {:induction false} MapOfHas(entries: seq<Entry>, i: nat)
    requires i < |entries|
    ensures entries[i].hash in MapOf(entries)
  {
    if i < |entries| - 1 {
      MapOfHas(entries[..|entries| - 1], i);
    }
  }
}
