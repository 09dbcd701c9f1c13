/** apps/dashboard/src/services/StoreService.ts: products in a database with a read-through and
    write-through cache in front, one operation at a time. StaleReads has the same operations
    interleaved. */
module StoreService {
  import opened Options
  import opened Redis
  import opened CacheService
  import opened StaleReads

  /** The answer of an operation: a product, no product, or an exception. */
  datatype Answer = Found(product: Product) | Absent | Error

  datatype Contents = Contents(db: map<string, Product>, cache: Entries<Product>)

  function ProductKey(id: string): string { BuildKey("product:" + id, "") }

  function Row(db: map<string, Product>, id: string): Answer { if id in db then Found(db[id]) else Absent }

  function Caching(c: Contents, id: string, p: Product, now: nat, put: Reply): Contents {
    c.(cache := Stored(c.cache, ProductKey(id), p, PRODUCT_TTL, now, put))
  }

  function Read(c: Contents, id: string, now: nat, get: Reply, find: Reply, put: Reply): (Contents, Answer) {
    var served := if get.Ok? then Find(c.cache, ProductKey(id), now) else None;
    if served.Some? then (c, Found(served.value))
    else if find.Threw() then (c, Error)
    else if id !in c.db then (c, Absent)
    else (Caching(c, id, c.db[id], now, put), Found(c.db[id]))
  }

  /** `lookup` is the SKU check; the database refuses a taken SKU as well. */
  function Create(c: Contents, p: Product, now: nat, lookup: Reply, create: Reply, put: Reply): (Contents, Answer) {
    if (p.sku != "" && (lookup.Threw() || SkuTaken(c.db, p.sku))) || p.id in c.db then (c, Error)
    else
      var written := if create.TookEffect() then c.(db := c.db[p.id := p]) else c;
      if create.Threw() then (written, Error) else (Caching(written, p.id, p, now, put), Found(p))
  }

  function Update(c: Contents, id: string, u: Patch, now: nat, update: Reply, put: Reply): (Contents, Answer) {
    if id !in c.db then (c, Error)
    else
      var p := Patched(c.db[id], u);
      var written := if update.TookEffect() then c.(db := c.db[id := p]) else c;
      if update.Threw() then (written, Error) else (Caching(written, id, p, now, put), Found(p))
  }

  function Delete(c: Contents, id: string, delete: Reply, uncache: Reply): (Contents, Answer) {
    if id !in c.db then (c, Error)
    else
      var written := if delete.TookEffect() then c.(db := c.db - {id}) else c;
      if delete.Threw() then (written, Error)
      else (written.(cache := Removed(c.cache, ProductKey(id), uncache)), Absent)
  }

  class StoreService {
    var db: map<string, Product>
    const cache: CacheService<Product>

    constructor (db: map<string, Product>, cache: CacheService<Product>)
      ensures this.db == db && this.cache == cache
    {
      this.db, this.cache := db, cache;
    }

    function View(): Contents
      reads this, cache
    {
      Contents(db, cache.entries)
    }

    method GetProductById(id: string, now: nat, get: Reply, find: Reply, put: Reply) returns (r: Answer)
      modifies cache
      ensures (View(), r) == Read(old(View()), id, now, get, find, put)
    {
      var cacheKey := "product:" + id;
      var cached := cache.Get(cacheKey, "", now, get);
      if cached.Some? {
        return Found(cached.value);
      }
      if find.Threw() {
        return Error;
      }
      r := Row(db, id);
      if r.Found? {
        var _ := cache.Set(cacheKey, r.product, Some(PRODUCT_TTL), "", None, now, put);
      }
    }

    method CreateProduct(p: Product, now: nat, lookup: Reply, create: Reply, put: Reply) returns (r: Answer)
      modifies `db, cache
      ensures (View(), r) == Create(old(View()), p, now, lookup, create, put)
    {
      if p.sku != "" && (lookup.Threw() || SkuTaken(db, p.sku)) {
        return Error;
      }
      if p.id in db {
        return Error;
      }
      if create.TookEffect() { db := db[p.id := p]; }
      if create.Threw() {
        return Error;
      }
      var _ := cache.Set("product:" + p.id, p, Some(PRODUCT_TTL), "", None, now, put);
      r := Found(p);
    }

    method UpdateProduct(id: string, u: Patch, now: nat, update: Reply, put: Reply) returns (r: Answer)
      modifies `db, cache
      ensures (View(), r) == Update(old(View()), id, u, now, update, put)
    {
      if id !in db {
        return Error;
      }
      var product := Patched(db[id], u);
      if update.TookEffect() { db := db[id := product]; }
      if update.Threw() {
        return Error;
      }
      var _ := cache.Set("product:" + id, product, Some(PRODUCT_TTL), "", None, now, put);
      r := Found(product);
    }

    method DeleteProduct(id: string, delete: Reply, uncache: Reply) returns (r: Answer)
      modifies `db, cache
      ensures (View(), r) == Delete(old(View()), id, delete, uncache)
    {
      if id !in db {
        return Error;
      }
      if delete.TookEffect() { db := db - {id}; }
      if delete.Threw() {
        return Error;
      }
      var _ := cache.Delete("product:" + id, "", uncache);
      r := Absent;
    }

    /** Afterwards no product is served from the cache, if the two commands on products work,
        whatever becomes of the others. */
    method ClearStoreCache(list: Reply, del: Reply, listTop: Reply, delTop: Reply, stats: Reply, categories: Reply)
      modifies cache
      ensures db == old(db)
      ensures forall k :: k in cache.entries ==> k in old(cache.entries) && cache.entries[k] == old(cache.entries)[k]
      ensures list.Ok? && del.TookEffect() ==> forall id, now :: Find(cache.entries, ProductKey(id), now) == None
    {
      var _ := cache.DeletePattern("product:*", "", list, del);
      forall id ensures list.Ok? && del.TookEffect() ==> ProductKey(id) !in cache.entries { ProductKeysMatch(id); }
      var _ := cache.DeletePattern("top_products:*", "", listTop, delTop);
      var _ := cache.Delete("store_stats", "", stats);
      var _ := cache.Delete("product_categories", "", categories);
    }
  }

  lemma ProductKeysMatch(id: string)
    ensures Glob(BuildKey("product:*", ""), ProductKey(id))
  {
    var prefix := KEY_PREFIX + "product:";
    assert BuildKey("product:*", "") == prefix + "*" && ProductKey(id) == prefix + id;
    GlobOfPrefix(prefix, ProductKey(id));
  }

  /** What the cache would serve is what the database holds. */
  ghost predicate Coherent(c: Contents, now: nat) {
    forall id :: Serves(c, id, now).Some? ==> Row(c.db, id) == Found(Serves(c, id, now).value)
  }

  function Serves(c: Contents, id: string, now: nat): Option<Product> { Find(c.cache, ProductKey(id), now) }

  lemma ProductKeyInjective(a: string, b: string)
    requires ProductKey(a) == ProductKey(b)
    ensures a == b
  {
    var prefix := KEY_PREFIX + "product:";
    assert ProductKey(a) == prefix + a && ProductKey(b) == prefix + b;
    assert (prefix + a)[|prefix|..] == a && (prefix + b)[|prefix|..] == b;
  }

  /** One key changes; every other product is served as before. */
  lemma OneKeyChanges(c: Contents, c': Contents, id: string, now: nat)
    requires forall k ::
               k != ProductKey(id) ==> (k in c.cache <==> k in c'.cache) && (k in c.cache ==> c'.cache[k] == c.cache[k])
    ensures forall other :: other != id ==> Serves(c', other, now) == Serves(c, other, now)
  {
    forall other | other != id ensures Serves(c', other, now) == Serves(c, other, now) {
      if ProductKey(other) == ProductKey(id) { ProductKeyInjective(other, id); }
    }
  }

  lemma CoherentIff(c: Contents, c': Contents, id: string, now: nat)
    requires Coherent(c, now)
    requires forall k ::
               k != ProductKey(id) ==> (k in c.cache <==> k in c'.cache) && (k in c.cache ==> c'.cache[k] == c.cache[k])
    requires forall other :: other != id ==> Row(c'.db, other) == Row(c.db, other)
    ensures Coherent(c', now) <==> (Serves(c', id, now).Some? ==> Row(c'.db, id) == Found(Serves(c', id, now).value))
  {
    OneKeyChanges(c, c', id, now);
    assert forall other :: other != id && Serves(c', other, now).Some? ==>
        Serves(c, other, now).Some? && Row(c'.db, other) == Found(Serves(c', other, now).value);
  }

  /** Reads and creates never make the cache lie, whatever fails. */
  lemma ReadStaysCoherent(c: Contents, id: string, now: nat, get: Reply, find: Reply, put: Reply)
    requires Coherent(c, now)
    ensures Coherent(Read(c, id, now, get, find, put).0, now)
  {
    var c' := Read(c, id, now, get, find, put).0;
    if c' != c {
      CoherentIff(c, c', id, now);
      assert Serves(c', id, now) == if put.TookEffect() then Some(c.db[id]) else Serves(c, id, now);
      hide Coherent;
    }
  }

  lemma CreateStaysCoherent(c: Contents, p: Product, now: nat, lookup: Reply, create: Reply, put: Reply)
    requires Coherent(c, now)
    ensures Coherent(Create(c, p, now, lookup, create, put).0, now)
  {
    var c' := Create(c, p, now, lookup, create, put).0;
    if c' != c {
      CoherentIff(c, c', p.id, now);
      assert Serves(c, p.id, now).Some? ==> Row(c.db, p.id).Found?;
      assert Serves(c', p.id, now) == if create.Ok? && put.TookEffect() then Some(p) else Serves(c, p.id, now);
      hide Coherent;
    }
  }

  /** An update leaves the cache truthful exactly when it did not reach the database, changed
      nothing there, found nothing cached, or also reached the cache. */
  lemma UpdateStaysCoherentIff(c: Contents, id: string, u: Patch, now: nat, update: Reply, put: Reply)
    requires Coherent(c, now) && id in c.db
    ensures Coherent(Update(c, id, u, now, update, put).0, now)
            <==> (!update.TookEffect() || Patched(c.db[id], u) == c.db[id] || Serves(c, id, now).None?
                  || (update.Ok? && put.TookEffect()))
  {
    var c' := Update(c, id, u, now, update, put).0;
    CoherentIff(c, c', id, now);
    assert Serves(c, id, now).Some? ==> Row(c.db, id) == Found(Serves(c, id, now).value);
    assert Serves(c', id, now)
             == if update.Ok? && put.TookEffect() then Some(Patched(c.db[id], u)) else Serves(c, id, now);
    assert Row(c'.db, id) == Found(if update.TookEffect() then Patched(c.db[id], u) else c.db[id]);
  }

  /** A delete leaves the cache truthful exactly when it did not reach the database, found
      nothing cached, or also reached the cache. */
  lemma DeleteStaysCoherentIff(c: Contents, id: string, now: nat, delete: Reply, uncache: Reply)
    requires Coherent(c, now) && id in c.db
    ensures Coherent(Delete(c, id, delete, uncache).0, now)
            <==> (!delete.TookEffect() || Serves(c, id, now).None? || (delete.Ok? && uncache.TookEffect()))
  {
    CoherentIff(c, Delete(c, id, delete, uncache).0, id, now);
  }

  /** Runs of one operation after the other. */
  datatype Event =
    | Reading(id: string, now: nat, get: Reply, find: Reply, put: Reply)
    | Creating(p: Product, now: nat, lookup: Reply, create: Reply, put: Reply)
    | Updating(id: string, u: Patch, now: nat, update: Reply, put: Reply)
    | Deleting(id: string, now: nat, delete: Reply, uncache: Reply)

  function Apply(c: Contents, e: Event): (Contents, Answer) {
    match e
    case Reading(id, now, get, find, s) => Read(c, id, now, get, find, s)
    case Creating(p, now, lookup, create, s) => Create(c, p, now, lookup, create, s)
    case Updating(id, u, now, update, s) => Update(c, id, u, now, update, s)
    case Deleting(id, now, delete, uncache) => Delete(c, id, delete, uncache)
  }

  /** Cache writes go through and no database write fails after it was committed. Cache lookups
      may fail at any time, and so may everything that has no effect. */
  predicate Healthy(e: Event) {
    match e
    case Updating(_, _, _, update, s) => !update.FailedAfter? && s.TookEffect()
    case Deleting(_, _, delete, uncache) => !delete.FailedAfter? && uncache.TookEffect()
    case _ => true
  }

  function Run(db: map<string, Product>, es: seq<Event>): Contents {
    if es == [] then Contents(db, map[]) else Apply(Run(db, es[..|es| - 1]), es[|es| - 1]).0
  }

  ghost predicate Timed(es: seq<Event>) { forall i, j :: 0 <= i < j < |es| ==> es[i].now <= es[j].now }

  lemma {:induction false} RunCoherent(db: map<string, Product>, es: seq<Event>, now: nat)
    requires Timed(es) && (forall e :: e in es ==> Healthy(e) && e.now <= now)
    ensures Coherent(Run(db, es), now)
  {
    if es != [] {
      var before, e := es[..|es| - 1], es[|es| - 1];
      assert e in es;
      RunCoherent(db, before, e.now);
      var c := Run(db, before);
      match e {
        case Reading(id, t, get, find, s) => ReadStaysCoherent(c, id, t, get, find, s);
        case Creating(p, t, lookup, create, s) => CreateStaysCoherent(c, p, t, lookup, create, s);
        case Updating(id, u, t, update, s) => if id in c.db { UpdateStaysCoherentIff(c, id, u, t, update, s); }
        case Deleting(id, t, delete, uncache) => if id in c.db { DeleteStaysCoherentIff(c, id, t, delete, uncache); }
      }
      StaysCoherentLater(Run(db, es), e.now, now);
    }
  }

  lemma StaysCoherentLater(c: Contents, t: nat, now: nat)
    requires Coherent(c, t) && t <= now
    ensures Coherent(c, now)
  {
    assert forall id :: Serves(c, id, now).Some? ==> Serves(c, id, t) == Serves(c, id, now);
  }

  /** In sequential runs without lost writes, every read whose commands reach the database or
      hit the cache answers what the database holds. */
  lemma SequentialReadsAreCurrent(db: map<string, Product>, es: seq<Event>, id: string, now: nat, get: Reply,
                                  find: Reply, put: Reply)
    requires Timed(es) && (forall e :: e in es ==> Healthy(e) && e.now <= now)
    ensures var c := Run(db, es);
            var (c', answer) := Read(c, id, now, get, find, put);
            c'.db == c.db && (answer == Row(c.db, id) || (answer == Error && find.Threw()))
  {
    RunCoherent(db, es, now);
    var c := Run(db, es);
    assert Serves(c, id, now).Some? ==> Row(c.db, id) == Found(Serves(c, id, now).value);
  }
}
