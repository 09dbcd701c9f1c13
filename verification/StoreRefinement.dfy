/** The interleaved operations of StaleReads are those of StoreService when nothing comes between
    their commands. */
module StoreRefinement {
  import opened Options
  import opened Redis
  import opened CacheService
  import StaleReads
  import opened StoreService

  /** The same database, and the same products cached for the same time. */
  ghost predicate Mirrors(s: StaleReads.State, c: Contents) {
    && s.db == c.db && StaleReads.Keyed(s.db)
    && (forall id :: id in s.cache <==> ProductKey(id) in c.cache)
    && forall id :: id in s.cache ==>
         c.cache[ProductKey(id)] == Cached(s.cache[id].product, Expiry(StaleReads.PRODUCT_TTL, s.cache[id].stored))
  }

  /** An operation from its first command on, with these replies and nothing in between. A reply
      that comes after its end changes nothing. */
  function Alone(s: StaleReads.State, op: nat, request: StaleReads.Pending, first: Reply, second: Reply,
                 third: Reply): StaleReads.State {
    var s1 := StaleReads.Step(StaleReads.Step(s, StaleReads.Begin(op, request)), StaleReads.Next(op, first));
    StaleReads.Step(StaleReads.Step(s1, StaleReads.Next(op, second)), StaleReads.Next(op, third))
  }

  /** How far an operation has come: the state apart from it, and the command it waits for. */
  datatype Progress = Progress(rest: StaleReads.State, pending: Option<StaleReads.Pending>)

  function Replied(g: Progress, reply: Reply): Progress {
    match g.pending
    case None => g
    case Some(pending) =>
      var o := StaleReads.Operation(g.rest.clock, pending);
      Progress(if reply.TookEffect() then StaleReads.Write(g.rest, o) else g.rest,
               StaleReads.Continue(g.rest, o, reply))
  }

  function Whole(g: Progress, op: nat): StaleReads.State {
    match g.pending
    case None => g.rest
    case Some(pending) => g.rest.(operations := g.rest.operations[op := StaleReads.Operation(g.rest.clock, pending)])
  }

  lemma OneReply(g: Progress, op: nat, reply: Reply)
    requires op !in g.rest.operations
    ensures StaleReads.Step(Whole(g, op), StaleReads.Next(op, reply)) == Whole(Replied(g, reply), op)
    ensures op !in Replied(g, reply).rest.operations
  {
    if g.pending.Some? {
      var w, o := Whole(g, op), StaleReads.Operation(g.rest.clock, g.pending.value);
      assert w.operations - {op} == g.rest.operations;
      SameEffect(g.rest, w, o, reply);
      hide StaleReads.Continue, StaleReads.Write;
    }
  }

  /** What a command does, and what follows it, does not depend on the operations in flight. */
  lemma SameEffect(s: StaleReads.State, w: StaleReads.State, o: StaleReads.Operation, reply: Reply)
    requires w == s.(operations := w.operations)
    ensures StaleReads.Continue(w, o, reply) == StaleReads.Continue(s, o, reply)
    ensures StaleReads.Write(w, o) == StaleReads.Write(s, o).(operations := w.operations)
    ensures StaleReads.Write(s, o).operations == s.operations && StaleReads.Write(s, o).clock == s.clock
  {
    hide StaleReads.Patched, StaleReads.SkuTaken;
  }

  lemma AloneIsReplied(s: StaleReads.State, op: nat, request: StaleReads.Pending, first: Reply, second: Reply,
                       third: Reply)
    requires op !in s.operations && StaleReads.Starts(request)
    ensures Alone(s, op, request, first, second, third)
         == Whole(Replied(Replied(Replied(Progress(s, Some(request)), first), second), third), op)
  {
    var g0 := Progress(s, Some(request));
    assert StaleReads.Step(s, StaleReads.Begin(op, request)) == Whole(g0, op);
    hide StaleReads.Step, Whole, Replied;
    OneReply(g0, op, first);
    OneReply(Replied(g0, first), op, second);
    OneReply(Replied(Replied(g0, first), second), op, third);
  }

  /** Both agree on the new state, and the operation is over. */
  ghost predicate Agree(s: StaleReads.State, s': StaleReads.State, c': Contents) {
    Mirrors(s', c') && s'.operations == s.operations && s'.clock == s.clock
  }

  lemma CachesAlike(s: StaleReads.State, c: Contents, p: StaleReads.Product, begun: nat)
    requires Mirrors(s, c)
    ensures Mirrors(s.(cache := s.cache[p.id := StaleReads.Entry(p, begun, s.clock)]), Caching(c, p.id, p, s.clock, Ok))
    ensures Caching(c, p.id, p, s.clock, FailedAfter) == Caching(c, p.id, p, s.clock, Ok)
    ensures Caching(c, p.id, p, s.clock, FailedBefore) == c
  {
    var key := ProductKey(p.id);
    forall id | ProductKey(id) == key ensures id == p.id { ProductKeyInjective(id, p.id); }
    hide ProductKey;
  }

  lemma DropsAlike(s: StaleReads.State, c: Contents, id: string)
    requires Mirrors(s, c)
    ensures Mirrors(s.(cache := s.cache - {id}), c.(cache := Removed(c.cache, ProductKey(id), Ok)))
  {
    forall other | ProductKey(other) == ProductKey(id) ensures other == id { ProductKeyInjective(other, id); }
    hide ProductKey;
  }

  lemma ServedAlike(s: StaleReads.State, c: Contents, id: string)
    requires Mirrors(s, c)
    ensures StaleReads.Served(s, id) == Serves(c, id, s.clock) && s.db == c.db && (id in s.db ==> s.db[id].id == id)
  {
  }

  lemma WrittenAlike(s: StaleReads.State, c: Contents, db: map<string, StaleReads.Product>)
    requires Mirrors(s, c) && StaleReads.Keyed(db)
    ensures Mirrors(s.(db := db), c.(db := db)) && s.db == c.db
  {
  }

  lemma RemovedAlike(s: StaleReads.State, c: Contents, id: string)
    requires Mirrors(s, c)
    ensures Mirrors(s.(db := s.db - {id}), c.(db := c.db - {id}))
    ensures s.db == c.db && (id !in s.db ==> s.db - {id} == s.db)
    ensures Removed(c.cache, ProductKey(id), FailedAfter) == Removed(c.cache, ProductKey(id), Ok)
    ensures Removed(c.cache, ProductKey(id), FailedBefore) == c.cache
  {
  }

  lemma ReadAlone(s: StaleReads.State, c: Contents, op: nat, id: string, get: Reply, find: Reply, put: Reply)
    requires Mirrors(s, c) && op !in s.operations
    ensures Agree(s, Alone(s, op, StaleReads.CacheGet(id), get, find, put), Read(c, id, s.clock, get, find, put).0)
    ensures StaleReads.Served(s, id).Some? && get.Ok? ==>
              Read(c, id, s.clock, get, find, put).1 == Found(StaleReads.Served(s, id).value)
  {
    hide Mirrors, Alone, ProductKey, StaleReads.Served, Serves, Caching;
    AloneIsReplied(s, op, StaleReads.CacheGet(id), get, find, put);
    ServedAlike(s, c, id);
    assert Serves(c, id, s.clock) == Find(c.cache, ProductKey(id), s.clock) by { SameFind(c, id, s.clock); }
    if id in s.db { CachesAlike(s, c, s.db[id], s.clock); }
  }

  lemma SameFind(c: Contents, id: string, now: nat)
    ensures Serves(c, id, now) == Find(c.cache, ProductKey(id), now)
  {
  }

  /** A create that gives no SKU does not look one up. */
  function CreatedAlone(s: StaleReads.State, op: nat, p: StaleReads.Product, lookup: Reply, create: Reply, put: Reply,
                        late: Reply): StaleReads.State {
    if p.sku == "" then Alone(s, op, StaleReads.DbCreate(p), create, put, late)
    else Alone(s, op, StaleReads.SkuLookup(p), lookup, create, put)
  }

  lemma CreateAlone(s: StaleReads.State, c: Contents, op: nat, p: StaleReads.Product, lookup: Reply, create: Reply,
                    put: Reply, late: Reply)
    requires Mirrors(s, c) && op !in s.operations
    ensures Agree(s, CreatedAlone(s, op, p, lookup, create, put, late), Create(c, p, s.clock, lookup, create, put).0)
  {
    hide Alone, ProductKey, Caching, StaleReads.SkuTaken, Mirrors, Agree, Create;
    if p.id in s.db || StaleReads.SkuTaken(s.db, p.sku) || (p.sku != "" && lookup.Threw()) {
      CreateRefused(s, c, op, p, lookup, create, put, late);
    } else {
      CreateAccepted(s, c, op, p, lookup, create, put, late);
    }
  }

  lemma CreateRefused(s: StaleReads.State, c: Contents, op: nat, p: StaleReads.Product, lookup: Reply, create: Reply,
                      put: Reply, late: Reply)
    requires Mirrors(s, c) && op !in s.operations
    requires p.id in s.db || StaleReads.SkuTaken(s.db, p.sku) || (p.sku != "" && lookup.Threw())
    ensures Agree(s, CreatedAlone(s, op, p, lookup, create, put, late), Create(c, p, s.clock, lookup, create, put).0)
  {
    hide Alone, ProductKey, Caching, StaleReads.SkuTaken, StaleReads.Keyed;
    if p.sku == "" {
      AloneIsReplied(s, op, StaleReads.DbCreate(p), create, put, late);
    } else {
      AloneIsReplied(s, op, StaleReads.SkuLookup(p), lookup, create, put);
    }
    NoSku(s.db);
  }

  lemma CreateAccepted(s: StaleReads.State, c: Contents, op: nat, p: StaleReads.Product, lookup: Reply, create: Reply,
                       put: Reply, late: Reply)
    requires Mirrors(s, c) && op !in s.operations && p.id !in s.db && !StaleReads.SkuTaken(s.db, p.sku)
    requires p.sku == "" || !lookup.Threw()
    ensures Agree(s, CreatedAlone(s, op, p, lookup, create, put, late), Create(c, p, s.clock, lookup, create, put).0)
  {
    hide Alone, ProductKey, Caching, StaleReads.SkuTaken, StaleReads.Keyed, Mirrors;
    if p.sku == "" {
      AloneIsReplied(s, op, StaleReads.DbCreate(p), create, put, late);
    } else {
      AloneIsReplied(s, op, StaleReads.SkuLookup(p), lookup, create, put);
    }
    var db := s.db[p.id := p];
    KeyedWith(s, c, p);
    WrittenAlike(s, c, db);
    CachesAlike(s.(db := db), c.(db := db), p, s.clock);
  }

  lemma KeyedWith(s: StaleReads.State, c: Contents, p: StaleReads.Product)
    requires Mirrors(s, c)
    ensures StaleReads.Keyed(s.db[p.id := p])
  {
  }

  lemma NoSku(db: map<string, StaleReads.Product>)
    ensures !StaleReads.SkuTaken(db, "")
  {
  }

  lemma UpdateAlone(s: StaleReads.State, c: Contents, op: nat, id: string, u: StaleReads.Patch, update: Reply,
                    put: Reply, late: Reply)
    requires Mirrors(s, c) && op !in s.operations
    ensures Agree(s, Alone(s, op, StaleReads.DbUpdate(id, u), update, put, late),
                  Update(c, id, u, s.clock, update, put).0)
  {
    hide Alone, ProductKey, Caching, Mirrors, StaleReads.Keyed, StaleReads.Patched;
    AloneIsReplied(s, op, StaleReads.DbUpdate(id, u), update, put, late);
    ServedAlike(s, c, id);
    if id in s.db {
      var p := StaleReads.Patched(s.db[id], u);
      assert p.id == id by { SameId(s.db[id], u); }
      KeyedWith(s, c, p);
      WrittenAlike(s, c, s.db[id := p]);
      CachesAlike(s.(db := s.db[id := p]), c.(db := s.db[id := p]), p, s.clock);
    }
  }

  lemma SameId(p: StaleReads.Product, u: StaleReads.Patch)
    ensures StaleReads.Patched(p, u).id == p.id
  {
  }

  lemma DeleteAlone(s: StaleReads.State, c: Contents, op: nat, id: string, delete: Reply, uncache: Reply, late: Reply)
    requires Mirrors(s, c) && op !in s.operations
    ensures Agree(s, Alone(s, op, StaleReads.DbDelete(id), delete, uncache, late), Delete(c, id, delete, uncache).0)
  {
    hide Alone, ProductKey, Mirrors, Removed;
    AloneIsReplied(s, op, StaleReads.DbDelete(id), delete, uncache, late);
    RemovedAlike(s, c, id);
    DropsAlike(s.(db := s.db - {id}), c.(db := c.db - {id}), id);
  }
}
