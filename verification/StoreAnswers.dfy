/** What the operations of the store service answer and leave behind, in terms of the rows. */
module StoreAnswers {
  import opened Options
  import opened Redis
  import opened CacheService
  import StaleReads
  import opened StoreService

  /** A read answers what the cache serves, and otherwise what the database holds, which it then serves
      from the cache for 900 seconds, if the cache command worked. */
  lemma ReadAnswers(c: Contents, id: string, now: nat, get: Reply, find: Reply, put: Reply, t: nat)
    ensures var (c', answer) := Read(c, id, now, get, find, put);
            if get.Ok? && Serves(c, id, now).Some? then answer == Found(Serves(c, id, now).value) && c' == c
            else if find.Threw() then answer == Error && c' == c
            else if id !in c.db then answer == Absent && c' == c
            else answer == Found(c.db[id]) && c'.db == c.db
                 && Serves(c', id, t) == (if !put.TookEffect() then Serves(c, id, t)
                                          else if t <= now + 900_000 then Some(c.db[id]) else None)
  {
  }

  /** A create whose SKU some row has changes nothing and answers with an error, whatever the replies. */
  lemma TakenSkuIsRefused(c: Contents, p: StaleReads.Product, now: nat, lookup: Reply, create: Reply, put: Reply,
                          i: string)
    requires i in c.db && c.db[i].sku == p.sku != ""
    ensures Create(c, p, now, lookup, create, put) == (c, Error)
  {
  }

  /** A create answers with its product exactly if the SKU is new or absent, the id is new, and the
      commands it needs resolve. */
  lemma CreateAnswersIff(c: Contents, p: StaleReads.Product, now: nat, lookup: Reply, create: Reply, put: Reply)
    ensures var (c', answer) := Create(c, p, now, lookup, create, put);
            && (answer == Found(p) <==>
                  && p.id !in c.db && create.Ok?
                  && (p.sku == "" || (lookup.Ok? && forall i :: i in c.db ==> c.db[i].sku != p.sku)))
            && (answer == Found(p) || answer == Error)
            && (answer == Found(p) ==> c'.db == c.db[p.id := p])
            && (answer == Error ==> c'.cache == c.cache
                                    && (c'.db == c.db || (create.FailedAfter? && c'.db == c.db[p.id := p])))
  {
  }

  /** And then its row is served from the cache for 900 seconds, if the cache command worked. */
  lemma CreatedIsServed(c: Contents, p: StaleReads.Product, now: nat, lookup: Reply, create: Reply, put: Reply, t: nat)
    requires Create(c, p, now, lookup, create, put).1 == Found(p) && put.TookEffect()
    ensures Serves(Create(c, p, now, lookup, create, put).0, p.id, t) == if t <= now + 900_000 then Some(p) else None
  {
  }

  /** An update answers with its row exactly if the row exists and the command resolves: the fields
      given are replaced, the others and the id stay. */
  lemma UpdateAnswersIff(c: Contents, id: string, u: StaleReads.Patch, now: nat, update: Reply, put: Reply)
    ensures var (c', answer) := Update(c, id, u, now, update, put);
            && (answer.Found? <==> id in c.db && update.Ok?) && (answer.Found? || answer == Error)
            && (answer.Found? ==>
                  && answer.product.id == c.db[id].id
                  && (u.sku == None ==> answer.product.sku == c.db[id].sku)
                  && (forall sku :: u.sku == Some(sku) ==> answer.product.sku == sku)
                  && (u.details == None ==> answer.product.details == c.db[id].details)
                  && (forall details :: u.details == Some(details) ==> answer.product.details == details)
                  && c'.db == c.db[id := answer.product])
            && (answer == Error ==> c'.cache == c.cache && (c'.db == c.db || update.FailedAfter?))
  {
  }

  /** And the new row is served from the cache for 900 seconds, if the cache command worked. */
  lemma UpdatedIsServed(c: Contents, id: string, u: StaleReads.Patch, now: nat, update: Reply, put: Reply, t: nat)
    requires Update(c, id, u, now, update, put).1.Found? && put.TookEffect()
    ensures var (c', answer) := Update(c, id, u, now, update, put);
            Serves(c', id, t) == if t <= now + 900_000 then Some(answer.product) else None
  {
  }

  /** A delete succeeds exactly if the row exists and the command resolves. */
  lemma DeleteAnswersIff(c: Contents, id: string, delete: Reply, uncache: Reply)
    ensures var (c', answer) := Delete(c, id, delete, uncache);
            && (answer == Absent <==> id in c.db && delete.Ok?) && (answer == Absent || answer == Error)
            && (answer == Absent ==> c'.db == c.db - {id})
            && (answer == Absent && uncache.TookEffect() ==> forall t :: Serves(c', id, t) == None)
            && (answer == Error ==> c'.cache == c.cache && (c'.db == c.db || delete.FailedAfter?))
  {
  }

  /** The key of a product in Redis, and nobody else's. */
  lemma ProductKeyIs(id: string)
    ensures ProductKey(id) == "dashboard:product:" + id
  {
  }
}
