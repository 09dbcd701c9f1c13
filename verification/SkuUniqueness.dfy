/** What keeps the SKUs of the rows unique, one operation at a time and interleaved. */
module SkuUniqueness {
  import opened Options
  import opened Redis
  import opened CacheService
  import StaleReads
  import opened StoreService

  type Rows = map<string, StaleReads.Product>

  /** No two rows share a SKU; not to have one is no SKU. */
  ghost predicate UniqueSkus(db: Rows) {
    forall i, j :: i in db && j in db && i != j && db[i].sku == db[j].sku ==> db[i].sku == ""
  }

  /** Another row than `id`'s has this SKU. */
  ghost predicate Elsewhere(db: Rows, id: string, sku: string) {
    sku != "" && exists i :: i in db && i != id && db[i].sku == sku
  }

  lemma StoredStaysUnique(db: Rows, p: StaleReads.Product)
    requires UniqueSkus(db)
    ensures UniqueSkus(db[p.id := p]) <==> !Elsewhere(db, p.id, p.sku)
  {
    if Elsewhere(db, p.id, p.sku) {
      var i :| i in db && i != p.id && db[i].sku == p.sku;
      assert db[p.id := p][i].sku == db[p.id := p][p.id].sku;
    }
  }

  lemma RemovedStaysUnique(db: Rows, id: string)
    requires UniqueSkus(db)
    ensures UniqueSkus(db - {id})
  {
  }

  /** An update that reaches the database and gives its row the SKU of another. */
  ghost predicate Clashes(c: Contents, e: Event) {
    e.Updating? && e.id in c.db && e.update.TookEffect() && e.u.sku.Some? && Elsewhere(c.db, e.id, e.u.sku.value)
  }

  /** One operation keeps SKUs unique if and only if it is not such an update: no create does harm. */
  lemma OperationKeepsUniqueIff(c: Contents, e: Event)
    requires UniqueSkus(c.db)
    ensures UniqueSkus(Apply(c, e).0.db) <==> !Clashes(c, e)
  {
    hide UniqueSkus, Stored, Removed;
    match e {
      case Reading(_, _, _, _, _) =>
      case Creating(p, _, _, _, _) => StoredStaysUnique(c.db, p);
      case Updating(id, u, _, _, _) => if id in c.db { UpdatedStaysUnique(c.db, id, u); }
      case Deleting(id, _, _, _) => RemovedStaysUnique(c.db, id);
    }
  }

  lemma UpdatedStaysUnique(db: Rows, id: string, u: StaleReads.Patch)
    requires UniqueSkus(db) && id in db
    ensures UniqueSkus(db[id := StaleReads.Patched(db[id], u)])
            <==> !(u.sku.Some? && Elsewhere(db, id, u.sku.value))
  {
    var p := StaleReads.Patched(db[id], u);
    var sku := if u.sku.Some? then u.sku.value else db[id].sku;
    if exists i :: i in db && i != id && db[i].sku == sku != "" {
      var i :| i in db && i != id && db[i].sku == sku != "";
      assert db[id := p][i].sku == db[id := p][id].sku;
    }
  }

  ghost predicate AlwaysUnique(db: Rows, es: seq<Event>) {
    UniqueSkus(Run(db, es).db) && (es == [] || AlwaysUnique(db, es[..|es| - 1]))
  }

  ghost predicate NeverClashes(db: Rows, es: seq<Event>) {
    es == [] || (NeverClashes(db, es[..|es| - 1]) && !Clashes(Run(db, es[..|es| - 1]), es[|es| - 1]))
  }

  /** Throughout a sequential run SKUs stay unique if and only if no update gives a row the SKU of
      another, whatever creates are asked for and whatever fails. */
  lemma {:induction false} RunKeepsUniqueIff(db: Rows, es: seq<Event>)
    requires UniqueSkus(db)
    ensures AlwaysUnique(db, es) <==> NeverClashes(db, es)
  {
    hide UniqueSkus, Clashes, Apply;
    if es != [] {
      var before := es[..|es| - 1];
      RunKeepsUniqueIff(db, before);
      if UniqueSkus(Run(db, before).db) { OperationKeepsUniqueIff(Run(db, before), es[|es| - 1]); }
    }
  }

  /** In particular if no update touches a SKU. */
  lemma {:induction false} RunWithoutSkuUpdates(db: Rows, es: seq<Event>)
    requires UniqueSkus(db) && forall e :: e in es && e.Updating? ==> e.u.sku == None
    ensures UniqueSkus(Run(db, es).db)
  {
    hide UniqueSkus, Apply;
    if es != [] {
      assert es[|es| - 1] in es;
      RunWithoutSkuUpdates(db, es[..|es| - 1]);
      OperationKeepsUniqueIff(Run(db, es[..|es| - 1]), es[|es| - 1]);
    }
  }

  /** The same of one step of the interleaved model, in which other programs write rows as well. */
  ghost predicate StepClashes(s: StaleReads.State, l: StaleReads.Label) {
    match l
    case OutsideWrite(p) => Elsewhere(s.db, p.id, p.sku)
    case Next(op, reply) =>
      op in s.operations && reply.TookEffect()
      && match s.operations[op].pending {
           case DbUpdate(id, u) => id in s.db && u.sku.Some? && Elsewhere(s.db, id, u.sku.value)
           case _ => false
         }
    case _ => false
  }

  lemma StepKeepsUniqueIff(s: StaleReads.State, l: StaleReads.Label)
    requires UniqueSkus(s.db)
    ensures UniqueSkus(StaleReads.Step(s, l).db) <==> !StepClashes(s, l)
  {
    hide UniqueSkus, StaleReads.Continue;
    match l {
      case OutsideWrite(p) => StoredStaysUnique(s.db, p);
      case OutsideDelete(id) => RemovedStaysUnique(s.db, id);
      case Next(op, reply) =>
        if op in s.operations {
          match s.operations[op].pending {
            case DbCreate(p) => StoredStaysUnique(s.db, p);
            case DbUpdate(id, u) => if id in s.db { UpdatedStaysUnique(s.db, id, u); }
            case DbDelete(id) => RemovedStaysUnique(s.db, id);
            case _ =>
          }
        }
      case _ =>
    }
  }

  ghost predicate AlwaysUniqueInterleaved(db: Rows, ls: seq<StaleReads.Label>) {
    UniqueSkus(StaleReads.Run(db, ls).db) && (ls == [] || AlwaysUniqueInterleaved(db, ls[..|ls| - 1]))
  }

  ghost predicate NeverClashesInterleaved(db: Rows, ls: seq<StaleReads.Label>) {
    ls == [] || (NeverClashesInterleaved(db, ls[..|ls| - 1])
                 && !StepClashes(StaleReads.Run(db, ls[..|ls| - 1]), ls[|ls| - 1]))
  }

  /** In every interleaving, creates between whose SKU lookup and database write anything may happen
      included: SKUs stay unique throughout if and only if no update and no outside write gives a
      row the SKU of another. */
  lemma {:induction false} InterleavingKeepsUniqueIff(db: Rows, ls: seq<StaleReads.Label>)
    requires UniqueSkus(db)
    ensures AlwaysUniqueInterleaved(db, ls) <==> NeverClashesInterleaved(db, ls)
  {
    hide UniqueSkus, StepClashes, StaleReads.Step;
    if ls != [] {
      var before := ls[..|ls| - 1];
      InterleavingKeepsUniqueIff(db, before);
      var s := StaleReads.Run(db, before);
      if UniqueSkus(s.db) { StepKeepsUniqueIff(s, ls[|ls| - 1]); }
    }
  }

  /** In the interleaved model too, a create whose SKU some row has when it is looked up ends there,
      with nothing written. */
  lemma LookupRefuses(s: StaleReads.State, op: nat, reply: Reply, i: string)
    requires op in s.operations && s.operations[op].pending.SkuLookup?
    requires i in s.db && s.db[i].sku == s.operations[op].pending.created.sku != ""
    ensures StaleReads.Step(s, StaleReads.Next(op, reply)) == s.(operations := s.operations - {op})
  {
  }

  /** If no row has it, the create goes on to the database. */
  lemma LookupPasses(s: StaleReads.State, op: nat)
    requires op in s.operations && s.operations[op].pending.SkuLookup?
    requires forall i :: i in s.db ==> s.db[i].sku != s.operations[op].pending.created.sku
    ensures var o := s.operations[op];
            StaleReads.Step(s, StaleReads.Next(op, Ok))
            == s.(operations := s.operations[op := o.(pending := StaleReads.DbCreate(o.pending.created))])
  {
  }
}
