/** apps/dashboard/src/services/StoreService.ts with its cache, operation by operation and
    command by command: reads, creates, updates, deletes and cache clearing of any number of
    callers interleave, the clock moves between any two commands, other programs may write the
    database, and every cache command may fail silently. Labels that do not apply do nothing. */
module StaleReads {
  import opened Options
  import opened Redis

  datatype Product = Product(id: string, sku: string, details: string)

  /** Fields of an update that are absent leave the stored field alone. */
  datatype Patch = Patch(sku: Option<string>, details: Option<string>)

  function Patched(p: Product, u: Patch): Product {
    Product(p.id, if u.sku.Some? then u.sku.value else p.sku, if u.details.Some? then u.details.value else p.details)
  }

  /** The third argument of every `cache.set` of a product, in seconds. */
  const PRODUCT_TTL: int := 900

  /** A cached product, with the start of the operation that cached it and the time it was
      stored, from which its time to live counts. */
  datatype Entry = Entry(product: Product, begun: nat, stored: nat)

  /** What an operation in flight is waiting for. */
  datatype Pending =
    | CacheGet(id: string)
    | DbFind(id: string)
    | SkuLookup(created: Product)
    | DbCreate(created: Product)
    | DbUpdate(id: string, patch: Patch)
    | DbDelete(id: string)
    | CacheSet(product: Product)
    | CacheDelete(id: string)

  datatype Operation = Operation(begun: nat, pending: Pending)

  datatype State = State(clock: nat, db: map<string, Product>, cache: map<string, Entry>,
                         operations: map<nat, Operation>)

  datatype Label =
    | Tick(ms: nat)
    | Begin(op: nat, request: Pending)
    | Next(op: nat, reply: Reply)
    | Drop(ids: set<string>)
    | OutsideWrite(product: Product)
    | OutsideDelete(id: string)

  predicate Fresh(e: Entry, clock: nat) { clock < Expiry(PRODUCT_TTL, e.stored) }

  /** What `cache.get` answers for a product, if the command does not fail. */
  function Served(s: State, id: string): Option<Product> {
    if id in s.cache && Fresh(s.cache[id], s.clock) then Some(s.cache[id].product) else None
  }

  predicate SkuTaken(db: map<string, Product>, sku: string) { sku != "" && exists i :: i in db && db[i].sku == sku }

  /** Where an operation goes when its command resolves or fails. A cache command that fails is
      swallowed, a database command that fails ends the operation with an error. */
  function Continue(s: State, op: Operation, reply: Reply): Option<Pending> {
    match op.pending
    case CacheGet(id) => if reply.Ok? && Served(s, id).Some? then None else Some(DbFind(id))
    case DbFind(id) => if reply.Ok? && id in s.db then Some(CacheSet(s.db[id])) else None
    case SkuLookup(p) => if reply.Ok? && !SkuTaken(s.db, p.sku) then Some(DbCreate(p)) else None
    case DbCreate(p) => if reply.Ok? && p.id !in s.db && !SkuTaken(s.db, p.sku) then Some(CacheSet(p)) else None
    case DbUpdate(id, u) => if reply.Ok? && id in s.db then Some(CacheSet(Patched(s.db[id], u))) else None
    case DbDelete(id) => if reply.Ok? && id in s.db then Some(CacheDelete(id)) else None
    case CacheSet(_) => None
    case CacheDelete(_) => None
  }

  function Write(s: State, op: Operation): State {
    match op.pending
    case DbCreate(p) => if p.id in s.db || SkuTaken(s.db, p.sku) then s else s.(db := s.db[p.id := p])
    case DbUpdate(id, u) => if id in s.db then s.(db := s.db[id := Patched(s.db[id], u)]) else s
    case DbDelete(id) => s.(db := s.db - {id})
    case CacheSet(p) => s.(cache := s.cache[p.id := Entry(p, op.begun, s.clock)])
    case CacheDelete(id) => s.(cache := s.cache - {id})
    case _ => s
  }

  /** Where a request starts: a read at the cache, a write at the database, a create at the lookup
      of its SKU if it has one. */
  predicate Starts(request: Pending) {
    match request
    case CacheGet(_) => true
    case SkuLookup(p) => p.sku != ""
    case DbCreate(p) => p.sku == ""
    case DbUpdate(_, _) => true
    case DbDelete(_) => true
    case _ => false
  }

  function Step(s: State, l: Label): State {
    match l
    case Tick(ms) => s.(clock := s.clock + ms)
    case Begin(op, request) =>
      if op in s.operations || !Starts(request) then s
      else s.(operations := s.operations[op := Operation(s.clock, request)])
    case Next(op, reply) =>
      if op !in s.operations then s
      else
        var o := s.operations[op];
        var s' := if reply.TookEffect() then Write(s, o) else s;
        var next := Continue(s, o, reply);
        s'.(operations := if next.Some? then s.operations[op := o.(pending := next.value)] else s.operations - {op})
    case Drop(ids) => s.(cache := s.cache - ids)
    case OutsideWrite(p) => s.(db := s.db[p.id := p])
    case OutsideDelete(id) => s.(db := s.db - {id})
  }

  function Run(db: map<string, Product>, ls: seq<Label>): State {
    if ls == [] then State(0, db, map[], map[]) else Step(Run(db, ls[..|ls| - 1]), ls[|ls| - 1])
  }

  /** Every row is stored under its own id. */
  ghost predicate Keyed(db: map<string, Product>) { forall i :: i in db ==> db[i].id == i }

  /** After `n` labels of the run the database held exactly this product, at a time within
      [from, until]. */
  ghost predicate HeldThen(db: map<string, Product>, ls: seq<Label>, n: nat, p: Product, from: nat, until: nat) {
    n <= |ls|
    && var past := Run(db, ls[..n]);
       from <= past.clock <= until && p.id in past.db && past.db[p.id] == p
  }

  ghost predicate Held(db: map<string, Product>, ls: seq<Label>, p: Product, from: nat, until: nat) {
    exists n: nat :: HeldThen(db, ls, n, p, from, until)
  }

  ghost predicate Sourced(db: map<string, Product>, ls: seq<Label>, s: State) {
    && Keyed(s.db)
    && (forall i :: i in s.cache ==>
          var e := s.cache[i]; e.product.id == i && e.stored <= s.clock && Held(db, ls, e.product, e.begun, e.stored))
    && forall o :: o in s.operations ==>
          && s.operations[o].begun <= s.clock
          && (s.operations[o].pending.CacheSet? ==>
              Held(db, ls, s.operations[o].pending.product, s.operations[o].begun, s.clock))
  }

  lemma HeldExtends(db: map<string, Product>, ls: seq<Label>, l: Label, p: Product, from: nat, until: nat, until': nat)
    requires Held(db, ls, p, from, until) && until <= until'
    ensures Held(db, ls + [l], p, from, until')
  {
    var n: nat :| HeldThen(db, ls, n, p, from, until);
    assert (ls + [l])[..n] == ls[..n];
    assert HeldThen(db, ls + [l], n, p, from, until');
  }

  lemma HoldsNow(db: map<string, Product>, ls: seq<Label>, p: Product, from: nat)
    requires var s := Run(db, ls); from <= s.clock && p.id in s.db && s.db[p.id] == p
    ensures Held(db, ls, p, from, Run(db, ls).clock)
  {
    assert ls[..|ls|] == ls;
    assert HeldThen(db, ls, |ls|, p, from, Run(db, ls).clock);
  }

  /** The product an operation is about to cache is a row of the database at that moment. */
  lemma CachesWhatIsStored(s: State, op: Operation, reply: Reply)
    requires Keyed(s.db)
    ensures var s' := if reply.TookEffect() then Write(s, op) else s;
            && Keyed(s'.db) && s'.clock == s.clock && s'.operations == s.operations
            && (Continue(s, op, reply).Some? && Continue(s, op, reply).value.CacheSet? ==>
                  var p := Continue(s, op, reply).value.product; p.id in s'.db && s'.db[p.id] == p)
  {
  }

  lemma StepKeepsSourced(db: map<string, Product>, ls: seq<Label>, l: Label)
    requires Sourced(db, ls, Run(db, ls))
    ensures Sourced(db, ls + [l], Run(db, ls + [l]))
  {
    var s, ls' := Run(db, ls), ls + [l];
    var s' := Run(db, ls');
    assert ls'[..|ls|] == ls;
    assert s' == Step(s, l);
    if l.Next? && l.op in s.operations { CachesWhatIsStored(s, s.operations[l.op], l.reply); }
    PendingStaysSourced(db, ls, l);
    CacheStaysSourced(db, ls, l);
    hide Held, Continue;
  }

  lemma CacheStaysSourced(db: map<string, Product>, ls: seq<Label>, l: Label)
    requires Sourced(db, ls, Run(db, ls))
    ensures var s' := Run(db, ls + [l]);
            forall i :: i in s'.cache ==>
              var e := s'.cache[i];
              e.product.id == i && e.stored <= s'.clock && Held(db, ls + [l], e.product, e.begun, e.stored)
  {
    hide Held, Continue, Keyed, Patched, SkuTaken;
    var s, ls' := Run(db, ls), ls + [l];
    var s' := Run(db, ls');
    assert ls'[..|ls|] == ls;
    assert s' == Step(s, l);
    forall i | i in s'.cache
      ensures var e := s'.cache[i];
              e.product.id == i && e.stored <= s'.clock && Held(db, ls', e.product, e.begun, e.stored)
    {
      var e := s'.cache[i];
      if i in s.cache && e == s.cache[i] {
        HeldExtends(db, ls, l, e.product, e.begun, e.stored, e.stored);
      } else {
        var o := s.operations[l.op];
        HeldExtends(db, ls, l, o.pending.product, o.begun, s.clock, s.clock);
      }
    }
  }

  lemma PendingStaysSourced(db: map<string, Product>, ls: seq<Label>, l: Label)
    requires Sourced(db, ls, Run(db, ls))
    ensures var s' := Run(db, ls + [l]);
            forall o :: o in s'.operations && s'.operations[o].pending.CacheSet? ==>
              Held(db, ls + [l], s'.operations[o].pending.product, s'.operations[o].begun, s'.clock)
  {
    var s, ls' := Run(db, ls), ls + [l];
    var s' := Run(db, ls');
    assert ls'[..|ls|] == ls;
    assert s' == Step(s, l);
    if l.Next? && l.op in s.operations { CachesWhatIsStored(s, s.operations[l.op], l.reply); }
    hide Held;
    forall o | o in s'.operations && s'.operations[o].pending.CacheSet?
      ensures Held(db, ls', s'.operations[o].pending.product, s'.operations[o].begun, s'.clock)
    {
      if o in s.operations && s'.operations[o] == s.operations[o] {
        HeldExtends(db, ls, l, s.operations[o].pending.product, s.operations[o].begun, s.clock, s'.clock);
      } else {
        HoldsNow(db, ls', s'.operations[o].pending.product, s'.operations[o].begun);
      }
    }
  }

  lemma {:induction false} RunSourced(db: map<string, Product>, ls: seq<Label>)
    requires Keyed(db)
    ensures Sourced(db, ls, Run(db, ls))
  {
    if ls != [] {
      hide Sourced, Step;
      var before := ls[..|ls| - 1];
      RunSourced(db, before);
      StepKeepsSourced(db, before, ls[|ls| - 1]);
      assert ls == before + [ls[|ls| - 1]];
    }
  }

  /** Bounded staleness, for every interleaving, every silent cache failure and every outside
      write: a product served from the cache was the database's row at some moment of the run
      that lies back no more than 900 seconds plus the time the operation that cached it took. */
  lemma ServedProductIsRecent(db: map<string, Product>, ls: seq<Label>, id: string)
    requires Keyed(db) && Served(Run(db, ls), id).Some?
    ensures var s := Run(db, ls);
            var p, took := Served(s, id).value, s.cache[id].stored - s.cache[id].begun;
            p.id == id && took >= 0
            && exists n: nat :: HeldThen(db, ls, n, p, s.cache[id].begun, s.clock)
                                && s.clock - Run(db, ls[..n]).clock <= 1000 * PRODUCT_TTL + took
  {
    RunSourced(db, ls);
    var s := Run(db, ls);
    var e := s.cache[id];
    var n: nat :| HeldThen(db, ls, n, e.product, e.begun, e.stored);
    assert HeldThen(db, ls, n, e.product, e.begun, s.clock);
  }

  /** A read that fetches its row just before another program overwrites it, caches it `took`
      milliseconds later, and is followed by silence until the entry is due. */
  function OldestRead(p: Product, q: Product, took: nat): seq<Label> {
    [Begin(0, CacheGet(p.id)), Next(0, Ok), Next(0, Ok), OutsideWrite(q), Tick(took), Next(0, Ok),
     Tick(1000 * PRODUCT_TTL)]
  }

  lemma RunSnoc(db: map<string, Product>, ls: seq<Label>, l: Label)
    ensures Run(db, ls + [l]) == Step(Run(db, ls), l)
  {
    assert (ls + [l])[..|ls|] == ls;
  }

  lemma OldestReadFetches(p: Product, q: Product, took: nat)
    requires p.id == q.id && p != q
    ensures var db, ls := map[p.id := p], OldestRead(p, q, took);
            && Run(db, ls[..4]) == State(0, map[p.id := q], map[], map[0 := Operation(0, CacheSet(p))])
            && forall n: nat :: n < 4 ==> Run(db, ls[..n]).clock == 0
  {
    var db, ls := map[p.id := p], OldestRead(p, q, took);
    assert ls[..1] == [] + [ls[0]] && ls[..2] == ls[..1] + [ls[1]] && ls[..3] == ls[..2] + [ls[2]]
           && ls[..4] == ls[..3] + [ls[3]];
    RunSnoc(db, [], ls[0]);
    RunSnoc(db, ls[..1], ls[1]);
    RunSnoc(db, ls[..2], ls[2]);
    RunSnoc(db, ls[..3], ls[3]);
    assert Run(db, ls[..1]).operations == map[0 := Operation(0, CacheGet(p.id))];
    assert Run(db, ls[..2]).operations == map[0 := Operation(0, DbFind(p.id))];
    assert Run(db, ls[..3]).operations == map[0 := Operation(0, CacheSet(p))];
    assert Run(db, ls[..4]).db == map[p.id := q];
    forall n: nat | n < 4 ensures Run(db, ls[..n]).clock == 0 {
      if n == 0 { assert ls[..0] == []; } else if n == 1 {} else if n == 2 {} else { assert n == 3; }
    }
  }

  lemma OldestReadEnds(p: Product, q: Product, took: nat)
    requires p.id == q.id && p != q
    ensures var db, ls := map[p.id := p], OldestRead(p, q, took);
            && Run(db, ls).clock == took + 1000 * PRODUCT_TTL && Run(db, ls).cache == map[p.id := Entry(p, 0, took)]
            && forall n :: 4 <= n <= |ls| ==> Run(db, ls[..n]).db == map[p.id := q]
  {
    var db, ls := map[p.id := p], OldestRead(p, q, took);
    OldestReadFetches(p, q, took);
    assert ls[..5] == ls[..4] + [ls[4]] && ls[..6] == ls[..5] + [ls[5]] && ls == ls[..6] + [ls[6]] && ls[..7] == ls;
    RunSnoc(db, ls[..4], ls[4]);
    RunSnoc(db, ls[..5], ls[5]);
    RunSnoc(db, ls[..6], ls[6]);
  }

  /** The bound is attained: for every duration of the caching operation there is a run that
      serves a product whose row was overwritten exactly that long and 900 seconds before. */
  lemma StalenessIsAttained(p: Product, q: Product, took: nat)
    requires p.id == q.id && p != q
    ensures var db, ls := map[p.id := p], OldestRead(p, q, took);
            var s := Run(db, ls);
            && Keyed(db) && Served(s, p.id) == Some(p) && s.cache[p.id].stored - s.cache[p.id].begun == took
            && forall n: nat, from: nat, until: nat :: HeldThen(db, ls, n, p, from, until) ==>
                 s.clock - Run(db, ls[..n]).clock == 1000 * PRODUCT_TTL + took
  {
    var db, ls := map[p.id := p], OldestRead(p, q, took);
    OldestReadFetches(p, q, took);
    OldestReadEnds(p, q, took);
    forall n: nat, from: nat, until: nat | HeldThen(db, ls, n, p, from, until) ensures Run(db, ls[..n]).clock == 0 {
      assert n < 4;
    }
  }
}
