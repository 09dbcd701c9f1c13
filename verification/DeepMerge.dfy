/** libs/utils/src/helpers.ts, lines 68-98: recursive merge of plain objects. */
module DeepMerge {
  /** A plain value; numbers, strings and booleans are leaves. */
  datatype Value = Undefined | Null | Leaf(text: string) | Arr(items: seq<Value>) | Obj(fields: map<string, Value>) {
    predicate Nullish() { Undefined? || Null? }
  }

  predicate BothObjects(t: Value, s: Value, k: string)
    requires t.Obj? && s.Obj?
  {
    k in t.fields && k in s.fields && t.fields[k].Obj? && s.fields[k].Obj?
  }

  /** The keys of the merge: the target's, and those to which the source gives a value. */
  function Keys(t: Value, s: Value): set<string>
    requires t.Obj? && s.Obj?
  {
    t.fields.Keys + set k | k in s.fields && !s.fields[k].Nullish()
  }

  function Merge(t: Value, s: Value): (r: Value)
    requires t.Obj? && s.Obj?
    ensures r.Obj? && r.fields.Keys == Keys(t, s)
    decreases s
  {
    Obj(map k | k in Keys(t, s) ::
      if k !in s.fields || s.fields[k].Nullish() then t.fields[k]
      else if BothObjects(t, s, k) then Merge(t.fields[k], s.fields[k])
      else s.fields[k])
  }

  /** What an object holds under a key, and what merging makes of two such entries. */
  datatype Entry = Absent | Present(value: Value)

  function At(v: Value, k: string): Entry
    requires v.Obj?
  {
    if k in v.fields then Present(v.fields[k]) else Absent
  }

  function Over(x: Entry, y: Entry): Entry {
    if y.Absent? || y.value.Nullish() then x
    else if x.Present? && x.value.Obj? && y.value.Obj? then Present(Merge(x.value, y.value))
    else y
  }

  lemma MergeAt(t: Value, s: Value, k: string)
    requires t.Obj? && s.Obj?
    ensures At(Merge(t, s), k) == Over(At(t, k), At(s, k))
  {
  }

  lemma EqualIffAgree(v: Value, w: Value)
    requires v.Obj? && w.Obj?
    ensures v == w <==> forall k :: At(v, k) == At(w, k)
  {
    if forall k :: At(v, k) == At(w, k) {
      forall k ensures k in v.fields <==> k in w.fields { assert At(v, k) == At(w, k); }
      forall k | k in v.fields ensures v.fields[k] == w.fields[k] { assert At(v, k) == At(w, k); }
      assert v.fields == w.fields;
    }
  }

  /** The loop visits the source's entries in some order and merges each into the copy. */
  method DeepMerge(target: Value, source: Value) returns (result: Value)
    requires target.Obj? && source.Obj?
    ensures result == Merge(target, source)
    decreases source
  {
    result := target;
    var entries := source.fields.Keys;
    while entries != {}
      invariant entries <= source.fields.Keys && result.Obj?
      invariant forall k :: At(result, k) == if k in entries then At(target, k) else Over(At(target, k), At(source, k))
      decreases |entries|
    {
      hide Merge;
      var key :| key in entries;
      entries := entries - {key};
      var value := source.fields[key];
      assert At(result, key) == At(target, key);
      if value.Undefined? || value.Null? {
        continue;
      }
      if value.Obj? && key in result.fields && result.fields[key].Obj? {
        var merged := DeepMerge(result.fields[key], value);
        result := Obj(result.fields[key := merged]);
      } else {
        result := Obj(result.fields[key := value]);
      }
    }
    forall k ensures At(result, k) == At(Merge(target, source), k) { MergeAt(target, source, k); }
    EqualIffAgree(result, Merge(target, source));
  }

  lemma {:induction false} MergeSelf(v: Value)
    requires v.Obj?
    ensures Merge(v, v) == v
    decreases v
  {
    forall k | k in v.fields && v.fields[k].Obj? ensures Merge(v.fields[k], v.fields[k]) == v.fields[k] {
      MergeSelf(v.fields[k]);
    }
  }

  /** Merging the same source twice is merging it once. */
  lemma {:induction false} IdempotentInSource(t: Value, s: Value)
    requires t.Obj? && s.Obj?
    ensures Merge(Merge(t, s), s) == Merge(t, s)
    decreases s
  {
    forall k | k in s.fields && s.fields[k].Obj?
      ensures Merge(Merge(t, s).fields[k], s.fields[k]) == Merge(t, s).fields[k]
    {
      MergeSelf(s.fields[k]);
      if BothObjects(t, s, k) { IdempotentInSource(t.fields[k], s.fields[k]); }
    }
  }

  /** Nothing of x is left to see once z is merged over it. */
  ghost predicate Absorbs(z: Value, x: Value)
    requires z.Obj? && x.Obj?
    decreases z
  {
    && x.fields.Keys <= z.fields.Keys
    && (forall k :: k in z.fields && z.fields[k].Nullish() ==> k in x.fields && x.fields[k] == z.fields[k])
    && (forall k :: k in z.fields && BothObjects(x, z, k) ==> Absorbs(z.fields[k], x.fields[k]))
  }

  lemma {:induction false} AbsorbedIff(x: Value, z: Value)
    requires z.Obj? && x.Obj?
    ensures Merge(x, z) == z <==> Absorbs(z, x)
    decreases z
  {
    forall k | k in z.fields && BothObjects(x, z, k)
      ensures Merge(x.fields[k], z.fields[k]) == z.fields[k] <==> Absorbs(z.fields[k], x.fields[k])
    {
      AbsorbedIff(x.fields[k], z.fields[k]);
    }
  }

  /** At this key there is not an object in a, neither null nor an object in b, and an object in
      c - unless c's object absorbs a's; and so on below objects. */
  ghost predicate KeptAt(a: Value, b: Value, c: Value, k: string)
    requires a.Obj? && b.Obj? && c.Obj?
    decreases c
  {
    BothObjects(a, c, k) && k in b.fields && !b.fields[k].Nullish() ==>
      if b.fields[k].Obj? then forall j :: KeptAt(a.fields[k], b.fields[k], c.fields[k], j)
      else Absorbs(c.fields[k], a.fields[k])
  }

  ghost predicate NothingLost(a: Value, b: Value, c: Value)
    requires a.Obj? && b.Obj? && c.Obj?
  {
    forall k :: KeptAt(a, b, c, k)
  }

  /** How the two groupings compare on entries, given how they compare on objects below. */
  lemma OverAssociates(x: Entry, y: Entry, z: Entry)
    ensures var all := x.Present? && x.value.Obj? && z.Present? && z.value.Obj? && y.Present? && !y.value.Nullish();
            Over(Over(x, y), z) == Over(x, Over(y, z)) <==>
              (all ==> if y.value.Obj?
                       then Merge(Merge(x.value, y.value), z.value) == Merge(x.value, Merge(y.value, z.value))
                       else Merge(x.value, z.value) == z.value)
  {
  }

  lemma AgreeAtKey(a: Value, b: Value, c: Value, k: string)
    requires a.Obj? && b.Obj? && c.Obj?
    requires BothObjects(a, c, k) && BothObjects(a, b, k) ==>
               (Merge(Merge(a.fields[k], b.fields[k]), c.fields[k])
                  == Merge(a.fields[k], Merge(b.fields[k], c.fields[k]))
                <==> NothingLost(a.fields[k], b.fields[k], c.fields[k]))
    requires BothObjects(a, c, k) ==>
             (Merge(a.fields[k], c.fields[k]) == c.fields[k] <==> Absorbs(c.fields[k], a.fields[k]))
    ensures At(Merge(Merge(a, b), c), k) == At(Merge(a, Merge(b, c)), k) <==> KeptAt(a, b, c, k)
  {
    MergeAt(a, b, k);
    MergeAt(b, c, k);
    MergeAt(Merge(a, b), c, k);
    MergeAt(a, Merge(b, c), k);
    OverAssociates(At(a, k), At(b, k), At(c, k));
    hide NothingLost, Absorbs, Merge, Over;
  }

  lemma {:induction false} AgreesAt(a: Value, b: Value, c: Value, k: string)
    requires a.Obj? && b.Obj? && c.Obj?
    ensures At(Merge(Merge(a, b), c), k) == At(Merge(a, Merge(b, c)), k) <==> KeptAt(a, b, c, k)
    decreases c, 0
  {
    hide Merge, At, KeptAt, NothingLost, Absorbs;
    if BothObjects(a, c, k) {
      AbsorbedIff(a.fields[k], c.fields[k]);
      if BothObjects(a, b, k) { AssociativeIff(a.fields[k], b.fields[k], c.fields[k]); }
    }
    AgreeAtKey(a, b, c, k);
  }

  /** Merging three objects gives the same in either grouping exactly when nothing is lost. */
  lemma {:induction false} AssociativeIff(a: Value, b: Value, c: Value)
    requires a.Obj? && b.Obj? && c.Obj?
    ensures Merge(Merge(a, b), c) == Merge(a, Merge(b, c)) <==> NothingLost(a, b, c)
    decreases c, 1
  {
    hide Merge, At, KeptAt, Absorbs;
    var left, right := Merge(Merge(a, b), c), Merge(a, Merge(b, c));
    forall k ensures At(Merge(Merge(a, b), c), k) == At(Merge(a, Merge(b, c)), k) <==> KeptAt(a, b, c, k) {
      AgreesAt(a, b, c, k);
    }
    EqualIffAgree(left, right);
    if NothingLost(a, b, c) {
      forall k ensures At(left, k) == At(right, k) { assert KeptAt(a, b, c, k); }
    } else {
      var k :| !KeptAt(a, b, c, k);
      assert At(left, k) != At(right, k);
    }
  }

  /** In particular when no path holds an object, then something else, then an object again. */
  ghost predicate NoClash(a: Value, b: Value, c: Value)
    requires a.Obj? && b.Obj? && c.Obj?
    decreases c
  {
    forall k :: k in c.fields && BothObjects(a, c, k) && k in b.fields && !b.fields[k].Nullish() ==>
      b.fields[k].Obj? && NoClash(a.fields[k], b.fields[k], c.fields[k])
  }

  lemma {:induction false} AssociativeWithoutClash(a: Value, b: Value, c: Value)
    requires a.Obj? && b.Obj? && c.Obj? && NoClash(a, b, c)
    ensures Merge(Merge(a, b), c) == Merge(a, Merge(b, c))
  {
    NoClashLosesNothing(a, b, c);
    AssociativeIff(a, b, c);
  }

  lemma {:induction false} NoClashLosesNothing(a: Value, b: Value, c: Value)
    requires a.Obj? && b.Obj? && c.Obj? && NoClash(a, b, c)
    ensures NothingLost(a, b, c)
    decreases c
  {
    forall k ensures KeptAt(a, b, c, k) {
      if BothObjects(a, c, k) && k in b.fields && !b.fields[k].Nullish() {
        NoClashLosesNothing(a.fields[k], b.fields[k], c.fields[k]);
      }
    }
  }

  /** What is found by following keys down from a value. */
  function ValueAt(v: Value, path: seq<string>): Entry
    decreases |path|
  {
    if path == [] then Present(v)
    else if v.Obj? && path[0] in v.fields then ValueAt(v.fields[path[0]], path[1..])
    else Absent
  }

  /** The source says nothing at the path: on the way down it meets a missing key, undefined or null
      before anything that is not an object. */
  predicate Silent(s: Value, path: seq<string>)
    decreases |path|
  {
    s.Obj? && path != []
    && (path[0] !in s.fields || s.fields[path[0]] == Undefined || s.fields[path[0]] == Null
        || Silent(s.fields[path[0]], path[1..]))
  }

  /** Whatever the source holds at a path that is neither an object, nor undefined, nor null, is there
      afterwards, whatever the target holds. */
  lemma {:induction false} SourceWins(t: Value, s: Value, path: seq<string>, w: Value)
    requires t.Obj? && s.Obj? && path != []
    requires ValueAt(s, path) == Present(w) && (w.Leaf? || w.Arr?)
    ensures ValueAt(Merge(t, s), path) == Present(w)
    decreases |path|
  {
    var k := path[0];
    if BothObjects(t, s, k) && |path| > 1 { SourceWins(t.fields[k], s.fields[k], path[1..], w); }
  }

  /** Where the source says nothing, the target stays as it is. */
  lemma {:induction false} TargetStays(t: Value, s: Value, path: seq<string>)
    requires t.Obj? && Silent(s, path)
    ensures ValueAt(t, path).Present? ==> ValueAt(Merge(t, s), path) == ValueAt(t, path)
    decreases |path|
  {
    var k := path[0];
    if BothObjects(t, s, k) && |path| > 1 && Silent(s.fields[k], path[1..]) {
      TargetStays(t.fields[k], s.fields[k], path[1..]);
    }
  }

  /** And where both hold an object, their merge is there. */
  lemma {:induction false} ObjectsMerge(t: Value, s: Value, path: seq<string>, a: Value, b: Value)
    requires t.Obj? && s.Obj? && ValueAt(t, path) == Present(a) && ValueAt(s, path) == Present(b) && a.Obj? && b.Obj?
    ensures ValueAt(Merge(t, s), path) == Present(Merge(a, b))
    decreases |path|
  {
    if path != [] { ObjectsMerge(t.fields[path[0]], s.fields[path[0]], path[1..], a, b); }
  }
}
