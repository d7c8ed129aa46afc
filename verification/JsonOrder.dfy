/** JSON values as the kit writes them, every object with its keys in order.  What was stored under a key
    is still stored under it, and what holds of all fields before holds of all of them after, if sorting
    a value cannot change it. */
module JsonOrder {
  import opened Wrappers
  import opened Strings
  import opened JsonWalk

  const KeyOf: Field -> string := (f: Field) => f.key

  function SortFields(fs: seq<Field>): seq<Field>
    decreases fs
  {
    if fs == [] then [] else Insert(Field(fs[0].key, SortKeys(fs[0].value)), SortFields(fs[1..]), KeyOf)
  }

  function SortItems(vs: seq<Json>): (r: seq<Json>)
    ensures |r| == |vs| && forall k :: 0 <= k < |vs| ==> r[k] == SortKeys(vs[k])
    decreases vs
  {
    if vs == [] then [] else [SortKeys(vs[0])] + SortItems(vs[1..])
  }

  /** What is read back of a value that was written with sorted keys. */
  function SortKeys(v: Json): (r: Json)
    decreases v
  {
    match v
    case Arr(items) => Arr(SortItems(items))
    case Obj(fields) => Obj(SortFields(fields))
    case _ => v
  }

  lemma {:induction false} GetInserted(f: Field, fs: seq<Field>, key: string)
    ensures Get(Insert(f, fs, KeyOf), key) == if f.key == key then Some(f.value) else Get(fs, key)
  {
    if fs != [] && Less(fs[0].key, f.key) {
      LessIsStrict(fs[0].key, f.key);
      GetInserted(f, fs[1..], key);
    }
  }

  function Sorted(v: Option<Json>): Option<Json> {
    if v.Some? then Some(SortKeys(v.value)) else None
  }

  /** Sorting the keys does not change what is stored under a key, except that it is sorted too. */
  lemma {:induction false} GetSorted(fs: seq<Field>, key: string)
    ensures Get(SortFields(fs), key) == Sorted(Get(fs, key))
  {
    if fs != [] {
      GetSorted(fs[1..], key);
      GetInserted(Field(fs[0].key, SortKeys(fs[0].value)), SortFields(fs[1..]), key);
    }
  }

  /** The keys do come out in order. */
  lemma {:induction false} SortFieldsOrders(fs: seq<Field>)
    ensures InOrder(SortFields(fs), KeyOf)
  {
    if fs != [] {
      SortFieldsOrders(fs[1..]);
      InsertOrders(Field(fs[0].key, SortKeys(fs[0].value)), SortFields(fs[1..]), KeyOf);
    }
  }

  type Good = Field -> bool

  predicate AllFields(fs: seq<Field>, good: Good) {
    forall k :: 0 <= k < |fs| ==> good(fs[k])
  }

  lemma AllInserted(f: Field, fs: seq<Field>, good: Good)
    ensures AllFields(Insert(f, fs, KeyOf), good) <==> good(f) && AllFields(fs, good)
  {
    InsertMembers(f, fs, KeyOf);
    var r := Insert(f, fs, KeyOf);
    if AllFields(r, good) {
      assert f in r;
      forall k | 0 <= k < |fs| ensures good(fs[k]) {
        assert fs[k] in r;
      }
    }
    if good(f) && AllFields(fs, good) {
      forall k | 0 <= k < |r| ensures good(r[k]) {
        assert r[k] in r;
      }
    }
  }

  /** What sorting a value cannot change holds of all fields before exactly if it does after. */
  lemma {:induction false} AllSorted(fs: seq<Field>, good: Good)
    requires forall k :: 0 <= k < |fs| ==> (good(Field(fs[k].key, SortKeys(fs[k].value))) <==> good(fs[k]))
    ensures AllFields(SortFields(fs), good) <==> AllFields(fs, good)
  {
    if fs != [] {
      var rest := fs[1..];
      AllSorted(rest, good);
      AllInserted(Field(fs[0].key, SortKeys(fs[0].value)), SortFields(rest), good);
      AllFirst(fs, good);
    }
  }

  lemma AllFirst(fs: seq<Field>, good: Good)
    requires fs != []
    ensures AllFields(fs, good) <==> good(fs[0]) && AllFields(fs[1..], good)
  {
    assert fs == [fs[0]] + fs[1..];
  }
}
