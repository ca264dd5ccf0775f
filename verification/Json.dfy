/** JSON values as the proxy holds them: objects keep their fields in order. */
module Json {
  import opened Results

  /** `integer` is the number's value when it is an integer of 64 bits, signed or
      not; `text` is how it prints. */
  datatype Json =
    | Null
    | Bool(b: bool)
    | Number(integer: Option<int>, text: string)
    | Str(s: string)
    | Array(items: seq<Json>)
    | Object(fields: seq<Field>)

  type Field = (string, Json)

  const I64_MAX := 0x7fff_ffff_ffff_ffff

  function AsU64(v: Json): Option<nat> {
    if v.Number? && v.integer.Some? && v.integer.value >= 0 then Some(v.integer.value) else None
  }

  function AsI64(v: Json): Option<int> {
    if v.Number? && v.integer.Some? && -I64_MAX - 1 <= v.integer.value <= I64_MAX then v.integer else None
  }

  function AsText(v: Option<Json>): Option<string> {
    if v.Some? && v.value.Str? then Some(v.value.s) else None
  }

  /** A field of a value that may not be an object. */
  function Member(v: Json, key: string): Option<Json> {
    if v.Object? then Get(v.fields, key) else None
  }

  function Get(fields: seq<Field>, key: string): Option<Json> {
    if |fields| == 0 then None
    else if fields[0].0 == key then Some(fields[0].1)
    else Get(fields[1..], key)
  }

  predicate Has(fields: seq<Field>, key: string) {
    Get(fields, key).Some?
  }

  /** Replaces the value in place, or appends. */
  function Put(fields: seq<Field>, key: string, value: Json): seq<Field> {
    if |fields| == 0 then [(key, value)]
    else if fields[0].0 == key then [(key, value)] + fields[1..]
    else [fields[0]] + Put(fields[1..], key, value)
  }

  function Without(fields: seq<Field>, key: string): seq<Field> {
    if |fields| == 0 then []
    else if fields[0].0 == key then fields[1..]
    else [fields[0]] + Without(fields[1..], key)
  }

  predicate UniqueKeys(fields: seq<Field>) {
    forall i, j | 0 <= i < j < |fields| :: fields[i].0 != fields[j].0
  }

  /** No object, at any depth, repeats a key. */
  predicate Distinct(v: Json) {
    match v
    case Array(items) => forall i | 0 <= i < |items| :: Distinct(items[i])
    case Object(fields) => UniqueKeys(fields) && forall i | 0 <= i < |fields| :: Distinct(fields[i].1)
    case _ => true
  }

  /** `u` is `v` with object fields left out, and nothing else changed. */
  predicate Trims(v: Json, u: Json)
    decreases v, if v.Object? then 2 + |v.fields| else 0
  {
    match v
    case Array(items) =>
      u.Array? && |u.items| == |items| && forall i | 0 <= i < |items| :: Trims(items[i], u.items[i])
    case Object(_) => u.Object? && TrimsFields(v, 0, u.fields)
    case _ => u == v
  }

  /** The same for the fields from `i` on, in order. */
  predicate TrimsFields(v: Json, i: nat, kept: seq<Field>)
    requires v.Object? && i <= |v.fields|
    decreases v, 1 + |v.fields| - i
  {
    if i == |v.fields| then |kept| == 0
    else
      || TrimsFields(v, i + 1, kept)
      || (|kept| > 0 && kept[0].0 == v.fields[i].0 && Trims(v.fields[i].1, kept[0].1)
          && TrimsFields(v, i + 1, kept[1..]))
  }

  lemma {:induction false} HasExactly(fields: seq<Field>, key: string)
    ensures Has(fields, key) <==> exists i | 0 <= i < |fields| :: fields[i].0 == key
    ensures Has(fields, key) ==> exists i | 0 <= i < |fields| :: fields[i] == (key, Get(fields, key).value)
  {
    if |fields| != 0 {
      HasExactly(fields[1..], key);
      if fields[0].0 == key {
        assert fields[0] == (key, Get(fields, key).value);
      } else if Has(fields[1..], key) {
        var i :| 0 <= i < |fields[1..]| && fields[1..][i] == (key, Get(fields[1..], key).value);
        assert fields[i + 1] == (key, Get(fields, key).value);
      }
      forall i | 0 <= i < |fields| && fields[i].0 == key ensures Has(fields, key) {
        if i > 0 {
          assert fields[1..][i - 1].0 == key;
        }
      }
    }
  }

  lemma {:induction false} PutAppends(fields: seq<Field>, key: string, value: Json)
    requires !Has(fields, key)
    ensures Put(fields, key, value) == fields + [(key, value)]
  {
    if |fields| != 0 {
      PutAppends(fields[1..], key, value);
      assert fields == [fields[0]] + fields[1..];
    }
  }

  lemma {:induction false} WithoutLast(fields: seq<Field>, key: string, value: Json, more: seq<Field>)
    requires !Has(fields, key)
    ensures Without(fields + [(key, value)] + more, key) == fields + more
  {
    var all := fields + [(key, value)] + more;
    if |fields| == 0 {
      assert all[1..] == more && fields + more == more;
    } else {
      assert all[0] == fields[0] && all[1..] == fields[1..] + [(key, value)] + more;
      WithoutLast(fields[1..], key, value, more);
      assert fields + more == [fields[0]] + (fields[1..] + more);
    }
  }

  /** Leaving fields out adds no keys, and so keeps keys distinct. */
  lemma {:induction false} TrimsAddsNoKeys(v: Json, i: nat, kept: seq<Field>, k: nat)
    requires v.Object? && i <= |v.fields| && TrimsFields(v, i, kept) && k < |kept|
    ensures exists j | i <= j < |v.fields| :: v.fields[j].0 == kept[k].0
    decreases |v.fields| - i
  {
    if TrimsFields(v, i + 1, kept) {
      TrimsAddsNoKeys(v, i + 1, kept, k);
    } else if k > 0 {
      TrimsAddsNoKeys(v, i + 1, kept[1..], k - 1);
    }
  }

  lemma {:induction false} TrimsKeepsDistinct(v: Json, u: Json)
    requires Trims(v, u) && Distinct(v)
    ensures Distinct(u)
    decreases v, if v.Object? then 2 + |v.fields| else 0
  {
    if v.Array? {
      forall i | 0 <= i < |u.items| ensures Distinct(u.items[i]) {
        TrimsKeepsDistinct(v.items[i], u.items[i]);
      }
    } else if v.Object? {
      TrimsKeepsDistinctFields(v, 0, u.fields);
    }
  }

  lemma {:induction false} TrimsKeepsDistinctFields(v: Json, i: nat, kept: seq<Field>)
    requires v.Object? && i <= |v.fields| && TrimsFields(v, i, kept) && Distinct(v)
    ensures UniqueKeys(kept) && forall k | 0 <= k < |kept| :: Distinct(kept[k].1)
    decreases v, 1 + |v.fields| - i
  {
    if i < |v.fields| {
      if TrimsFields(v, i + 1, kept) {
        TrimsKeepsDistinctFields(v, i + 1, kept);
      } else {
        TrimsKeepsDistinctFields(v, i + 1, kept[1..]);
        TrimsKeepsDistinct(v.fields[i].1, kept[0].1);
        assert kept == [kept[0]] + kept[1..];
        forall k | 0 < k < |kept| ensures kept[k].0 != kept[0].0 {
          TrimsAddsNoKeys(v, i + 1, kept[1..], k - 1);
        }
      }
    }
  }
}
