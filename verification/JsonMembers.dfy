/** What is at a key of a JSON value, without the functions that look it up; and that they find exactly that. */
module JsonMembers {
  import opened Results
  import opened Json

  /** `v` is an object with this value at this key. */
  predicate At(v: Json, key: string, x: Json) {
    v.Object? && exists i | 0 <= i < |v.fields| :: FirstAt(v.fields, key, i) && v.fields[i].1 == x
  }

  predicate FirstAt(fields: seq<Field>, key: string, i: nat)
    requires i < |fields|
  {
    fields[i].0 == key && forall j | 0 <= j < i :: fields[j].0 != key
  }

  /** The text at the key, or none when there is no text there. */
  ghost predicate TextAt(v: Json, key: string, t: Option<string>) {
    match t
    case Some(text) => At(v, key, Str(text))
    case None => forall text :: !At(v, key, Str(text))
  }

  /** An integer of 64 bits is at the key. */
  ghost predicate CountAt(v: Json, key: string, n: int) {
    -0x8000_0000_0000_0000 <= n <= 0x7fff_ffff_ffff_ffff && exists text :: At(v, key, Number(Some(n), text))
  }

  lemma {:induction false} GetIsFirst(fields: seq<Field>, key: string, x: Json)
    ensures Get(fields, key) == Some(x) <==> exists i | 0 <= i < |fields| :: FirstAt(fields, key, i) && fields[i].1 == x
  {
    if |fields| != 0 {
      if fields[0].0 == key {
        assert FirstAt(fields, key, 0);
      } else {
        var rest := fields[1..];
        GetIsFirst(rest, key, x);
        if i :| 0 <= i < |rest| && FirstAt(rest, key, i) && rest[i].1 == x {
          assert forall j | 0 < j < i + 1 :: fields[j] == rest[j - 1];
          assert FirstAt(fields, key, i + 1) && fields[i + 1].1 == x;
        }
        if i :| 0 <= i < |fields| && FirstAt(fields, key, i) && fields[i].1 == x {
          assert i > 0 && forall j | 0 <= j < i - 1 :: rest[j] == fields[j + 1];
          assert FirstAt(rest, key, i - 1) && rest[i - 1].1 == x;
        }
      }
    }
  }

  lemma MemberIs(v: Json, key: string, x: Json)
    ensures Member(v, key) == Some(x) <==> At(v, key, x)
  {
    if v.Object? {
      GetIsFirst(v.fields, key, x);
    }
  }

  lemma TextIs(v: Json, key: string, t: Option<string>)
    ensures AsText(Member(v, key)) == t <==> TextAt(v, key, t)
  {
    forall text ensures Member(v, key) == Some(Str(text)) <==> At(v, key, Str(text)) {
      MemberIs(v, key, Str(text));
    }
  }

  function IntegerOf(v: Json, key: string): Option<int> {
    var x := Member(v, key);
    if x.Some? then AsI64(x.value) else None
  }

  lemma CountIs(v: Json, key: string, n: int)
    ensures IntegerOf(v, key) == Some(n) <==> CountAt(v, key, n)
  {
    forall text ensures Member(v, key) == Some(Number(Some(n), text)) <==> At(v, key, Number(Some(n), text)) {
      MemberIs(v, key, Number(Some(n), text));
    }
    if IntegerOf(v, key) == Some(n) {
      assert At(v, key, Number(Some(n), Member(v, key).value.text));
    }
  }

  // ---------------------------------------------------------------------
  // Values inside values.

  /** What is reached by going down through the items and members of these numbers. */
  function Inside(v: Json, path: seq<nat>): Option<Json>
    decreases |path|
  {
    if |path| == 0 then Some(v)
    else if v.Array? && path[0] < |v.items| then Inside(v.items[path[0]], path[1..])
    else if v.Object? && path[0] < |v.fields| then Inside(v.fields[path[0]].1, path[1..])
    else None
  }

  /** The object there, if there is one, repeats no key. */
  predicate KeysDiffer(v: Json, path: seq<nat>) {
    Inside(v, path).Some? && Inside(v, path).value.Object? ==> UniqueKeys(Inside(v, path).value.fields)
  }

  lemma {:induction false} DistinctInside(v: Json, path: seq<nat>)
    requires Distinct(v)
    ensures KeysDiffer(v, path)
    decreases |path|
  {
    if |path| > 0 && v.Array? && path[0] < |v.items| {
      DistinctInside(v.items[path[0]], path[1..]);
    } else if |path| > 0 && v.Object? && path[0] < |v.fields| {
      DistinctInside(v.fields[path[0]].1, path[1..]);
    }
  }

  lemma GoDown(v: Json, k: nat, path: seq<nat>)
    ensures v.Array? && k < |v.items| ==> Inside(v, [k] + path) == Inside(v.items[k], path)
    ensures v.Object? && k < |v.fields| ==> Inside(v, [k] + path) == Inside(v.fields[k].1, path)
  {
    assert ([k] + path)[1..] == path;
  }

  lemma {:induction false} RepeatInside(v: Json) returns (path: seq<nat>)
    requires !Distinct(v)
    ensures !KeysDiffer(v, path)
    decreases v
  {
    if v.Array? {
      var k :| 0 <= k < |v.items| && !Distinct(v.items[k]);
      var deeper := RepeatInside(v.items[k]);
      GoDown(v, k, deeper);
      path := [k] + deeper;
    } else if UniqueKeys(v.fields) {
      var k :| 0 <= k < |v.fields| && !Distinct(v.fields[k].1);
      var deeper := RepeatInside(v.fields[k].1);
      GoDown(v, k, deeper);
      path := [k] + deeper;
    } else {
      path := [];
    }
  }

  /** Keys are distinct all through exactly when no object, however deep, repeats one. */
  lemma DistinctExactly(v: Json)
    ensures Distinct(v) <==> forall path: seq<nat> :: KeysDiffer(v, path)
  {
    if Distinct(v) {
      forall path: seq<nat> ensures KeysDiffer(v, path) {
        DistinctInside(v, path);
      }
    } else {
      var path := RepeatInside(v);
    }
  }
}
