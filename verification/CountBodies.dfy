/**
The bodies whose counts, summed, bound a request's input (`request.rs`,
`input_count_bodies`; `admission.rs`, the sum).
*/
module CountBodies {
  import opened Results
  import opened Json
  import opened Request

  const COUNTED_FIELDS := [
    "model", "instructions", "input", "tools", "tool_choice", "parallel_tool_calls", "reasoning", "text"]

  function Pick(fields: seq<Field>, names: seq<string>): seq<Field> {
    if |names| == 0 then []
    else (if Has(fields, names[0]) then [(names[0], Get(fields, names[0]).value)] else []) + Pick(fields, names[1..])
  }

  predicate IsAdditionalTools(item: Json) {
    Member(item, "type") == Some(Str("additional_tools"))
  }

  function Items(req: CreateRequest): seq<Json> {
    var input := Get(req.fields, "input");
    if input.Some? && input.value.Array? then input.value.items else []
  }

  /** The items that declare tools, or the others; in order. */
  function Split(items: seq<Json>, declaring: bool): seq<Json> {
    if |items| == 0 then []
    else (if IsAdditionalTools(items[0]) == declaring then [items[0]] else []) + Split(items[1..], declaring)
  }

  function ToolsOf(item: Json): Json {
    var tools := Member(item, "tools");
    if tools.Some? then tools.value else Array([])
  }

  /** The body that counts one item's tools as if declared at the top level. */
  function BodyFor(counted: seq<Field>, remaining: seq<Json>, item: Json): seq<Field> {
    var body := Put(Put(counted, "input", Array(remaining)), "tools", ToolsOf(item));
    var choice := Get(body, "tool_choice");
    if choice.Some? && choice.value.Object? then Without(body, "tool_choice") else body
  }

  function ExtraBodies(counted: seq<Field>, remaining: seq<Json>, declaring: seq<Json>): (extra: seq<seq<Field>>)
    ensures |extra| == |declaring|
  {
    if |declaring| == 0 then []
    else [BodyFor(counted, remaining, declaring[0])] + ExtraBodies(counted, remaining, declaring[1..])
  }

  function Bodies(req: CreateRequest): seq<seq<Field>> {
    var counted := Pick(req.fields, COUNTED_FIELDS);
    [counted] + ExtraBodies(counted, Split(Items(req), false), Split(Items(req), true))
  }

  method SplitItems(items: seq<Json>) returns (remaining: seq<Json>, declaring: seq<Json>)
    ensures remaining == Split(items, false) && declaring == Split(items, true)
  {
    remaining, declaring := [], [];
    assert items[0..] == items;
    for i := 0 to |items|
      invariant Split(items, false) == remaining + Split(items[i..], false)
      invariant Split(items, true) == declaring + Split(items[i..], true)
    {
      SplitOne(items, i, remaining, false);
      SplitOne(items, i, declaring, true);
      if IsAdditionalTools(items[i]) {
        declaring := declaring + [items[i]];
      } else {
        remaining := remaining + [items[i]];
      }
    }
    assert items[|items|..] == [];
  }

  lemma SplitOne(items: seq<Json>, i: nat, so: seq<Json>, declaring: bool)
    requires i < |items|
    ensures so + Split(items[i..], declaring) ==
            (if IsAdditionalTools(items[i])
                == declaring then so + [items[i]] else so) + Split(items[i + 1..], declaring)
  {
  }

  method InputCountBodies(req: CreateRequest) returns (bodies: seq<seq<Field>>)
    ensures bodies == Bodies(req)
  {
    var counted := Pick(req.fields, COUNTED_FIELDS);
    bodies := [counted];
    var remaining, declaring := SplitItems(Items(req));
    assert declaring[0..] == declaring;
    for i := 0 to |declaring|
      invariant Bodies(req) == bodies + ExtraBodies(counted, remaining, declaring[i..])
    {
      assert declaring[i..][1..] == declaring[i + 1..];
      bodies := bodies + [BodyFor(counted, remaining, declaring[i])];
    }
  }

  // ---------------------------------------------------------------------
  // What the bodies hold.

  lemma {:induction false} PutGets(fields: seq<Field>, key: string, value: Json, other: string)
    ensures Get(Put(fields, key, value), other) == if other == key then Some(value) else Get(fields, other)
  {
    if |fields| != 0 && fields[0].0 != key {
      PutGets(fields[1..], key, value, other);
      assert ([fields[0]] + Put(fields[1..], key, value))[1..] == Put(fields[1..], key, value);
    } else if |fields| != 0 {
      assert ([(key, value)] + fields[1..])[1..] == fields[1..];
    }
  }

  lemma {:induction false} WithoutGets(fields: seq<Field>, key: string, other: string)
    requires other != key
    ensures Get(Without(fields, key), other) == Get(fields, other)
  {
    if |fields| != 0 && fields[0].0 != key {
      WithoutGets(fields[1..], key, other);
      assert ([fields[0]] + Without(fields[1..], key))[1..] == Without(fields[1..], key);
    }
  }

  /** The items are divided between the two, none lost and none repeated. */
  lemma {:induction false} SplitDivides(items: seq<Json>)
    ensures multiset(Split(items, true)) + multiset(Split(items, false)) == multiset(items)
  {
    if |items| == 0 {
      assert Split(items, true) == [] && Split(items, false) == [];
    } else {
      SplitDivides(items[1..]);
      var (x, rest) := (items[0], items[1..]);
      var (kept, left) := (Split(rest, true), Split(rest, false));
      assert items == [x] + rest;
      if IsAdditionalTools(x) {
        SplitCons(items, true);
        Divided(x, rest, kept, left);
      } else {
        SplitCons(items, false);
        Divided(x, rest, left, kept);
      }
    }
  }

  lemma SplitCons(items: seq<Json>, declares: bool)
    requires |items| > 0 && IsAdditionalTools(items[0]) == declares
    ensures Split(items, declares) == [items[0]] + Split(items[1..], declares)
    ensures Split(items, !declares) == Split(items[1..], !declares)
  {
  }

  lemma Divided(x: Json, rest: seq<Json>, here: seq<Json>, there: seq<Json>)
    requires multiset(here) + multiset(there) == multiset(rest)
    ensures multiset([x] + here) + multiset(there) == multiset([x] + rest)
  {
  }

  lemma {:induction false} SplitSorts(items: seq<Json>, declaring: bool)
    ensures forall k | 0 <= k < |Split(items, declaring)| :: IsAdditionalTools(Split(items, declaring)[k]) == declaring
  {
    if |items| != 0 {
      SplitSorts(items[1..], declaring);
    }
  }

  lemma {:induction false} PickGets(fields: seq<Field>, names: seq<string>, key: string)
    ensures Get(Pick(fields, names), key) == if key in names then Get(fields, key) else None
  {
    if |names| != 0 {
      PickGets(fields, names[1..], key);
      var rest := Pick(fields, names[1..]);
      assert names == [names[0]] + names[1..];
      if Has(fields, names[0]) {
        assert ([(names[0], Get(fields, names[0]).value)] + rest)[1..] == rest;
      } else {
        assert [] + rest == rest;
      }
    }
  }

  lemma {:induction false} PickUnique(fields: seq<Field>, names: seq<string>)
    requires forall i, j | 0 <= i < j < |names| :: names[i] != names[j]
    ensures UniqueKeys(Pick(fields, names))
  {
    if |names| != 0 {
      PickUnique(fields, names[1..]);
      PickGets(fields, names[1..], names[0]);
      HasExactly(Pick(fields, names[1..]), names[0]);
    }
  }

  lemma {:induction false} PutUnique(fields: seq<Field>, key: string, value: Json)
    requires UniqueKeys(fields)
    ensures UniqueKeys(Put(fields, key, value))
  {
    if |fields| != 0 && fields[0].0 != key {
      assert fields == [fields[0]] + fields[1..];
      PutUnique(fields[1..], key, value);
      PutGets(fields[1..], key, value, fields[0].0);
      HasExactly(fields[1..], fields[0].0);
      HasExactly(Put(fields[1..], key, value), fields[0].0);
    }
  }

  lemma {:induction false} WithoutRemoves(fields: seq<Field>, key: string)
    requires UniqueKeys(fields)
    ensures UniqueKeys(Without(fields, key)) && !Has(Without(fields, key), key)
  {
    if |fields| != 0 {
      assert fields == [fields[0]] + fields[1..];
      HasExactly(fields[1..], fields[0].0);
      if fields[0].0 != key {
        var rest := Without(fields[1..], key);
        WithoutRemoves(fields[1..], key);
        WithoutGets(fields[1..], key, fields[0].0);
        HasExactly(rest, fields[0].0);
        assert ([fields[0]] + rest)[1..] == rest;
      }
    }
  }

  /** What a field other than the tools and the input becomes: itself if it is
      counted, unless it picks out a tool that may no longer be declared. */
  function Unchanged(req: CreateRequest, key: string): Option<Json> {
    var value := Get(req.fields, key);
    if key !in COUNTED_FIELDS || (key == "tool_choice" && value.Some? && value.value.Object?) then None else value
  }

  /** `b` is the request with some list of tools declared at the top level, in place
      of every item that declares any, and with nothing else changed. */
  predicate Redeclares(req: CreateRequest, b: seq<Field>) {
    && UniqueKeys(b)
    && Has(b, "tools")
    && Get(b, "input") == Some(Array(Split(Items(req), false)))
    && (forall k | 0 <= k < |COUNTED_FIELDS| && COUNTED_FIELDS[k] != "tools" && COUNTED_FIELDS[k] != "input" ::
          Get(b, COUNTED_FIELDS[k]) == Unchanged(req, COUNTED_FIELDS[k]))
    && (forall k | 0 <= k < |b| :: b[k].0 in COUNTED_FIELDS)
  }

  /** And the list is this item's. */
  predicate Covers(req: CreateRequest, b: seq<Field>, item: Json) {
    Redeclares(req, b) && Get(b, "tools") == Some(ToolsOf(item))
  }

  /** Every field of the body for one item. */
  lemma BodyGets(req: CreateRequest, item: Json, key: string)
    ensures var b := BodyFor(Pick(req.fields, COUNTED_FIELDS), Split(Items(req), false), item);
            && UniqueKeys(b)
            && Get(b, key) ==
               if key == "tools" then Some(ToolsOf(item))
               else if key == "input" then Some(Array(Split(Items(req), false)))
               else Unchanged(req, key)
  {
    var counted, input := Pick(req.fields, COUNTED_FIELDS), Array(Split(Items(req), false));
    var body := Put(Put(counted, "input", input), "tools", ToolsOf(item));
    PickUnique(req.fields, COUNTED_FIELDS);
    PutUnique(counted, "input", input);
    PutUnique(Put(counted, "input", input), "tools", ToolsOf(item));
    forall other ensures Get(body, other) ==
      if other == "tools" then Some(ToolsOf(item)) else if other == "input" then Some(input)
      else if other in COUNTED_FIELDS then Get(req.fields, other) else None
    {
      PutGets(Put(counted, "input", input), "tools", ToolsOf(item), other);
      PutGets(counted, "input", input, other);
      PickGets(req.fields, COUNTED_FIELDS, other);
    }
    WithoutRemoves(body, "tool_choice");
    if key != "tool_choice" {
      WithoutGets(body, "tool_choice", key);
    }
  }

  lemma BodyCovers(req: CreateRequest, item: Json)
    ensures Covers(req, BodyFor(Pick(req.fields, COUNTED_FIELDS), Split(Items(req), false), item), item)
  {
    var b := BodyFor(Pick(req.fields, COUNTED_FIELDS), Split(Items(req), false), item);
    assert COUNTED_FIELDS[2] == "input" && COUNTED_FIELDS[3] == "tools";
    BodyGets(req, item, "tools");
    forall key: string ensures Get(b, key) ==
      if key == "tools" then Some(ToolsOf(item))
      else if key == "input" then Some(Array(Split(Items(req), false)))
      else Unchanged(req, key)
    {
      BodyGets(req, item, key);
    }
    forall k | 0 <= k < |b| ensures b[k].0 in COUNTED_FIELDS {
      HasExactly(b, b[k].0);
    }
  }

  lemma {:induction false} ExtraCovers(req: CreateRequest, declaring: seq<Json>, k: nat)
    requires k < |declaring|
    ensures var extra := ExtraBodies(Pick(req.fields, COUNTED_FIELDS), Split(Items(req), false), declaring);
            |extra| == |declaring| && Covers(req, extra[k], declaring[k])
  {
    BodyCovers(req, declaring[0]);
    if |declaring| > 1 {
      ExtraCovers(req, declaring[1..], if k > 0 then k - 1 else 0);
    }
  }

  /** One body for the request itself, then exactly one for each item that
      declares tools, in order. */
  lemma EveryDeclarationCovered(req: CreateRequest)
    ensures var declaring := Split(Items(req), true);
            && |Bodies(req)| == 1 + |declaring|
            && Bodies(req)[0] == Pick(req.fields, COUNTED_FIELDS)
            && forall k | 0 <= k < |declaring| :: Covers(req, Bodies(req)[1 + k], declaring[k])
  {
    var declaring := Split(Items(req), true);
    forall k | 0 <= k < |declaring| ensures Covers(req, Bodies(req)[1 + k], declaring[k]) {
      ExtraCovers(req, declaring, k);
    }
  }

  // ---------------------------------------------------------------------
  // The bound.

  const U64_MAX := 0xffff_ffff_ffff_ffff

  function Sum(counts: seq<nat>): nat {
    if |counts| == 0 then 0 else counts[0] + Sum(counts[1..])
  }

  /** `checked_add` over the counts. */
  method InputBound(counts: seq<nat>) returns (bound: Option<nat>)
    ensures bound == if Sum(counts) <= U64_MAX then Some(Sum(counts)) else None
  {
    var sum: nat := 0;
    for i := 0 to |counts|
      invariant sum <= U64_MAX
      invariant Sum(counts) == sum + Sum(counts[i..])
    {
      assert counts[i..][1..] == counts[i + 1..];
      if sum + counts[i] > U64_MAX {
        return None;
      }
      sum := sum + counts[i];
    }
    return Some(sum);
  }

  lemma {:induction false} SumDominates(counts: seq<nat>, renderings: seq<nat>)
    requires |counts| == |renderings| && forall k | 0 <= k < |counts| :: renderings[k] <= counts[k]
    ensures Sum(renderings) <= Sum(counts)
  {
    if |counts| != 0 {
      SumDominates(counts[1..], renderings[1..]);
    }
  }

  /** What the counter answers for each body. */
  function CountEach(count: seq<Field> -> nat, bodies: seq<seq<Field>>): (counts: seq<nat>)
    ensures |counts| == |bodies| && forall i | 0 <= i < |bodies| :: counts[i] == count(bodies[i])
  {
    seq<nat>(|bodies|, i requires 0 <= i < |bodies| => count(bodies[i]))
  }

  /** What it takes to render the tools of each item once. */
  function RenderEach(render: Json -> nat, items: seq<Json>): (renderings: seq<nat>)
    ensures |renderings| == |items| && forall i | 0 <= i < |items| :: renderings[i] == render(ToolsOf(items[i]))
  {
    seq<nat>(|items|, i requires 0 <= i < |items| => render(ToolsOf(items[i])))
  }

  /** The counts bound the true input, whatever the provider's counter and its
      rendering of tools are. Taken from measurement: generation renders the tools of
      each declaring item at most once more than the count of the request itself
      does; and the count of the request with a list of tools at its top level, in
      place of the declaring items, covers rendering that list. */
  lemma CountsBoundInput(req: CreateRequest, count: seq<Field> -> nat, render: Json -> nat, input: nat)
    requires input <= count(Bodies(req)[0]) + Sum(RenderEach(render, Split(Items(req), true)))
    requires forall b: seq<Field> | Redeclares(req, b) :: render(Get(b, "tools").value) <= count(b)
    ensures input <= Sum(CountEach(count, Bodies(req)))
  {
    EveryDeclarationCovered(req);
    var declaring, counts := Split(Items(req), true), CountEach(count, Bodies(req));
    forall k | 0 <= k < |declaring| ensures render(ToolsOf(declaring[k])) <= counts[1..][k] {
      assert Covers(req, Bodies(req)[1 + k], declaring[k]);
    }
    SumDominates(counts[1..], RenderEach(render, declaring));
  }
}
