/**
The allowlist as data: what may appear, what is removed, and what is refused
(`request.rs`, the object shapes and checks). Interpreting the tables is one
recursive function; which values a table accepts unchanged is stated apart.
*/
module Schema {
  import opened Results
  import opened Json

  datatype Code =
    | InvalidJson
    | DuplicateKey
    | UnsupportedParameter
    | MissingParameter
    | InvalidValue
    | ServerSideState
    | HostedTool
    | UnsupportedInputItem
    | RemoteReference

  datatype Scalar =
    | AnyString
    | NonEmptyString
    | Boolean
    | BooleanOrNull
    | AnyNumber
    | PositiveInteger
    | AnyObject
    | NotDeferred
    | InlineImage
    | OneOf(options: seq<string>)
    | StringMap

  /** `Typed` picks the shape by the object's `type`; an `Item` without one is a
      message when it has a role. */
  datatype Check =
    | Leaf(scalar: Scalar)
    | ArrayOf(element: Check)
    | TextOr(element: Check)
    | ObjectOf(shape: Shape)
    | Typed(shapes: map<string, Shape>, refused: map<string, Code>, otherwise: Code)
    | Item(shapes: map<string, Shape>)
    | Choice(options: seq<string>, shapes: map<string, Shape>)

  datatype Rule = Keep(check: Check) | Strip

  datatype Shape = Shape(fields: map<string, Rule>, required: seq<string>)

  // ---------------------------------------------------------------------
  // Interpretation.

  function Test(scalar: Scalar, v: Json): Option<Code> {
    var ok := match scalar
      case AnyString => v.Str?
      case NonEmptyString => v.Str? && v.s != ""
      case Boolean => v.Bool?
      case BooleanOrNull => v.Bool? || v.Null?
      case AnyNumber => v.Number?
      case PositiveInteger => AsU64(v).Some? && AsU64(v).value > 0
      case AnyObject => v.Object?
      case NotDeferred => v == Bool(false)
      case InlineImage => v.Str? && "data:" <= v.s
      case OneOf(options) => v.Str? && v.s in options
      case StringMap => v.Object? && forall i | 0 <= i < |v.fields| :: v.fields[i].1.Str?;
    if ok then None else Some(if scalar.InlineImage? && v.Str? then RemoteReference else InvalidValue)
  }

  /** The `type` of an object, which must be a string. */
  function KindOf(fields: seq<Field>): Result<string, Code> {
    match Get(fields, "type")
    case Some(Str(kind)) => Success(kind)
    case Some(_) => Failure(InvalidValue)
    case None => Failure(MissingParameter)
  }

  function ItemKind(fields: seq<Field>): Result<string, Code> {
    if !Has(fields, "type") && Has(fields, "role") then Success("message") else KindOf(fields)
  }

  function Run(c: Check, v: Json): Result<Json, Code>
    decreases c, 0
  {
    match c
    case Leaf(scalar) => (var e := Test(scalar, v); if e.Some? then Failure(e.value) else Success(v))
    case ArrayOf(element) =>
      if !v.Array? then Failure(InvalidValue)
      else
        var items :- Each(element, v.items);
        Success(Array(items))
    case TextOr(element) =>
      if v.Str? then Success(v)
      else if !v.Array? then Failure(InvalidValue)
      else
        var items :- Each(element, v.items);
        Success(Array(items))
    case ObjectOf(shape) =>
      if !v.Object? then Failure(InvalidValue)
      else
        var fields :- Apply(shape, v.fields);
        Success(Object(fields))
    case Typed(shapes, refused, otherwise) =>
      if !v.Object? then Failure(InvalidValue)
      else
        var kind :- KindOf(v.fields);
        if kind !in shapes then Failure(if kind in refused then refused[kind] else otherwise)
        else
          var fields :- Apply(shapes[kind], v.fields);
          Success(Object(fields))
    case Item(shapes) =>
      if !v.Object? then Failure(InvalidValue)
      else
        var kind :- ItemKind(v.fields);
        if kind !in shapes then Failure(UnsupportedInputItem)
        else
          var fields :- Apply(shapes[kind], v.fields);
          Success(Object(fields))
    case Choice(options, shapes) =>
      if v.Str? then (if v.s in options then Success(v) else Failure(InvalidValue))
      else if !v.Object? then Failure(InvalidValue)
      else
        var kind :- KindOf(v.fields);
        if kind !in shapes then Failure(InvalidValue)
        else
          var fields :- Apply(shapes[kind], v.fields);
          Success(Object(fields))
  }

  function Each(c: Check, items: seq<Json>): (r: Result<seq<Json>, Code>)
    ensures r.Success? ==> |r.value| == |items|
    decreases c, 1 + |items|
  {
    if |items| == 0 then Success([])
    else
      var first :- Run(c, items[0]);
      var rest :- Each(c, items[1..]);
      Success([first] + rest)
  }

  /** The fields a shape keeps, in order; refused at the first it does not list. */
  function Normal(shape: Shape, fields: seq<Field>): Result<seq<Field>, Code>
    decreases shape, 1 + |fields|
  {
    if |fields| == 0 then Success([])
    else
      var (key, value) := fields[0];
      if key !in shape.fields then Failure(UnsupportedParameter)
      else
        match shape.fields[key]
        case Strip => Normal(shape, fields[1..])
        case Keep(check) =>
          var kept :- Run(check, value);
          var rest :- Normal(shape, fields[1..]);
          Success([(key, kept)] + rest)
  }

  function Apply(shape: Shape, fields: seq<Field>): Result<seq<Field>, Code>
    decreases shape, 2 + |fields|
  {
    var kept :- Normal(shape, fields);
    if exists name | name in shape.required :: !Has(kept, name) then Failure(MissingParameter) else Success(kept)
  }

  // ---------------------------------------------------------------------
  // What passes unchanged.

  /** A value every part of which the table lists: only kept keys, each with a
      conforming value, and everything required. */
  predicate Conforms(c: Check, v: Json)
    decreases c, 0
  {
    match c
    case Leaf(scalar) => Test(scalar, v).None?
    case ArrayOf(element) => v.Array? && forall i | 0 <= i < |v.items| :: Conforms(element, v.items[i])
    case TextOr(element) => v.Str? || (v.Array? && forall i | 0 <= i < |v.items| :: Conforms(element, v.items[i]))
    case ObjectOf(shape) => v.Object? && Fits(shape, v.fields)
    case Typed(shapes, _, _) =>
      v.Object? && KindOf(v.fields).Success? && KindOf(v.fields).value in shapes
      && Fits(shapes[KindOf(v.fields).value], v.fields)
    case Item(shapes) =>
      v.Object? && ItemKind(v.fields).Success? && ItemKind(v.fields).value in shapes
      && Fits(shapes[ItemKind(v.fields).value], v.fields)
    case Choice(options, shapes) =>
      || (v.Str? && v.s in options)
      || (v.Object? && KindOf(v.fields).Success? && KindOf(v.fields).value in shapes
          && Fits(shapes[KindOf(v.fields).value], v.fields))
  }

  predicate FieldFits(shape: Shape, field: Field)
    decreases shape, 0
  {
    && field.0 in shape.fields
    && shape.fields[field.0].Keep?
    && Conforms(shape.fields[field.0].check, field.1)
  }

  predicate Fits(shape: Shape, fields: seq<Field>)
    decreases shape, 1
  {
    && (forall i | 0 <= i < |fields| :: FieldFits(shape, fields[i]))
    && (forall name | name in shape.required :: Has(fields, name))
  }

  /** Conforming values pass unchanged. */
  lemma {:induction false} ConformingPasses(c: Check, v: Json)
    requires Conforms(c, v)
    ensures Run(c, v) == Success(v)
    decreases c, 0
  {
    match c {
      case Leaf(_) =>
      case ArrayOf(element) => EachPasses(element, v.items);
      case TextOr(element) =>
        if v.Array? {
          EachPasses(element, v.items);
        }
      case ObjectOf(shape) => FittingPasses(shape, v.fields);
      case Typed(shapes, _, _) => FittingPasses(shapes[KindOf(v.fields).value], v.fields);
      case Item(shapes) => FittingPasses(shapes[ItemKind(v.fields).value], v.fields);
      case Choice(_, shapes) =>
        if v.Object? {
          FittingPasses(shapes[KindOf(v.fields).value], v.fields);
        }
    }
  }

  lemma {:induction false} EachPasses(c: Check, items: seq<Json>)
    requires forall i | 0 <= i < |items| :: Conforms(c, items[i])
    ensures Each(c, items) == Success(items)
    decreases c, 1 + |items|
  {
    if |items| != 0 {
      ConformingPasses(c, items[0]);
      EachPasses(c, items[1..]);
      assert items == [items[0]] + items[1..];
    }
  }

  lemma {:induction false} NormalPasses(shape: Shape, fields: seq<Field>)
    requires forall i | 0 <= i < |fields| :: FieldFits(shape, fields[i])
    ensures Normal(shape, fields) == Success(fields)
    decreases shape, 1 + |fields|
  {
    if |fields| != 0 {
      assert FieldFits(shape, fields[0]);
      ConformingPasses(shape.fields[fields[0].0].check, fields[0].1);
      NormalPasses(shape, fields[1..]);
      assert fields == [fields[0]] + fields[1..];
    }
  }

  lemma FittingPasses(shape: Shape, fields: seq<Field>)
    requires Fits(shape, fields)
    ensures Apply(shape, fields) == Success(fields)
    decreases shape, 2 + |fields|
  {
    NormalPasses(shape, fields);
  }

  // ---------------------------------------------------------------------
  // What comes out conforms.

  /** The shape keeps the `type` it was chosen by. */
  predicate KeepsType(shape: Shape) {
    "type" in shape.fields && shape.fields["type"] == Keep(Leaf(AnyString))
  }

  predicate KeepsRole(shape: Shape) {
    "role" in shape.fields && shape.fields["role"].Keep?
  }

  /** Tables in which a kept object is read by the same shape again. */
  predicate Steady(c: Check)
    decreases c, 0
  {
    match c
    case Leaf(_) => true
    case ArrayOf(element) => Steady(element)
    case TextOr(element) => Steady(element)
    case ObjectOf(shape) => SteadyShape(shape)
    case Typed(shapes, _, _) => forall k | k in shapes :: KeepsType(shapes[k]) && SteadyShape(shapes[k])
    case Item(shapes) =>
      (forall k | k in shapes :: KeepsType(shapes[k]) && SteadyShape(shapes[k]))
      && ("message" in shapes ==> KeepsRole(shapes["message"]))
    case Choice(_, shapes) => forall k | k in shapes :: KeepsType(shapes[k]) && SteadyShape(shapes[k])
  }

  predicate SteadyShape(shape: Shape)
    decreases shape, 1
  {
    forall k | k in shape.fields && shape.fields[k].Keep? :: Steady(shape.fields[k].check)
  }

  /** What a shape leaves under each key. */
  lemma {:induction false} NormalGets(shape: Shape, fields: seq<Field>, key: string)
    requires Normal(shape, fields).Success?
    ensures var kept := Normal(shape, fields).value;
            if key in shape.fields && shape.fields[key].Keep? && Has(fields, key)
            then && Run(shape.fields[key].check, Get(fields, key).value).Success?
                 && Get(kept, key) == Some(Run(shape.fields[key].check, Get(fields, key).value).value)
            else Get(kept, key).None?
    decreases |fields|
  {
    if |fields| != 0 {
      NormalGets(shape, fields[1..], key);
    }
  }

  lemma KindKept(shape: Shape, fields: seq<Field>)
    requires Normal(shape, fields).Success? && KeepsType(shape)
    ensures KindOf(fields).Success? ==> KindOf(Normal(shape, fields).value) == KindOf(fields)
    ensures ItemKind(fields).Success? && (!Has(fields, "type") ==> KeepsRole(shape)) ==>
              ItemKind(Normal(shape, fields).value) == ItemKind(fields)
  {
    NormalGets(shape, fields, "type");
    NormalGets(shape, fields, "role");
  }

  /** Whatever a check lets through conforms to it, and is the value it was given
      but for fields left out. */
  lemma {:induction false} RunConforms(c: Check, v: Json)
    requires Steady(c) && Run(c, v).Success?
    ensures Conforms(c, Run(c, v).value) && Trims(v, Run(c, v).value)
    decreases c, 0
  {
    match c {
      case Leaf(_) => TrimsSelf(v);
      case ArrayOf(element) => EachConforms(element, v.items);
      case TextOr(element) =>
        if v.Array? {
          EachConforms(element, v.items);
        }
      case ObjectOf(shape) => ApplyFits(shape, v);
      case Typed(shapes, _, _) =>
        ApplyFits(shapes[KindOf(v.fields).value], v);
        KindKept(shapes[KindOf(v.fields).value], v.fields);
      case Item(shapes) =>
        ApplyFits(shapes[ItemKind(v.fields).value], v);
        KindKept(shapes[ItemKind(v.fields).value], v.fields);
      case Choice(_, shapes) =>
        if v.Object? {
          ApplyFits(shapes[KindOf(v.fields).value], v);
          KindKept(shapes[KindOf(v.fields).value], v.fields);
        }
    }
  }

  lemma {:induction false} TrimsSelf(v: Json)
    ensures Trims(v, v)
    decreases v, if v.Object? then 2 + |v.fields| else 0
  {
    if v.Array? {
      forall i | 0 <= i < |v.items| ensures Trims(v.items[i], v.items[i]) {
        TrimsSelf(v.items[i]);
      }
    } else if v.Object? {
      assert v.fields[0..] == v.fields;
      TrimsSelfFields(v, 0);
    }
  }

  lemma {:induction false} TrimsSelfFields(v: Json, i: nat)
    requires v.Object? && i <= |v.fields|
    ensures TrimsFields(v, i, v.fields[i..])
    decreases v, 1 + |v.fields| - i
  {
    if i < |v.fields| {
      TrimsSelf(v.fields[i].1);
      TrimsSelfFields(v, i + 1);
      assert v.fields[i..][1..] == v.fields[i + 1..];
    }
  }

  lemma {:induction false} EachConforms(c: Check, items: seq<Json>)
    requires Steady(c) && Each(c, items).Success?
    ensures var kept := Each(c, items).value;
            forall i | 0 <= i < |items| :: Conforms(c, kept[i]) && Trims(items[i], kept[i])
    decreases c, 1 + |items|
  {
    if |items| != 0 {
      RunConforms(c, items[0]);
      EachConforms(c, items[1..]);
      var kept := Each(c, items).value;
      forall i | 0 <= i < |items| ensures Conforms(c, kept[i]) && Trims(items[i], kept[i]) {
        if i > 0 {
          assert items[i] == items[1..][i - 1] && kept[i] == kept[1..][i - 1];
        }
      }
    }
  }

  lemma {:induction false} NormalFits(shape: Shape, v: Json, i: nat)
    requires SteadyShape(shape) && v.Object? && i <= |v.fields| && Normal(shape, v.fields[i..]).Success?
    ensures var kept := Normal(shape, v.fields[i..]).value;
            && (forall k | 0 <= k < |kept| :: FieldFits(shape, kept[k]))
            && TrimsFields(v, i, kept)
    decreases shape, 1 + |v.fields| - i
  {
    if i < |v.fields| {
      assert v.fields[i..][1..] == v.fields[i + 1..];
      NormalFits(shape, v, i + 1);
      if shape.fields[v.fields[i].0].Keep? {
        RunConforms(shape.fields[v.fields[i].0].check, v.fields[i].1);
        var kept := Normal(shape, v.fields[i..]).value;
        assert kept[1..] == Normal(shape, v.fields[i + 1..]).value;
      }
    }
  }

  lemma ApplyFits(shape: Shape, v: Json)
    requires SteadyShape(shape) && v.Object? && Apply(shape, v.fields).Success?
    ensures Fits(shape, Apply(shape, v.fields).value) && Trims(v, Object(Apply(shape, v.fields).value))
    ensures Normal(shape, v.fields) == Apply(shape, v.fields)
    decreases shape, 2 + |v.fields|
  {
    assert v.fields[0..] == v.fields;
    NormalFits(shape, v, 0);
  }

  /** A check passes exactly the conforming values unchanged, and passing is all
      it ever needs to do twice. */
  lemma FixedPoints(c: Check, v: Json)
    requires Steady(c)
    ensures Run(c, v) == Success(v) <==> Conforms(c, v)
    ensures Run(c, v).Success? ==> Run(c, Run(c, v).value) == Run(c, v)
  {
    if Run(c, v).Success? {
      RunConforms(c, v);
      ConformingPasses(c, Run(c, v).value);
    }
    if Conforms(c, v) {
      ConformingPasses(c, v);
    }
  }

  // ---------------------------------------------------------------------
  // The loop.

  function Following(normalized: seq<Field>, rest: Result<seq<Field>, Code>): Result<seq<Field>, Code> {
    if rest.Success? then Success(normalized + rest.value) else rest
  }

  lemma FollowingOn(normalized: seq<Field>, field: Field, rest: Result<seq<Field>, Code>)
    ensures Following([], rest) == rest
    ensures Following(normalized, Following([field], rest)) == Following(normalized + [field], rest)
  {
    if rest.Success? {
      assert [] + rest.value == rest.value;
      assert normalized + ([field] + rest.value) == (normalized + [field]) + rest.value;
    }
  }

  /** `Shape::apply`, on an object of distinct keys. */
  method ApplyShape(shape: Shape, fields: seq<Field>) returns (r: Result<seq<Field>, Code>)
    requires UniqueKeys(fields)
    ensures r == Apply(shape, fields)
  {
    var normalized: seq<Field> := [];
    assert fields[0..] == fields;
    FollowingOn([], ("", Null), Normal(shape, fields));
    for i := 0 to |fields|
      invariant forall k | 0 <= k < |normalized| :: exists j | 0 <= j < i :: fields[j].0 == normalized[k].0
      invariant Normal(shape, fields) == Following(normalized, Normal(shape, fields[i..]))
    {
      var (key, value) := fields[i];
      assert fields[i..][1..] == fields[i + 1..];
      if key !in shape.fields {
        return Failure(UnsupportedParameter);
      }
      match shape.fields[key] {
        case Strip =>
        case Keep(check) =>
          var kept := Run(check, value);
          if kept.Failure? {
            return Failure(kept.error);
          }
          HasExactly(normalized, key);
          PutAppends(normalized, key, kept.value);
          FollowingOn(normalized, (key, kept.value), Normal(shape, fields[i + 1..]));
          normalized := Put(normalized, key, kept.value);
      }
    }
    assert fields[|fields|..] == [] && normalized + [] == normalized;
    if exists name | name in shape.required :: !Has(normalized, name) {
      return Failure(MissingParameter);
    }
    return Success(normalized);
  }
}
