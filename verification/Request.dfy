/**
A client's request: parsed once against the allowlist, and normalised into the
body sent upstream (`request.rs`).
*/
module Request {
  import opened Results
  import opened Json
  import opened Schema
  import opened RequestTables

  datatype CreateRequest = CreateRequest(fields: seq<Field>, model: string, maxOutputTokens: Option<nat>)

  /** The fields kept so far, and `stream` once seen. */
  datatype Parsed = Parsed(fields: seq<Field>, stream: Option<Json>)

  function TakeField(field: Field): Result<Parsed, Code> {
    var (key, value) := field;
    match RuleFor(key)
    case Kept(check) =>
      var kept :- Run(check, value);
      Success(Parsed([(key, kept)], None))
    case Dropped(check) =>
      var _ :- Run(check, value);
      Success(Parsed([], None))
    case Ignored => Success(Parsed([], None))
    case Stream => Success(Parsed([], Some(value)))
    case Background => if value.Null? || value == Bool(false) then Success(Parsed([], None)) else Failure(InvalidValue)
    case ServerState => if value.Null? then Success(Parsed([], None)) else Failure(ServerSideState)
    case Unlisted => Failure(UnsupportedParameter)
  }

  function Then(first: Parsed, rest: Parsed): Parsed {
    Parsed(first.fields + rest.fields, if rest.stream.Some? then rest.stream else first.stream)
  }

  function Walk(fields: seq<Field>): Result<Parsed, Code> {
    if |fields| == 0 then Success(Parsed([], None))
    else
      var first :- TakeField(fields[0]);
      var rest :- Walk(fields[1..]);
      Success(Then(first, rest))
  }

  function Finish(p: Parsed): Result<CreateRequest, Code> {
    if p.stream.None? then Failure(MissingParameter)
    else if p.stream != Some(Bool(true)) then Failure(InvalidValue)
    else if !(Has(p.fields, "model") && Get(p.fields, "model").value.Str?) then Failure(MissingParameter)
    else if !Has(p.fields, "input") then Failure(MissingParameter)
    else
      var cap := Get(p.fields, "max_output_tokens");
      Success(CreateRequest(p.fields, Get(p.fields, "model").value.s,
                            if cap.Some? then AsU64(cap.value) else None))
  }

  /** `v` is the body as lexed; objects in it may still repeat keys. */
  function Parse(v: Json): Result<CreateRequest, Code> {
    if !Distinct(v) then Failure(DuplicateKey)
    else if !v.Object? then Failure(InvalidJson)
    else
      var p :- Walk(v.fields);
      Finish(p)
  }

  function UpstreamBody(req: CreateRequest, background: bool): seq<Field> {
    var b := Put(req.fields, "background", Bool(background));
    var st := Put(b, "store", Bool(true));
    var sm := Put(st, "stream", Bool(true));
    Put(sm, "service_tier", Str("default"))
  }

  // ---------------------------------------------------------------------
  // The loop.

  function Onward(so: Parsed, rest: Result<Parsed, Code>): Result<Parsed, Code> {
    if rest.Success? then Success(Then(so, rest.value)) else rest
  }

  lemma OnwardTwice(so: Parsed, one: Parsed, rest: Result<Parsed, Code>)
    ensures Onward(Parsed([], None), rest) == rest
    ensures Onward(so, Onward(one, rest)) == Onward(Then(so, one), rest)
    ensures Onward(so, Success(Parsed([], None))) == Success(so)
  {
    assert so.fields + [] == so.fields;
    if rest.Success? {
      assert [] + rest.value.fields == rest.value.fields;
      assert so.fields + (one.fields + rest.value.fields) == (so.fields + one.fields) + rest.value.fields;
    }
  }

  lemma WalkOne(fields: seq<Field>, i: nat)
    requires i < |fields|
    ensures var one := TakeField(fields[i]);
            Walk(fields[i..]) == if one.Success? then Onward(one.value, Walk(fields[i + 1..])) else Failure(one.error)
  {
  }

  /** Putting a key not yet there is appending it. */
  lemma PutNew(fields: seq<Field>, i: nat, kept: seq<Field>, value: Json)
    requires UniqueKeys(fields) && i < |fields| && From(fields, i, kept)
    ensures Put(kept, fields[i].0, value) == kept + [(fields[i].0, value)]
  {
  }

  /** The kept keys come from the fields before `i`. */
  predicate From(fields: seq<Field>, i: nat, kept: seq<Field>)
    requires i <= |fields|
  {
    forall k | 0 <= k < |kept| :: exists j | 0 <= j < i :: fields[j].0 == kept[k].0
  }

  /** `CreateRequest::parse`, on an object of distinct keys. */
  method ParseFields(fields: seq<Field>) returns (r: Result<CreateRequest, Code>)
    requires Distinct(Object(fields))
    ensures r == Parse(Object(fields))
  {
    var kept: seq<Field>, stream := [], None;
    assert fields[0..] == fields;
    OnwardTwice(Parsed([], None), Parsed([], None), Walk(fields));
    for i := 0 to |fields|
      invariant From(fields, i, kept)
      invariant Walk(fields) == Onward(Parsed(kept, stream), Walk(fields[i..]))
    {
      WalkOne(fields, i);
      var one := TakeField(fields[i]);
      if one.Failure? {
        return Failure(one.error);
      }
      OnwardTwice(Parsed(kept, stream), one.value, Walk(fields[i + 1..]));
      match RuleFor(fields[i].0) {
        case Kept(check) =>
          PutNew(fields, i, kept, Run(check, fields[i].1).value);
          kept := Put(kept, fields[i].0, Run(check, fields[i].1).value);
        case Stream =>
          assert kept + [] == kept;
          stream := Some(fields[i].1);
        case _ =>
          assert kept + [] == kept;
      }
    }
    assert fields[|fields|..] == [];
    OnwardTwice(Parsed(kept, stream), Parsed([], None), Success(Parsed([], None)));
    return Finish(Parsed(kept, stream));
  }

  // ---------------------------------------------------------------------
  // What parsing keeps.

  /** Kept by the allowlist, and fit to be kept again. */
  predicate Listed(field: Field) {
    CheckFor(field.0).Some? && Conforms(CheckFor(field.0).value, field.1)
  }

  predicate AllListed(fields: seq<Field>) {
    forall k | 0 <= k < |fields| :: Listed(fields[k])
  }

  /** What one field leaves: itself trimmed and listed, or nothing. */
  lemma FieldKeeps(field: Field)
    requires TakeField(field).Success?
    ensures var kept := TakeField(field).value.fields;
            || kept == []
            || (|kept| == 1 && kept[0].0 == field.0 && Listed(kept[0]) && Trims(field.1, kept[0].1))
  {
    if CheckFor(field.0).Some? {
      KeptSteady(field.0);
      RunConforms(CheckFor(field.0).value, field.1);
    }
  }

  lemma TrimsOneMore(v: Json, i: nat, kept: seq<Field>, rest: seq<Field>)
    requires v.Object? && i < |v.fields| && TrimsFields(v, i + 1, rest) && AllListed(rest)
    requires kept == [] || (|kept| == 1 && kept[0].0 == v.fields[i].0 && Listed(kept[0])
        && Trims(v.fields[i].1, kept[0].1))
    ensures TrimsFields(v, i, kept + rest) && AllListed(kept + rest)
  {
    if kept == [] {
      assert kept + rest == rest;
    } else {
      assert (kept + rest)[1..] == rest;
    }
  }

  lemma {:induction false} WalkKeeps(v: Json, i: nat)
    requires v.Object? && i <= |v.fields| && Walk(v.fields[i..]).Success?
    ensures var p := Walk(v.fields[i..]).value;
            AllListed(p.fields) && TrimsFields(v, i, p.fields)
    decreases |v.fields| - i
  {
    if i < |v.fields| {
      WalkOne(v.fields, i);
      WalkKeeps(v, i + 1);
      FieldKeeps(v.fields[i]);
      TrimsOneMore(v, i, TakeField(v.fields[i]).value.fields, Walk(v.fields[i + 1..]).value.fields);
    }
  }

  /** Listed fields are walked over unchanged. */
  lemma {:induction false} WalkAgain(fields: seq<Field>, tail: seq<Field>)
    requires AllListed(fields)
    ensures Walk(fields + tail) == Onward(Parsed(fields, None), Walk(tail))
  {
    if |fields| == 0 {
      assert fields + tail == tail;
      OnwardTwice(Parsed([], None), Parsed([], None), Walk(tail));
    } else {
      var first, rest := fields[0], fields[1..];
      assert (fields + tail)[0] == first && (fields + tail)[1..] == rest + tail;
      WalkAgain(rest, tail);
      ConformingPasses(CheckFor(first.0).value, first.1);
      OnwardTwice(Parsed([first], None), Parsed(rest, None), Walk(tail));
      assert [first] + rest == fields;
    }
  }

  const ADDED: seq<Field> := [("store", Bool(true)), ("stream", Bool(true)), ("service_tier", Str("default"))]

  lemma WalkCons(field: Field, tail: seq<Field>)
    ensures var one := TakeField(field);
            Walk([field] + tail) == if one.Success? then Onward(one.value, Walk(tail)) else Failure(one.error)
  {
  }

  lemma AddedWalks()
    ensures Walk(ADDED) == Success(Parsed([], Some(Bool(true))))
    ensures Walk([("background", Bool(false))] + ADDED) == Success(Parsed([], Some(Bool(true))))
    ensures Walk([("background", Bool(true))] + ADDED) == Failure(InvalidValue)
  {
    AddedNotKept();
    var tier := [("service_tier", Str("default"))];
    assert tier + [] == tier && [("stream", Bool(true))] + tier == ADDED[1..]
        && [("store", Bool(true))] + ADDED[1..] == ADDED;
    assert TakeField(("service_tier", Str("default"))) == Success(Parsed([], None));
    assert TakeField(("store", Bool(true))) == Success(Parsed([], None));
    WalkCons(("service_tier", Str("default")), []);
    OnwardTwice(Parsed([], None), Parsed([], None), Walk([]));
    OnwardTwice(Parsed([], None), Parsed([], None), Walk(tier));
    OnwardTwice(Parsed([], None), Parsed([], None), Walk(ADDED[1..]));
    WalkCons(("stream", Bool(true)), tier);
    WalkCons(("store", Bool(true)), ADDED[1..]);
    WalkCons(("background", Bool(false)), ADDED);
    WalkCons(("background", Bool(true)), ADDED);
  }

  /** The upstream body is the kept fields and the four QuotaMiser sets. */
  lemma BodyIs(req: CreateRequest, background: bool)
    requires AllListed(req.fields)
    ensures UpstreamBody(req, background) == req.fields + [("background", Bool(background))] + ADDED
    ensures Without(UpstreamBody(req, background), "background") == req.fields + ADDED
  {
    AddedNotKept();
    var b := req.fields + [("background", Bool(background))];
    var st := b + [("store", Bool(true))];
    var sm := st + [("stream", Bool(true))];
    HasExactly(req.fields, "background");
    PutAppends(req.fields, "background", Bool(background));
    HasExactly(b, "store");
    PutAppends(b, "store", Bool(true));
    HasExactly(st, "stream");
    PutAppends(st, "stream", Bool(true));
    HasExactly(sm, "service_tier");
    PutAppends(sm, "service_tier", Str("default"));
    assert sm + [("service_tier", Str("default"))] == b + ADDED;
    WithoutLast(req.fields, "background", Bool(background), ADDED);
  }

  lemma AddedDistinct(fields: seq<Field>, background: seq<Field>)
    requires Distinct(Object(fields)) && AllListed(fields)
    requires background == [] || exists b :: background == [("background", Bool(b))]
    ensures Distinct(Object(fields + background + ADDED))
  {
    AddedNotKept();
    var added := background + ADDED;
    assert fields + background + ADDED == fields + added;
    assert forall k | 0 <= k < |added| :: CheckFor(added[k].0).None? && Distinct(added[k].1);
  }

  /** What a successful parse says about its fields. */
  lemma ParseKeeps(v: Json)
    requires Parse(v).Success?
    ensures var req := Parse(v).value;
            && v.Object? && Walk(v.fields) == Success(Parsed(req.fields, Some(Bool(true))))
            && AllListed(req.fields)
            && TrimsFields(v, 0, req.fields)
            && Distinct(Object(req.fields))
  {
    assert v.fields[0..] == v.fields;
    WalkKeeps(v, 0);
    TrimsKeepsDistinctFields(v, 0, Parse(v).value.fields);
  }

  /** Normalisation is a fixed point. Parsing the upstream body, with
      `background` removed or false, succeeds and gives the same request, field
      order included; `background: true` is QuotaMiser's own and is refused. */
  lemma UpstreamBodyIsFixedPoint(v: Json, background: bool)
    requires Parse(v).Success?
    ensures var req := Parse(v).value;
            && Parse(Object(Without(UpstreamBody(req, background), "background"))) == Success(req)
            && Parse(Object(UpstreamBody(req, false))) == Success(req)
            && Parse(Object(UpstreamBody(req, true))) == Failure(InvalidValue)
  {
    var req := Parse(v).value;
    ParseKeeps(v);
    AddedWalks();
    BodyIs(req, background);
    assert req.fields + [] + ADDED == req.fields + ADDED;
    AddedDistinct(req.fields, []);
    WalkAgain(req.fields, ADDED);
    assert req.fields + [] == req.fields;
    Reparsed(req, false);
    Reparsed(req, true);
  }

  lemma Reparsed(req: CreateRequest, background: bool)
    requires Distinct(Object(req.fields)) && AllListed(req.fields)
    ensures Parse(Object(UpstreamBody(req, background))) ==
            if background then Failure(InvalidValue) else Finish(Parsed(req.fields, Some(Bool(true))))
  {
    BodyIs(req, background);
    AddedDistinct(req.fields, [("background", Bool(background))]);
    assert req.fields + [("background", Bool(background))] + ADDED
        == req.fields + ([("background", Bool(background))] + ADDED);
    ParsedWith(req.fields, [("background", Bool(background))] + ADDED);
    AddedWalks();
    assert req.fields + [] == req.fields;
  }

  /** Parsing listed fields followed by others. */
  lemma ParsedWith(fields: seq<Field>, tail: seq<Field>)
    requires AllListed(fields) && Distinct(Object(fields + tail))
    ensures Parse(Object(fields + tail)) ==
            var p := Walk(tail);
            if p.Success? then Finish(Parsed(fields + p.value.fields, p.value.stream)) else Failure(p.error)
  {
    WalkAgain(fields, tail);
  }

  /** Nothing is rewritten and nothing unlisted survives: what is kept is the
      client's own object with fields left out, every key of it at every depth
      on the allowlist, and no input item has an `id` or a `status`. */
  lemma OnlyListedSurvives(v: Json)
    requires Parse(v).Success?
    ensures var req := Parse(v).value;
            && Trims(v, Object(req.fields))
            && (forall k | 0 <= k < |req.fields| :: Listed(req.fields[k]))
            && Get(req.fields, "model") == Some(Str(req.model)) && req.model != ""
            && (Has(req.fields, "input") && Get(req.fields, "input").value.Array? ==>
                  forall i | 0 <= i < |Get(req.fields, "input").value.items| ::
                    var item := Get(req.fields, "input").value.items[i];
                    item.Object? && !Has(item.fields, "id") && !Has(item.fields, "status"))
  {
    var req := Parse(v).value;
    ParseKeeps(v);
    HasExactly(req.fields, "model");
    HasExactly(req.fields, "input");
    var input := Get(req.fields, "input").value;
    assert Conforms(INPUT, input);
    if input.Array? {
      forall i | 0 <= i < |input.items| ensures
        var item := input.items[i]; item.Object? && !Has(item.fields, "id") && !Has(item.fields, "status")
      {
        ItemHasNoIdentity(input.items[i]);
      }
    }
  }

  lemma ItemHasNoIdentity(item: Json)
    requires Conforms(Item(ITEM_SHAPES), item)
    ensures item.Object? && !Has(item.fields, "id") && !Has(item.fields, "status")
  {
    var kind := ItemKind(item.fields).value;
    ItemsLoseIdentity(kind);
    FitLoses(ITEM_SHAPES[kind], item.fields, "id");
    FitLoses(ITEM_SHAPES[kind], item.fields, "status");
  }

  lemma FitLoses(shape: Shape, fields: seq<Field>, key: string)
    requires Fits(shape, fields) && Loses(shape, key)
    ensures !Has(fields, key)
  {
    HasExactly(fields, key);
    forall i | 0 <= i < |fields| ensures fields[i].0 != key {
      assert FieldFits(shape, fields[i]);
    }
  }
}
