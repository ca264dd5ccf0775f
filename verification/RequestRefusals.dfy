/** Which requests are accepted and how others are refused, by the request's own fields (`request.rs`). */
module RequestRefusals {
  import opened Results
  import opened Json
  import opened JsonMembers
  import opened Schema
  import opened RequestTables
  import opened Request
  import CountBodies

  // ---------------------------------------------------------------------
  // The request's own fields.

  /** A field that can be judged by itself, or by being null, and is fine. */
  predicate Fine(key: string, x: Json) {
    match key
    case "model" => x.Str? && x.s != ""
    case "instructions" => x.Str?
    case "prompt_cache_key" => x.Str?
    case "service_tier" => x.Str?
    case "parallel_tool_calls" => x.Bool?
    case "store" => x.Bool?
    case "max_output_tokens" => x.Number? && x.integer.Some? && x.integer.value > 0
    case "temperature" => x.Number?
    case "top_p" => x.Number?
    case "metadata" => x.Object? && forall i | 0 <= i < |x.fields| :: x.fields[i].1.Str?
    case "background" => x == Null || x == Bool(false)
    case "previous_response_id" => x == Null
    case "conversation" => x == Null
    case "prompt" => x == Null
    case "client_metadata" => true
    case "stream" => true
    case _ => false
  }

  /** How a field that is not fine is refused. */
  function CodeFor(key: string): Code {
    if key in {"previous_response_id", "conversation", "prompt"} then ServerSideState
    else if key in {"model", "instructions", "prompt_cache_key", "service_tier", "parallel_tool_calls", "store",
                    "max_output_tokens", "temperature", "top_p", "metadata", "background"} then InvalidValue
    else UnsupportedParameter
  }

  /** The fields whose values have parts of their own. */
  predicate Structured(key: string) {
    key in {"input", "tools", "tool_choice", "reasoning", "text", "include", "prompt_cache_options"}
  }

  /** The fields that are forwarded as they are. */
  predicate Forwarded(key: string) {
    key in {"model", "instructions", "prompt_cache_key", "parallel_tool_calls", "max_output_tokens",
            "temperature", "top_p", "metadata"}
  }

  /** What becomes of a field without parts of its own: a scalar is kept as it is; what the proxy
      sets itself is dropped; `stream` is remembered; and what is not fine is refused. */
  function Answer(key: string, x: Json): Result<Parsed, Code> {
    if !Fine(key, x) then Failure(CodeFor(key))
    else if key == "stream" then Success(Parsed([], Some(x)))
    else if Forwarded(key) then Success(Parsed([(key, x)], None))
    else Success(Parsed([], None))
  }

  lemma TextsExactly(key: string, x: Json)
    requires key in {"model", "instructions", "prompt_cache_key"}
    ensures TakeField((key, x)) == Answer(key, x)
  {
  }

  lemma NumbersExactly(key: string, x: Json)
    requires key in {"max_output_tokens", "temperature", "top_p"}
    ensures TakeField((key, x)) == Answer(key, x)
  {
  }

  lemma OthersExactly(key: string, x: Json)
    requires key in {"parallel_tool_calls", "metadata"}
    ensures TakeField((key, x)) == Answer(key, x)
  {
  }

  lemma StoreExactly(x: Json)
    ensures TakeField(("store", x)) == Answer("store", x)
  {
  }

  lemma TierExactly(x: Json)
    ensures TakeField(("service_tier", x)) == Answer("service_tier", x)
  {
  }

  lemma BackgroundExactly(x: Json)
    ensures TakeField(("background", x)) == Answer("background", x)
  {
  }

  lemma PassedByExactly(key: string, x: Json)
    requires key in {"client_metadata", "stream"}
    ensures TakeField((key, x)) == Answer(key, x)
  {
  }

  lemma StateRules(key: string)
    requires key in {"previous_response_id", "conversation", "prompt"}
    ensures RuleFor(key) == ServerState
  {
    assert CheckFor("previous_response_id") == CheckFor("conversation") == CheckFor("prompt") == None;
  }

  lemma StateExactly(key: string, x: Json)
    requires key in {"previous_response_id", "conversation", "prompt"}
    ensures TakeField((key, x)) == Answer(key, x)
  {
    StateRules(key);
    assert !Forwarded(key);
  }

  /** The fields a request may have, with parts or without. */
  predicate Known(key: string) {
    || Structured(key) || Forwarded(key)
    || key in {"store", "service_tier", "background", "client_metadata", "stream"}
    || key in {"previous_response_id", "conversation", "prompt"}
  }

  lemma UnknownRule(key: string)
    requires !Known(key)
    ensures RuleFor(key) == Unlisted
  {
  }

  lemma UnknownExactly(key: string, x: Json)
    requires !Known(key)
    ensures TakeField((key, x)) == Answer(key, x)
  {
    UnknownRule(key);
  }

  /** Each field of the request that has no parts of its own. */
  lemma FieldsExactly(key: string, x: Json)
    requires !Structured(key)
    ensures TakeField((key, x)) == Answer(key, x)
  {
    if !Known(key) {
      UnknownExactly(key, x);
    } else if key in {"model", "instructions", "prompt_cache_key"} {
      TextsExactly(key, x);
    } else if key in {"max_output_tokens", "temperature", "top_p"} {
      NumbersExactly(key, x);
    } else if key in {"parallel_tool_calls", "metadata"} {
      OthersExactly(key, x);
    } else if key in {"previous_response_id", "conversation", "prompt"} {
      StateExactly(key, x);
    } else {
      OwnExactly(key, x);
    }
  }

  lemma OwnExactly(key: string, x: Json)
    requires key in {"store", "service_tier", "background", "client_metadata", "stream"}
    ensures TakeField((key, x)) == Answer(key, x)
  {
    StoreExactly(x);
    TierExactly(x);
    BackgroundExactly(x);
    PassedByExactly("client_metadata", x);
    PassedByExactly("stream", x);
  }

  // ---------------------------------------------------------------------
  // The whole request.

  lemma {:induction false} WalkSucceeds(fields: seq<Field>)
    ensures Walk(fields).Success? <==> forall i | 0 <= i < |fields| :: TakeField(fields[i]).Success?
    decreases |fields|
  {
    if |fields| != 0 {
      WalkSucceeds(fields[1..]);
      assert forall i | 0 < i < |fields| :: fields[i] == fields[1..][i - 1];
      if forall i | 0 <= i < |fields| :: TakeField(fields[i]).Success? {
        forall i | 0 <= i < |fields[1..]| ensures TakeField(fields[1..][i]).Success? {
          assert fields[1..][i] == fields[i + 1];
        }
      }
    }
  }

  lemma TakesStream(field: Field)
    requires TakeField(field).Success?
    ensures TakeField(field).value.stream == if field.0 == "stream" then Some(field.1) else None
  {
  }

  lemma {:induction false} WalkStream(fields: seq<Field>)
    requires UniqueKeys(fields) && Walk(fields).Success?
    ensures Walk(fields).value.stream == Get(fields, "stream")
    decreases |fields|
  {
    if |fields| != 0 {
      assert fields == [fields[0]] + fields[1..];
      WalkStream(fields[1..]);
      TakesStream(fields[0]);
      HasExactly(fields[1..], "stream");
    }
  }

  lemma TakesKey(field: Field)
    requires TakeField(field).Success?
    ensures CheckFor(field.0).Some? ==>
              |TakeField(field).value.fields| == 1 && TakeField(field).value.fields[0].0 == field.0
    ensures CheckFor(field.0).None? ==> TakeField(field).value.fields == []
  {
  }

  lemma {:induction false} WalkHas(fields: seq<Field>, key: string)
    requires Walk(fields).Success? && CheckFor(key).Some?
    ensures Has(Walk(fields).value.fields, key) <==> Has(fields, key)
    decreases |fields|
  {
    if |fields| != 0 {
      WalkHas(fields[1..], key);
      TakesKey(fields[0]);
      var kept, rest := TakeField(fields[0]).value.fields, Walk(fields[1..]).value.fields;
      if kept == [] {
        assert kept + rest == rest;
      } else {
        assert (kept + rest)[1..] == rest;
      }
    }
  }

  /** A request is accepted exactly when it is an object with distinct keys all through,
      each of its fields is accepted, it streams, and it has a model and an input. */
  lemma AcceptedExactly(v: Json)
    ensures Parse(v).Success? <==>
              && Distinct(v) && v.Object?
              && (forall i | 0 <= i < |v.fields| :: TakeField(v.fields[i]).Success?)
              && At(v, "stream", Bool(true)) && Has(v.fields, "model") && Has(v.fields, "input")
  {
    if Distinct(v) && v.Object? {
      WalkSucceeds(v.fields);
      MemberIs(v, "stream", Bool(true));
      if Walk(v.fields).Success? {
        WalkStream(v.fields);
        WalkHas(v.fields, "input");
        ModelKept(v.fields);
      }
    }
  }

  lemma {:induction false} ModelKept(fields: seq<Field>)
    requires Walk(fields).Success?
    ensures var kept := Walk(fields).value.fields;
            (Has(kept, "model") && Get(kept, "model").value.Str?) <==> Has(fields, "model")
    decreases |fields|
  {
    if |fields| != 0 {
      ModelKept(fields[1..]);
      TakesKey(fields[0]);
      if fields[0].0 == "model" {
        TextsExactly("model", fields[0].1);
      }
      var kept, rest := TakeField(fields[0]).value.fields, Walk(fields[1..]).value.fields;
      if kept == [] {
        assert kept + rest == rest;
      } else {
        assert (kept + rest)[1..] == rest;
      }
    }
  }

  /** The first field that is refused. */
  predicate FirstRefused(fields: seq<Field>, i: nat)
    requires i < |fields|
  {
    TakeField(fields[i]).Failure? && forall j | 0 <= j < i :: TakeField(fields[j]).Success?
  }

  lemma {:induction false} WalkFails(fields: seq<Field>)
    requires Walk(fields).Failure?
    ensures exists i | 0 <= i < |fields| :: FirstRefused(fields, i) && Walk(fields).error == TakeField(fields[i]).error
    decreases |fields|
  {
    if TakeField(fields[0]).Failure? {
      assert FirstRefused(fields, 0);
    } else {
      var rest := fields[1..];
      WalkFails(rest);
      var i :| 0 <= i < |rest| && FirstRefused(rest, i) && Walk(rest).error == TakeField(rest[i]).error;
      assert fields[i + 1] == rest[i];
      forall j | 0 <= j < i + 1 ensures TakeField(fields[j]).Success? {
        assert j > 0 ==> fields[j] == rest[j - 1];
      }
      assert FirstRefused(fields, i + 1);
    }
  }

  /** And how it is refused otherwise: for a repeated key before anything else, then for its
      first field that is refused, then for not streaming, then for what is missing. */
  lemma RefusedAs(v: Json)
    requires Parse(v).Failure?
    ensures var code := Parse(v).error;
            if !Distinct(v) then code == DuplicateKey
            else if !v.Object? then code == InvalidJson
            else if exists i | 0 <= i < |v.fields| :: FirstRefused(v.fields, i) then
              exists i | 0 <= i < |v.fields| :: FirstRefused(v.fields, i) && code == TakeField(v.fields[i]).error
            else if Has(v.fields, "stream") && !At(v, "stream", Bool(true)) then code == InvalidValue
            else
              && code == MissingParameter
              && (!Has(v.fields, "stream") || !Has(v.fields, "model") || !Has(v.fields, "input"))
  {
    if Distinct(v) && v.Object? {
      if Walk(v.fields).Failure? {
        WalkFails(v.fields);
      } else {
        WalkSucceeds(v.fields);
        FinishFails(v);
      }
    }
  }

  lemma FinishFails(v: Json)
    requires v.Object? && UniqueKeys(v.fields) && Walk(v.fields).Success? && Finish(Walk(v.fields).value).Failure?
    ensures var code := Finish(Walk(v.fields).value).error;
            if Has(v.fields, "stream") && !At(v, "stream", Bool(true)) then code == InvalidValue
            else
              && code == MissingParameter
              && (!Has(v.fields, "stream") || !Has(v.fields, "model") || !Has(v.fields, "input"))
  {
    MemberIs(v, "stream", Bool(true));
    WalkStream(v.fields);
    WalkHas(v.fields, "input");
    ModelKept(v.fields);
  }

  /** What can change the count of the input is counted: of the fields that are kept,
      exactly these six are not. */
  lemma CountedExactly(key: string)
    requires CheckFor(key).Some?
    ensures key in CountBodies.COUNTED_FIELDS <==>
            key !in {"prompt_cache_key", "include", "max_output_tokens", "temperature", "top_p", "metadata"}
  {
    assert CountBodies.COUNTED_FIELDS[0] == "model" && CountBodies.COUNTED_FIELDS[1] == "instructions"
        && CountBodies.COUNTED_FIELDS[2] == "input" && CountBodies.COUNTED_FIELDS[3] == "tools"
        && CountBodies.COUNTED_FIELDS[4] == "tool_choice" && CountBodies.COUNTED_FIELDS[5] == "parallel_tool_calls"
        && CountBodies.COUNTED_FIELDS[6] == "reasoning" && CountBodies.COUNTED_FIELDS[7] == "text";
  }
}
