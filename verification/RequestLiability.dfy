/**
From the client's request to the liability it is reserved with: the cap and the texts that are estimated are those of
the body sent upstream (`request.rs`, `admission.rs`).
*/
module RequestLiability {
  import opened Results
  import opened Utf8
  import opened Json
  import opened JsonMembers
  import opened Schema
  import opened RequestTables
  import opened Request
  import CountBodies
  import L = Liability

  // ---------------------------------------------------------------------
  // What is forwarded.

  /** Fields that are checked whole and kept as they are. */
  predicate Whole(key: string) {
    CheckFor(key).Some? && CheckFor(key).value.Leaf?
  }

  lemma TakesWhole(field: Field, key: string)
    requires TakeField(field).Success? && Whole(key)
    ensures field.0 == key ==>
              TakeField(field).value.fields == [field] && Test(CheckFor(key).value.scalar, field.1).None?
    ensures field.0 != key ==> Get(TakeField(field).value.fields, key).None? && |TakeField(field).value.fields| <= 1
  {
  }

  lemma {:induction false} WalkKeepsWhole(fields: seq<Field>, key: string)
    requires Walk(fields).Success? && Whole(key)
    ensures Get(Walk(fields).value.fields, key) == Get(fields, key)
    ensures Get(fields, key).Some? ==> Test(CheckFor(key).value.scalar, Get(fields, key).value).None?
  {
    if |fields| != 0 {
      WalkFirst(fields);
      WalkKeepsWhole(fields[1..], key);
      TakesWhole(fields[0], key);
      var kept, rest := TakeField(fields[0]).value.fields, Walk(fields[1..]).value.fields;
      if kept == [] {
        assert kept + rest == rest;
      } else {
        assert (kept + rest)[1..] == rest && (kept + rest)[0] == kept[0];
      }
    }
  }

  lemma WalkFirst(fields: seq<Field>)
    requires |fields| > 0 && Walk(fields).Success?
    ensures TakeField(fields[0]).Success? && Walk(fields[1..]).Success?
    ensures Walk(fields).value.fields == TakeField(fields[0]).value.fields + Walk(fields[1..]).value.fields
  {
  }

  lemma BodyGets(req: CreateRequest, background: bool, key: string)
    ensures Get(UpstreamBody(req, background), key) ==
            if key == "service_tier" then Some(Str("default"))
            else if key == "stream" || key == "store" then Some(Bool(true))
            else if key == "background" then Some(Bool(background))
            else Get(req.fields, key)
  {
    var b := Put(req.fields, "background", Bool(background));
    var st := Put(b, "store", Bool(true));
    var sm := Put(st, "stream", Bool(true));
    CountBodies.PutGets(req.fields, "background", Bool(background), key);
    CountBodies.PutGets(b, "store", Bool(true), key);
    CountBodies.PutGets(st, "stream", Bool(true), key);
    CountBodies.PutGets(sm, "service_tier", Str("default"), key);
  }

  lemma WholeForwarded(v: Json, background: bool, key: string)
    requires Parse(v).Success? && Whole(key)
    requires key !in {"background", "store", "stream", "service_tier"}
    ensures v.Object? && Get(UpstreamBody(Parse(v).value, background), key) == Get(v.fields, key)
    ensures Get(Parse(v).value.fields, key) == Get(v.fields, key)
    ensures Get(v.fields, key).Some? ==> Test(CheckFor(key).value.scalar, Get(v.fields, key).value).None?
  {
    ParseKeeps(v);
    WalkKeepsWhole(v.fields, key);
    BodyGets(Parse(v).value, background, key);
  }

  lemma ScalarsAreWhole(key: string)
    requires key in {"model", "instructions", "prompt_cache_key", "parallel_tool_calls", "max_output_tokens",
                     "temperature", "top_p", "metadata"}
    ensures Whole(key)
  {
  }

  /** The scalar fields go upstream as the client sent them, or not at all. */
  lemma ScalarsForwarded(v: Json, background: bool, key: string, x: Json)
    requires Parse(v).Success?
    requires key in {"model", "instructions", "prompt_cache_key", "parallel_tool_calls", "max_output_tokens",
                     "temperature", "top_p", "metadata"}
    ensures At(Object(UpstreamBody(Parse(v).value, background)), key, x) <==> At(v, key, x)
  {
    ScalarsAreWhole(key);
    WholeForwarded(v, background, key);
    MemberIs(v, key, x);
    MemberIs(Object(UpstreamBody(Parse(v).value, background)), key, x);
  }

  /** And these four are set, whatever the client sent. */
  lemma FixedFieldsSet(v: Json, background: bool)
    requires Parse(v).Success?
    ensures var body := Object(UpstreamBody(Parse(v).value, background));
            && At(body, "store", Bool(true)) && At(body, "stream", Bool(true))
            && At(body, "service_tier", Str("default")) && At(body, "background", Bool(background))
  {
    var req := Parse(v).value;
    var body := Object(UpstreamBody(req, background));
    BodyGets(req, background, "store");
    BodyGets(req, background, "stream");
    BodyGets(req, background, "service_tier");
    BodyGets(req, background, "background");
    MemberIs(body, "store", Bool(true));
    MemberIs(body, "stream", Bool(true));
    MemberIs(body, "service_tier", Str("default"));
    MemberIs(body, "background", Bool(background));
  }

  /** The value asks for at most `n` tokens of output. */
  ghost predicate Caps(v: Json, n: int) {
    exists text :: At(v, "max_output_tokens", Number(Some(n), text))
  }

  lemma CapIs(v: Json)
    requires Parse(v).Success?
    ensures var cap := Get(v.fields, "max_output_tokens");
            match Parse(v).value.maxOutputTokens
            case None => cap.None?
            case Some(n) => n > 0 && cap.Some? && cap.value.Number? && cap.value.integer == Some(n)
  {
    ScalarsAreWhole("max_output_tokens");
    WholeForwarded(v, false, "max_output_tokens");
    ParseKeeps(v);
  }

  lemma CapsIs(v: Json, n: int)
    ensures Caps(v, n) <==>
              && Member(v, "max_output_tokens").Some?
              && Member(v, "max_output_tokens").value.Number?
              && Member(v, "max_output_tokens").value.integer == Some(n)
  {
    forall text ensures At(v, "max_output_tokens", Number(Some(n), text)) <==>
      Member(v, "max_output_tokens") == Some(Number(Some(n), text))
    {
      MemberIs(v, "max_output_tokens", Number(Some(n), text));
    }
    if Member(v, "max_output_tokens").Some? && Member(v, "max_output_tokens").value.Number? {
      var x := Member(v, "max_output_tokens").value;
      assert x == Number(x.integer, x.text);
    }
  }

  /** The cap of an accepted request is the one the client sent and the one that goes
      upstream, and there is none exactly when the field is absent. */
  lemma CapIsForwarded(v: Json, background: bool)
    requires Parse(v).Success?
    ensures var req := Parse(v).value;
            var body := Object(UpstreamBody(req, background));
            && (forall n :: Caps(v, n) <==> n > 0 && req.maxOutputTokens == Some(n))
            && (forall n :: Caps(body, n) <==> n > 0 && req.maxOutputTokens == Some(n))
            && (req.maxOutputTokens.None? <==> forall x :: !At(v, "max_output_tokens", x))
  {
    var body := Object(UpstreamBody(Parse(v).value, background));
    CapIs(v);
    ScalarsAreWhole("max_output_tokens");
    WholeForwarded(v, background, "max_output_tokens");
    forall n
      ensures Caps(v, n) <==> n > 0 && Parse(v).value.maxOutputTokens == Some(n)
      ensures Caps(body, n) <==> n > 0 && Parse(v).value.maxOutputTokens == Some(n)
    {
      CapsIs(v, n);
      CapsIs(body, n);
    }
    forall x ensures At(v, "max_output_tokens", x) <==> Member(v, "max_output_tokens") == Some(x) {
      MemberIs(v, "max_output_tokens", x);
    }
    if Member(v, "max_output_tokens").Some? {
      assert At(v, "max_output_tokens", Member(v, "max_output_tokens").value);
    }
  }

  // ---------------------------------------------------------------------
  // The flat form.

  /** `flat_text`: the request in the form the byte bound covers, if it has it. */
  function FlatTextOf(req: CreateRequest, encode: string -> seq<byte>): L.Shape {
    var input, instructions := Get(req.fields, "input"), Get(req.fields, "instructions");
    var tools, text := Get(req.fields, "tools"), Get(req.fields, "text");
    var format := if text.Some? then Member(text.value, "format") else None;
    if !(input.Some? && input.value.Str?) then L.Structured
    else if instructions.Some? && !instructions.value.Str? then L.Structured
    else if tools.Some? && !(tools.value.Array? && tools.value.items == []) then L.Structured
    else if Has(req.fields, "tool_choice") then L.Structured
    else if format.Some? && AsText(Member(format.value, "type")) != Some("text") then L.Structured
    else
      L.FlatText(if instructions.Some? then Some(encode(instructions.value.s)) else None, encode(input.value.s))
  }

  /** A body with no input but plain text: two texts at most, no tools, no choice of
      one, and no output format but text. */
  ghost predicate Plain(body: Json) {
    && (exists input :: At(body, "input", Str(input)))
    && (forall x | At(body, "instructions", x) :: x.Str?)
    && (forall x | At(body, "tools", x) :: x == Array([]))
    && (forall x :: !At(body, "tool_choice", x))
    && (forall text, format | At(body, "text", text) && At(text, "format", format) :: At(format, "type", Str("text")))
  }

  /** The texts of a body, as the provider receives them. */
  ghost predicate TextsOf(body: Json, encode: string -> seq<byte>, texts: seq<seq<byte>>) {
    exists input: string :: At(body, "input", Str(input)) &&
      (|| (texts == [encode(input)] && forall x :: !At(body, "instructions", x))
       || exists first: string :: At(body, "instructions", Str(first)) && texts == [encode(first), encode(input)])
  }

  /** The same by lookup. */
  predicate PlainFields(fields: seq<Field>) {
    && Get(fields, "input").Some? && Get(fields, "input").value.Str?
    && (Has(fields, "instructions") ==> Get(fields, "instructions").value.Str?)
    && (Has(fields, "tools") ==> Get(fields, "tools").value == Array([]))
    && !Has(fields, "tool_choice")
    && (Has(fields, "text") ==>
          var format := Member(Get(fields, "text").value, "format");
          format.Some? ==> Member(format.value, "type") == Some(Str("text")))
  }

  lemma FormatIs(fields: seq<Field>)
    ensures (forall text, format | At(Object(fields), "text", text) && At(text, "format", format) ::
               At(format, "type", Str("text"))) <==>
            (Has(fields, "text") ==>
               var format := Member(Get(fields, "text").value, "format");
               format.Some? ==> Member(format.value, "type") == Some(Str("text")))
  {
    forall text ensures Get(fields, "text") == Some(text) <==> At(Object(fields), "text", text) {
      MemberIs(Object(fields), "text", text);
    }
    if Has(fields, "text") {
      TextFormatIs(Get(fields, "text").value);
    }
  }

  lemma TextFormatIs(text: Json)
    ensures (forall format | At(text, "format", format) :: At(format, "type", Str("text"))) <==>
            var format := Member(text, "format");
            format.Some? ==> Member(format.value, "type") == Some(Str("text"))
  {
    forall format ensures Member(text, "format") == Some(format) <==> At(text, "format", format) {
      MemberIs(text, "format", format);
    }
    forall format ensures Member(format, "type") == Some(Str("text")) <==> At(format, "type", Str("text")) {
      MemberIs(format, "type", Str("text"));
    }
  }

  lemma PlainIs(fields: seq<Field>)
    ensures Plain(Object(fields)) <==> PlainFields(fields)
  {
    var body := Object(fields);
    FormatIs(fields);
    forall key, x ensures Get(fields, key) == Some(x) <==> At(body, key, x) {
      MemberIs(body, key, x);
    }
    if PlainFields(fields) {
      assert At(body, "input", Str(Get(fields, "input").value.s));
    }
  }

  lemma FlatIsPlain(req: CreateRequest, encode: string -> seq<byte>)
    ensures FlatTextOf(req, encode).FlatText? <==> PlainFields(req.fields)
  {
  }

  lemma BodyAsPlain(req: CreateRequest, background: bool)
    ensures PlainFields(UpstreamBody(req, background)) <==> PlainFields(req.fields)
    ensures Get(UpstreamBody(req, background), "input") == Get(req.fields, "input")
    ensures Get(UpstreamBody(req, background), "instructions") == Get(req.fields, "instructions")
  {
    BodyGets(req, background, "input");
    BodyGets(req, background, "instructions");
    BodyGets(req, background, "tools");
    BodyGets(req, background, "tool_choice");
    BodyGets(req, background, "text");
  }

  /** The one text at a key. */
  lemma OneTextAt(fields: seq<Field>, key: string)
    ensures forall text: string :: At(Object(fields), key, Str(text)) <==> Get(fields, key) == Some(Str(text))
    ensures (forall x :: !At(Object(fields), key, x)) <==> Get(fields, key).None?
  {
    forall x ensures Get(fields, key) == Some(x) <==> At(Object(fields), key, x) {
      MemberIs(Object(fields), key, x);
    }
    if Get(fields, key).Some? {
      assert At(Object(fields), key, Get(fields, key).value);
    }
  }

  lemma TextsAre(fields: seq<Field>, encode: string -> seq<byte>, texts: seq<seq<byte>>)
    requires PlainFields(fields)
    ensures var instructions := Get(fields, "instructions");
            var first := if instructions.Some? then [encode(instructions.value.s)] else [];
            TextsOf(Object(fields), encode, texts) <==> texts == first + [encode(Get(fields, "input").value.s)]
  {
    var input, instructions := Get(fields, "input").value.s, Get(fields, "instructions");
    OneTextAt(fields, "input");
    OneTextAt(fields, "instructions");
    assert At(Object(fields), "input", Str(input));
    if instructions.Some? {
      assert At(Object(fields), "instructions", Str(instructions.value.s));
      assert [encode(instructions.value.s)] + [encode(input)] == [encode(instructions.value.s), encode(input)];
    } else {
      assert [] + [encode(input)] == [encode(input)];
    }
  }

  /** The estimate is made of exactly the plain bodies, from exactly their texts. */
  lemma FlatTextExactly(v: Json, background: bool, encode: string -> seq<byte>)
    requires Parse(v).Success?
    ensures var shape := FlatTextOf(Parse(v).value, encode);
            var body := Object(UpstreamBody(Parse(v).value, background));
            && (shape.FlatText? <==> Plain(body))
            && (shape.FlatText? ==> forall texts :: TextsOf(body, encode, texts) <==> texts == L.Nodes(shape))
  {
    var req := Parse(v).value;
    var fields, shape := UpstreamBody(req, background), FlatTextOf(req, encode);
    PlainIs(fields);
    FlatIsPlain(req, encode);
    BodyAsPlain(req, background);
    if shape.FlatText? {
      forall texts ensures TextsOf(Object(fields), encode, texts) <==> texts == L.Nodes(shape) {
        TextsAre(fields, encode, texts);
      }
    }
  }

  // ---------------------------------------------------------------------
  // The liability.

  /** What the provider may report for this body: output within its own limit and the
      body's cap, and for a plain body some byte-pair encoding of its texts, with
      framing within the allowance. */
  ghost predicate MayConsume(allowance: nat, spec: L.ModelSpec, body: Json, encode: string -> seq<byte>,
                             c: L.Consumption)
  {
    && c.output <= spec.maxOutputTokens && (forall n | Caps(body, n) :: c.output <= n)
    && (Plain(body) ==>
          exists texts | TextsOf(body, encode, texts) :: Encoded(allowance, texts, c))
  }

  /** The tokens are byte-pair encodings of these texts, framed within the allowance. */
  ghost predicate Encoded(allowance: nat, texts: seq<seq<byte>>, c: L.Consumption) {
    && |c.tokens| == |texts|
    && (forall i | 0 <= i < |texts| :: L.Tokenises(texts[i], c.tokens[i]))
    && c.framing <= allowance * |texts|
  }

  lemma MayConsumeIsPlausible(v: Json, background: bool, allowance: nat, spec: L.ModelSpec, encode: string -> seq<byte>,
                              c: L.Consumption)
    requires Parse(v).Success?
    requires MayConsume(allowance, spec, Object(UpstreamBody(Parse(v).value, background)), encode, c)
    ensures L.Plausible(allowance, spec, FlatTextOf(Parse(v).value, encode), Parse(v).value.maxOutputTokens, c)
  {
    CapIs(v);
    CapIsForwarded(v, background);
    FlatTextExactly(v, background, encode);
    var body := Object(UpstreamBody(Parse(v).value, background));
    if Parse(v).value.maxOutputTokens.Some? {
      assert Caps(body, Parse(v).value.maxOutputTokens.value);
    }
    if Plain(body) {
      PlainConsumption(allowance, body, encode, FlatTextOf(Parse(v).value, encode), c);
    }
  }

  lemma PlainConsumption(allowance: nat, body: Json, encode: string -> seq<byte>, shape: L.Shape, c: L.Consumption)
    requires shape.FlatText? && forall texts :: TextsOf(body, encode, texts) <==> texts == L.Nodes(shape)
    requires exists texts | TextsOf(body, encode, texts) :: Encoded(allowance, texts, c)
    ensures Encoded(allowance, L.Nodes(shape), c)
  {
  }

  /** The liability covers what is forwarded. Whatever the provider may report for the
      body sent upstream is within the liability estimated from the request, by either
      estimate, when a count that is asked for counts the whole input. */
  lemma ForwardedIsCovered(v: Json, background: bool, allowance: nat, spec: L.ModelSpec, encode: string -> seq<byte>,
                           maxCharacters: nat, maxBytes: nat, counted: nat, c: L.Consumption)
    requires Parse(v).Success?
    requires MayConsume(allowance, spec, Object(UpstreamBody(Parse(v).value, background)), encode, c)
    ensures var (req, shape) := (Parse(v).value, FlatTextOf(Parse(v).value, encode));
            var estimate := L.Estimate(allowance, spec, shape, req.maxOutputTokens);
            var short := L.EstimateSynchronous(allowance, spec, shape, req.maxOutputTokens, maxCharacters, maxBytes);
            && (L.CountedIn(estimate, counted, c) && L.LiabilityOf(estimate, counted).Success? ==>
                  L.Consumed(c) <= L.LiabilityOf(estimate, counted).value)
            && (L.CountedIn(short, counted, c) && L.LiabilityOf(short, counted).Success? ==>
                  L.Consumed(c) <= L.LiabilityOf(short, counted).value)
  {
    var (req, shape) := (Parse(v).value, FlatTextOf(Parse(v).value, encode));
    MayConsumeIsPlausible(v, background, allowance, spec, encode, c);
    if L.CountedIn(L.Estimate(allowance, spec, shape, req.maxOutputTokens), counted, c) {
      L.EstimateDominates(allowance, spec, shape, req.maxOutputTokens, c, counted);
    }
    var short := L.EstimateSynchronous(allowance, spec, shape, req.maxOutputTokens, maxCharacters, maxBytes);
    if L.CountedIn(short, counted, c) {
      L.SynchronousDominates(allowance, spec, shape, req.maxOutputTokens, maxCharacters, maxBytes, c, counted);
    }
  }
}
