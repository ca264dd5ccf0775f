/** What is inside an accepted request, and how what may not be there is refused (`request.rs`, the checks). */
module RequestParts {
  import opened Results
  import opened Json
  import opened JsonMembers
  import opened Schema
  import opened RequestTables
  import opened Request

  /** The value's `type` is one of these. */
  ghost predicate OfType(v: Json, kinds: set<string>) {
    exists kind | kind in kinds :: At(v, "type", Str(kind))
  }

  lemma KindIs(fields: seq<Field>, kinds: set<string>)
    requires KindOf(fields).Success? && KindOf(fields).value in kinds
    ensures OfType(Object(fields), kinds)
  {
    MemberIs(Object(fields), "type", Str(KindOf(fields).value));
  }

  /** No image is fetched from anywhere: it comes as data. */
  ghost predicate Inline(part: Json) {
    forall u | At(part, "image_url", u) :: u.Str? && "data:" <= u.s
  }

  /** A value a conforming object has at a key conforms to what its shape says of the key. */
  lemma FitAt(shape: Shape, fields: seq<Field>, key: string, x: Json)
    requires Fits(shape, fields) && At(Object(fields), key, x)
    ensures FieldFits(shape, (key, x))
  {
    var i :| 0 <= i < |fields| && FirstAt(fields, key, i) && fields[i].1 == x;
    assert FieldFits(shape, fields[i]) && fields[i] == (key, x);
  }

  /** The same for the request itself. */
  lemma ListedAt(v: Json, key: string, x: Json)
    requires Parse(v).Success? && At(Object(Parse(v).value.fields), key, x)
    ensures Listed((key, x))
  {
    var fields := Parse(v).value.fields;
    OnlyListedSurvives(v);
    var i :| 0 <= i < |fields| && FirstAt(fields, key, i) && fields[i].1 == x;
    assert Listed(fields[i]) && fields[i] == (key, x);
  }

  predicate DataOnly(shape: Shape) {
    "image_url" in shape.fields ==> shape.fields["image_url"] == Keep(Leaf(InlineImage))
  }

  /** Parts chosen by type, each with its images as data. */
  predicate DataParts(c: Check) {
    (c.TextOr? || c.ArrayOf?) && c.element.Typed? && forall k | k in c.element.shapes :: DataOnly(c.element.shapes[k])
  }

  predicate DataIn(shape: Shape, key: string) {
    key in shape.fields ==> shape.fields[key].Keep? && DataParts(shape.fields[key].check)
  }

  lemma MessagesAreData()
    ensures DataIn(MESSAGE, "content") && DataIn(MESSAGE, "output")
  {
  }

  lemma ReasoningIsData()
    ensures DataIn(REASONING_ITEM, "content") && DataIn(REASONING_ITEM, "output")
  {
  }

  lemma OutputsAreData()
    ensures DataIn(FUNCTION_CALL_OUTPUT, "content") && DataIn(FUNCTION_CALL_OUTPUT, "output")
    ensures DataIn(CUSTOM_TOOL_CALL_OUTPUT, "content") && DataIn(CUSTOM_TOOL_CALL_OUTPUT, "output")
  {
  }

  lemma OthersAreData()
    ensures DataIn(FUNCTION_CALL, "content") && DataIn(FUNCTION_CALL, "output")
    ensures DataIn(CUSTOM_TOOL_CALL, "content") && DataIn(CUSTOM_TOOL_CALL, "output")
    ensures DataIn(ADDITIONAL_TOOLS, "content") && DataIn(ADDITIONAL_TOOLS, "output")
  {
  }

  lemma ItemsAreData(kind: string)
    requires kind in ITEM_SHAPES
    ensures DataIn(ITEM_SHAPES[kind], "content") && DataIn(ITEM_SHAPES[kind], "output")
  {
    if kind == "message" {
      MessagesAreData();
    } else if kind == "reasoning" {
      ReasoningIsData();
    } else if kind in {"function_call_output", "custom_tool_call_output"} {
      OutputsAreData();
    } else {
      OthersAreData();
    }
  }

  lemma PartIsData(c: Check, part: Json)
    requires c.Typed? && Conforms(c, part) && forall k | k in c.shapes :: DataOnly(c.shapes[k])
    ensures Inline(part) && OfType(part, c.shapes.Keys)
  {
    KindIs(part.fields, c.shapes.Keys);
    var shape := c.shapes[KindOf(part.fields).value];
    forall u | At(part, "image_url", u) ensures u.Str? && "data:" <= u.s {
      FitAt(shape, part.fields, "image_url", u);
    }
  }

  /** An item of the input, by its number. */
  ghost predicate ItemAt(v: Json, item: Json) {
    exists items: seq<Json> :: At(v, "input", Array(items)) && item in items
  }

  lemma ItemConforms(v: Json, item: Json)
    requires Parse(v).Success? && ItemAt(Object(Parse(v).value.fields), item)
    ensures Conforms(Item(ITEM_SHAPES), item)
  {
    var items :| At(Object(Parse(v).value.fields), "input", Array(items)) && item in items;
    ListedAt(v, "input", Array(items));
    assert Conforms(INPUT, Array(items));
  }

  /** Every item the upstream is given is of one of seven types; one without a type is a message. */
  lemma ItemsAreListed(v: Json, item: Json)
    requires Parse(v).Success? && ItemAt(Object(Parse(v).value.fields), item)
    ensures || OfType(item, {"message", "reasoning", "function_call", "function_call_output", "custom_tool_call",
                             "custom_tool_call_output", "additional_tools"})
            || (item.Object? && !Has(item.fields, "type") && Has(item.fields, "role"))
  {
    ItemConforms(v, item);
    if Has(item.fields, "type") || !Has(item.fields, "role") {
      KindIs(item.fields, {"message", "reasoning", "function_call", "function_call_output", "custom_tool_call",
                           "custom_tool_call_output", "additional_tools"});
    }
  }

  /** No image in what the upstream is given points anywhere: in every item, every part of
      its content and of its output has the image in it. */
  lemma ImagesAreInline(v: Json, item: Json, key: string, parts: seq<Json>, k: nat)
    requires Parse(v).Success? && ItemAt(Object(Parse(v).value.fields), item)
    requires key in {"content", "output"} && At(item, key, Array(parts)) && k < |parts|
    ensures Inline(parts[k])
  {
    ItemConforms(v, item);
    var kind := ItemKind(item.fields).value;
    ItemsAreData(kind);
    FitAt(ITEM_SHAPES[kind], item.fields, key, Array(parts));
    var c := ITEM_SHAPES[kind].fields[key].check;
    assert Conforms(c.element, parts[k]);
    PartIsData(c.element, parts[k]);
  }

  // ---------------------------------------------------------------------
  // Tools.

  /** The tools of the request, or of an item that declares some. */
  ghost predicate ToolAt(v: Json, tool: Json) {
    || (exists tools: seq<Json> :: At(v, "tools", Array(tools)) && tool in tools)
    || (exists item, tools: seq<Json> :: ItemAt(v, item) && At(item, "tools", Array(tools)) && tool in tools)
  }

  /** A tool the client itself runs, offered at once and by name. */
  ghost predicate ClientTool(tool: Json) {
    && OfType(tool, {"function", "custom"}) && NameIn(tool, "name")
    && forall x | At(tool, "defer_loading", x) :: x == Bool(false)
  }

  predicate AtOnce(shape: Shape) {
    && ("defer_loading" in shape.fields ==> shape.fields["defer_loading"] == Keep(Leaf(NotDeferred)))
    && "name" in shape.fields && shape.fields["name"] == NAME && "name" in shape.required
  }

  lemma ToolsAreAtOnce()
    ensures AtOnce(FUNCTION_TOOL) && AtOnce(CUSTOM_TOOL)
  {
  }

  lemma IsClientTool(shapes: map<string, Shape>, kind: string, tool: Json)
    requires tool.Object? && KindOf(tool.fields) == Success(kind) && kind in {"function", "custom"}
    requires kind in shapes && AtOnce(shapes[kind]) && Fits(shapes[kind], tool.fields)
    ensures ClientTool(tool)
  {
    KindIs(tool.fields, {"function", "custom"});
    NameNeeded(shapes[kind], tool.fields, "name");
    forall x | At(tool, "defer_loading", x) ensures x == Bool(false) {
      FitAt(shapes[kind], tool.fields, "defer_loading", x);
    }
  }

  lemma MembersAreClientTools(tool: Json, members: seq<Json>)
    requires tool.Object? && Fits(NAMESPACE_TOOL, tool.fields) && At(tool, "tools", Array(members))
    ensures forall m | m in members :: ClientTool(m)
  {
    FitAt(NAMESPACE_TOOL, tool.fields, "tools", Array(members));
    ToolsAreAtOnce();
    assert Conforms(NAMESPACE_MEMBERS, Array(members));
    forall m | m in members ensures ClientTool(m) {
      assert Conforms(NAMESPACE_MEMBERS.element, m);
      IsClientTool(NAMESPACE_MEMBERS.element.shapes, KindOf(m.fields).value, m);
    }
  }

  lemma ItemToolConforms(v: Json, item: Json, tools: seq<Json>)
    requires Parse(v).Success? && ItemAt(Object(Parse(v).value.fields), item) && At(item, "tools", Array(tools))
    ensures Conforms(TOOL_LIST, Array(tools))
  {
    ItemConforms(v, item);
    var kind := ItemKind(item.fields).value;
    FitAt(ITEM_SHAPES[kind], item.fields, "tools", Array(tools));
    OnlyTheseDeclare(kind);
  }

  lemma ToolConforms(v: Json, tool: Json)
    requires Parse(v).Success? && ToolAt(Object(Parse(v).value.fields), tool)
    ensures Conforms(TOOL_LIST.element, tool)
  {
    var body := Object(Parse(v).value.fields);
    if tools: seq<Json> :| At(body, "tools", Array(tools)) && tool in tools {
      ListedAt(v, "tools", Array(tools));
      assert Conforms(TOOL_LIST, Array(tools));
    } else {
      var item, tools: seq<Json> :| ItemAt(body, item) && At(item, "tools", Array(tools)) && tool in tools;
      ItemToolConforms(v, item, tools);
    }
  }

  lemma OnlyTheseDeclare(kind: string)
    requires kind in ITEM_SHAPES && "tools" in ITEM_SHAPES[kind].fields
    ensures ITEM_SHAPES[kind].fields["tools"] == Keep(TOOL_LIST)
  {
    assert "tools" !in MESSAGE.fields && "tools" !in REASONING_ITEM.fields;
    assert "tools" !in FUNCTION_CALL.fields && "tools" !in FUNCTION_CALL_OUTPUT.fields;
    assert "tools" !in CUSTOM_TOOL_CALL.fields && "tools" !in CUSTOM_TOOL_CALL_OUTPUT.fields;
  }

  lemma ListedIsClients(tool: Json)
    requires Conforms(TOOL_LIST.element, tool) && KindOf(tool.fields).value != "namespace"
    ensures ClientTool(tool)
  {
    ToolsAreAtOnce();
    IsClientTool(TOOL_LIST.element.shapes, KindOf(tool.fields).value, tool);
  }

  lemma NamespaceIsClients(tool: Json, members: seq<Json>)
    requires Conforms(TOOL_LIST.element, tool) && KindOf(tool.fields).value == "namespace"
    requires At(tool, "tools", Array(members))
    ensures forall m | m in members :: ClientTool(m)
  {
    MembersAreClientTools(tool, members);
  }

  /** A named list of such tools. */
  ghost predicate ClientTools(tool: Json) {
    && OfType(tool, {"namespace"}) && NameIn(tool, "name")
    && (exists members: seq<Json> :: At(tool, "tools", Array(members)))
    && forall members: seq<Json>, m | At(tool, "tools", Array(members)) && m in members :: ClientTool(m)
  }

  lemma NamespaceIs(tool: Json)
    requires Conforms(TOOL_LIST.element, tool) && KindOf(tool.fields).value == "namespace"
    ensures ClientTools(tool)
  {
    KindIs(tool.fields, {"namespace"});
    NameNeeded(NAMESPACE_TOOL, tool.fields, "name");
    var tools := RequiredAt(NAMESPACE_TOOL, tool.fields, "tools");
    assert At(tool, "tools", Array(tools.items));
    forall members: seq<Json>, m | At(tool, "tools", Array(members)) && m in members ensures ClientTool(m) {
      NamespaceIsClients(tool, members);
    }
  }

  /** No tool that the upstream would run itself is ever offered: a tool is one the client
      runs, or a namespace of such tools. */
  lemma ToolsAreTheClients(v: Json, tool: Json)
    requires Parse(v).Success? && ToolAt(Object(Parse(v).value.fields), tool)
    ensures ClientTool(tool) || ClientTools(tool)
  {
    ToolConforms(v, tool);
    if KindOf(tool.fields).value == "namespace" {
      NamespaceIs(tool);
    } else {
      ListedIsClients(tool);
    }
  }

  // ---------------------------------------------------------------------
  // What each item has.

  ghost predicate TextIn(v: Json, key: string) {
    exists t :: At(v, key, Str(t))
  }

  ghost predicate NameIn(v: Json, key: string) {
    exists t :: At(v, key, Str(t)) && t != ""
  }

  /** Text or a list of parts. */
  ghost predicate ContentIn(v: Json, key: string) {
    TextIn(v, key) || exists parts :: At(v, key, Array(parts))
  }

  /** An item of this type has all that it needs. */
  ghost predicate Complete(item: Json, kind: string) {
    match kind
    case "message" =>
      ContentIn(item, "content")
      && exists role | role in {"user", "assistant", "system", "developer"} :: At(item, "role", Str(role))
    case "reasoning" => NameIn(item, "encrypted_content")
    case "function_call" => NameIn(item, "call_id") && NameIn(item, "name") && TextIn(item, "arguments")
    case "function_call_output" => NameIn(item, "call_id") && ContentIn(item, "output")
    case "custom_tool_call" => NameIn(item, "call_id") && NameIn(item, "name") && TextIn(item, "input")
    case "custom_tool_call_output" => NameIn(item, "call_id") && ContentIn(item, "output")
    case "additional_tools" =>
      At(item, "role", Str("developer")) && exists tools :: At(item, "tools", Array(tools))
    case _ => false
  }

  /** What stands at a required key. */
  lemma RequiredAt(shape: Shape, fields: seq<Field>, key: string) returns (x: Json)
    requires Fits(shape, fields) && key in shape.required
    ensures At(Object(fields), key, x) && FieldFits(shape, (key, x))
  {
    assert Has(fields, key);
    x := Get(fields, key).value;
    MemberIs(Object(fields), key, x);
    FitAt(shape, fields, key, x);
  }

  lemma NameNeeded(shape: Shape, fields: seq<Field>, key: string)
    requires Fits(shape, fields) && key in shape.required && key in shape.fields && shape.fields[key] == NAME
    ensures NameIn(Object(fields), key)
  {
    var x := RequiredAt(shape, fields, key);
    assert At(Object(fields), key, Str(x.s));
  }

  lemma TextNeeded(shape: Shape, fields: seq<Field>, key: string)
    requires Fits(shape, fields) && key in shape.required && key in shape.fields && shape.fields[key] == TEXT_FIELD
    ensures TextIn(Object(fields), key)
  {
    var x := RequiredAt(shape, fields, key);
    assert At(Object(fields), key, Str(x.s));
  }

  lemma ContentNeeded(shape: Shape, fields: seq<Field>, key: string)
    requires Fits(shape, fields) && key in shape.required && key in shape.fields
    requires shape.fields[key].Keep? && shape.fields[key].check.TextOr?
    ensures ContentIn(Object(fields), key)
  {
    var x := RequiredAt(shape, fields, key);
    if x.Str? {
      assert At(Object(fields), key, Str(x.s));
    } else {
      assert At(Object(fields), key, Array(x.items));
    }
  }

  lemma MessageComplete(fields: seq<Field>)
    requires Fits(MESSAGE, fields)
    ensures Complete(Object(fields), "message")
  {
    ContentNeeded(MESSAGE, fields, "content");
    var role := RequiredAt(MESSAGE, fields, "role");
    assert role.s in {"user", "assistant", "system", "developer"} && At(Object(fields), "role", Str(role.s));
  }

  lemma CallComplete(fields: seq<Field>)
    ensures Fits(FUNCTION_CALL, fields) ==> Complete(Object(fields), "function_call")
    ensures Fits(CUSTOM_TOOL_CALL, fields) ==> Complete(Object(fields), "custom_tool_call")
  {
    if Fits(FUNCTION_CALL, fields) {
      NameNeeded(FUNCTION_CALL, fields, "call_id");
      NameNeeded(FUNCTION_CALL, fields, "name");
      TextNeeded(FUNCTION_CALL, fields, "arguments");
    }
    if Fits(CUSTOM_TOOL_CALL, fields) {
      NameNeeded(CUSTOM_TOOL_CALL, fields, "call_id");
      NameNeeded(CUSTOM_TOOL_CALL, fields, "name");
      TextNeeded(CUSTOM_TOOL_CALL, fields, "input");
    }
  }

  lemma OutputComplete(fields: seq<Field>)
    ensures Fits(FUNCTION_CALL_OUTPUT, fields) ==> Complete(Object(fields), "function_call_output")
    ensures Fits(CUSTOM_TOOL_CALL_OUTPUT, fields) ==> Complete(Object(fields), "custom_tool_call_output")
  {
    if Fits(FUNCTION_CALL_OUTPUT, fields) {
      NameNeeded(FUNCTION_CALL_OUTPUT, fields, "call_id");
      ContentNeeded(FUNCTION_CALL_OUTPUT, fields, "output");
    }
    if Fits(CUSTOM_TOOL_CALL_OUTPUT, fields) {
      NameNeeded(CUSTOM_TOOL_CALL_OUTPUT, fields, "call_id");
      ContentNeeded(CUSTOM_TOOL_CALL_OUTPUT, fields, "output");
    }
  }

  lemma DeclarationComplete(fields: seq<Field>)
    requires Fits(ADDITIONAL_TOOLS, fields)
    ensures Complete(Object(fields), "additional_tools")
  {
    var role := RequiredAt(ADDITIONAL_TOOLS, fields, "role");
    var tools := RequiredAt(ADDITIONAL_TOOLS, fields, "tools");
    assert At(Object(fields), "tools", Array(tools.items));
  }

  lemma ReasoningComplete(fields: seq<Field>)
    requires Fits(REASONING_ITEM, fields)
    ensures Complete(Object(fields), "reasoning")
  {
    NameNeeded(REASONING_ITEM, fields, "encrypted_content");
  }

  lemma CallKindComplete(kind: string, fields: seq<Field>)
    requires kind in {"function_call", "custom_tool_call", "function_call_output", "custom_tool_call_output"}
    requires Fits(ITEM_SHAPES[kind], fields)
    ensures Complete(Object(fields), kind)
  {
    CallComplete(fields);
    OutputComplete(fields);
  }

  lemma KindComplete(kind: string, fields: seq<Field>)
    requires kind in ITEM_SHAPES && Fits(ITEM_SHAPES[kind], fields)
    ensures Complete(Object(fields), kind) == true
  {
    if kind == "message" {
      MessageComplete(fields);
    } else if kind == "reasoning" {
      ReasoningComplete(fields);
    } else if kind == "additional_tools" {
      DeclarationComplete(fields);
    } else {
      CallKindComplete(kind, fields);
    }
  }

  /** Every item the upstream is given has all that its type needs. */
  lemma ItemsAreComplete(v: Json, item: Json)
    requires Parse(v).Success? && ItemAt(Object(Parse(v).value.fields), item)
    ensures exists kind ::
              Complete(item, kind)
              && (At(item, "type", Str(kind)) || (kind == "message" && !Has(item.fields, "type")))
  {
    ItemConforms(v, item);
    var kind := ItemKind(item.fields).value;
    MemberIs(item, "type", Str(kind));
    KindComplete(kind, item.fields);
  }

  // ---------------------------------------------------------------------
  // Refusals.

  /** A shape takes the field as it is. */
  predicate Takes(shape: Shape, field: Field) {
    field.0 in shape.fields
    && (shape.fields[field.0].Keep? ==> Run(shape.fields[field.0].check, field.1).Success?)
  }

  /** Why it does not. */
  function Objection(shape: Shape, field: Field): Code
    requires !Takes(shape, field)
  {
    if field.0 !in shape.fields then UnsupportedParameter else Run(shape.fields[field.0].check, field.1).error
  }

  lemma {:induction false} NormalExactly(shape: Shape, fields: seq<Field>)
    ensures Normal(shape, fields).Success? <==> forall i | 0 <= i < |fields| :: Takes(shape, fields[i])
    ensures Normal(shape, fields).Failure? ==>
              exists i | 0 <= i < |fields| ::
                (forall j | 0 <= j < i :: Takes(shape, fields[j]))
                && !Takes(shape, fields[i]) && Normal(shape, fields).error == Objection(shape, fields[i])
    decreases |fields|
  {
    if |fields| != 0 {
      var rest := fields[1..];
      NormalExactly(shape, rest);
      if !Takes(shape, fields[0]) {
        assert Normal(shape, fields).error == Objection(shape, fields[0]);
      } else if Normal(shape, rest).Failure? {
        var i :| 0 <= i < |rest| && (forall j | 0 <= j < i :: Takes(shape, rest[j]))
          && !Takes(shape, rest[i]) && Normal(shape, rest).error == Objection(shape, rest[i]);
        assert fields[i + 1] == rest[i];
        forall j | 0 <= j < i + 1 ensures Takes(shape, fields[j]) {
          assert j > 0 ==> fields[j] == rest[j - 1];
        }
      } else {
        forall i | 0 <= i < |fields| ensures Takes(shape, fields[i]) {
          assert i > 0 ==> fields[i] == rest[i - 1];
        }
      }
    }
  }

  /** An object is refused for its first field that is not listed or whose value is refused,
      or else for a required one that is missing or left out; and never otherwise. */
  lemma ShapeExactly(shape: Shape, fields: seq<Field>)
    ensures match Apply(shape, fields)
            case Success(_) =>
              && (forall i | 0 <= i < |fields| :: Takes(shape, fields[i]))
              && (forall name | name in shape.required ::
                    Has(fields, name) && name in shape.fields && shape.fields[name].Keep?)
            case Failure(code) =>
              || (exists i | 0 <= i < |fields| ::
                    (forall j | 0 <= j < i :: Takes(shape, fields[j]))
                    && !Takes(shape, fields[i]) && code == Objection(shape, fields[i]))
              || (code == MissingParameter && (forall i | 0 <= i < |fields| :: Takes(shape, fields[i]))
                  && exists name | name in shape.required ::
                       !(Has(fields, name) && name in shape.fields && shape.fields[name].Keep?))
  {
    NormalExactly(shape, fields);
    if Normal(shape, fields).Success? {
      forall name ensures Has(Normal(shape, fields).value, name) <==>
        Has(fields, name) && name in shape.fields && shape.fields[name].Keep?
      {
        NormalGets(shape, fields, name);
      }
    }
  }

  /** The type of an object that has to have one. */
  lemma TypeNeeded(fields: seq<Field>)
    ensures KindOf(fields) == match Get(fields, "type")
                              case None => Failure(MissingParameter)
                              case Some(x) => if x.Str? then Success(x.s) else Failure(InvalidValue)
  {
  }

  /** A tool the upstream would run is refused as such, and so is one inside a namespace; a
      namespace inside a namespace is an invalid value. */
  lemma HostedToolsRefused(tool: Json, kind: string)
    requires At(tool, "type", Str(kind))
    ensures kind !in {"function", "custom", "namespace"} ==>
              Run(TOOL_LIST.element, tool) == Failure(HostedTool)
              && Run(NAMESPACE_MEMBERS.element, tool) == Failure(HostedTool)
    ensures kind == "namespace" ==> Run(NAMESPACE_MEMBERS.element, tool) == Failure(InvalidValue)
  {
    MemberIs(tool, "type", Str(kind));
  }

  /** An item without a type is refused unless it has a role; of another type than the seven, as
      unsupported. */
  lemma OtherItemsRefused(item: Json)
    requires item.Object?
    ensures !Has(item.fields, "type") && !Has(item.fields, "role") ==>
              Run(Item(ITEM_SHAPES), item) == Failure(MissingParameter)
    ensures !Has(item.fields, "type") && Has(item.fields, "role") ==>
              Run(Item(ITEM_SHAPES), item).Success? == Apply(MESSAGE, item.fields).Success?
    ensures forall kind | At(item, "type", Str(kind)) ::
              kind !in {"message", "reasoning", "function_call", "function_call_output", "custom_tool_call",
                        "custom_tool_call_output", "additional_tools"} ==>
                Run(Item(ITEM_SHAPES), item) == Failure(UnsupportedInputItem)
  {
    forall kind | At(item, "type", Str(kind)) ensures KindOf(item.fields) == Success(kind) && Has(item.fields, "type") {
      MemberIs(item, "type", Str(kind));
    }
  }

  /** The types there are. */
  lemma TypesExactly(kind: string)
    ensures kind in ITEM_SHAPES <==>
              kind in {"message", "reasoning", "function_call", "function_call_output", "custom_tool_call",
                       "custom_tool_call_output", "additional_tools"}
    ensures kind in TOOL_LIST.element.shapes <==> kind in {"function", "custom", "namespace"}
    ensures kind in NAMESPACE_MEMBERS.element.shapes <==> kind in {"function", "custom"}
    ensures kind in MESSAGE_CONTENT.element.shapes <==>
              kind in {"input_text", "output_text", "refusal", "input_image"}
    ensures kind in TOOL_OUTPUT.element.shapes <==> kind in {"input_text", "input_image"}
  {
  }

  /** A part of another type is refused as unsupported, and an image from elsewhere as a
      reference. */
  lemma OtherPartsRefused(part: Json, kind: string)
    requires At(part, "type", Str(kind))
    ensures kind !in {"input_text", "output_text", "refusal", "input_image"} ==>
              Run(MESSAGE_CONTENT.element, part) == Failure(UnsupportedInputItem)
    ensures kind !in {"input_text", "input_image"} ==>
              Run(TOOL_OUTPUT.element, part) == Failure(UnsupportedInputItem)
  {
    MemberIs(part, "type", Str(kind));
  }

  lemma RemoteImagesRefused(url: string)
    requires !("data:" <= url)
    ensures !Takes(INPUT_IMAGE, ("image_url", Str(url)))
            && Objection(INPUT_IMAGE, ("image_url", Str(url))) == RemoteReference
  {
  }

  /** Where one of a few words is asked for, these are the words, and anything else, of
      whatever type, is an invalid value. */
  lemma WordsExactly(x: Json)
    ensures Words(REASONING, "effort", x, {"none", "minimal", "low", "medium", "high", "xhigh"}) == true
    ensures Words(REASONING, "summary", x, {"auto", "concise", "detailed", "none"}) == true
    ensures Words(REASONING, "context", x, {"auto", "current_turn", "all_turns"}) == true
    ensures Words(TEXT, "verbosity", x, {"low", "medium", "high"}) == true
    ensures Words(INPUT_IMAGE, "detail", x, {"auto", "low", "high", "original"}) == true
    ensures Words(MESSAGE, "phase", x, {"commentary", "final_answer"}) == true
    ensures Words(GRAMMAR_FORMAT, "syntax", x, {"lark", "regex"}) == true
    ensures Words(PROMPT_CACHE_OPTIONS, "ttl", x, {"30m"}) == true
  {
    EffortWords(x);
    SummaryWords(x);
    LevelWords(x);
    PartWords(x);
  }

  lemma EffortWords(x: Json)
    ensures Words(REASONING, "effort", x, {"none", "minimal", "low", "medium", "high", "xhigh"}) == true
  {
  }

  lemma SummaryWords(x: Json)
    ensures Words(REASONING, "summary", x, {"auto", "concise", "detailed", "none"}) == true
    ensures Words(REASONING, "context", x, {"auto", "current_turn", "all_turns"}) == true
  {
  }

  lemma LevelWords(x: Json)
    ensures Words(TEXT, "verbosity", x, {"low", "medium", "high"}) == true
    ensures Words(INPUT_IMAGE, "detail", x, {"auto", "low", "high", "original"}) == true
  {
  }

  lemma PartWords(x: Json)
    ensures Words(MESSAGE, "phase", x, {"commentary", "final_answer"}) == true
    ensures Words(GRAMMAR_FORMAT, "syntax", x, {"lark", "regex"}) == true
    ensures Words(PROMPT_CACHE_OPTIONS, "ttl", x, {"30m"}) == true
  {
  }

  predicate Words(shape: Shape, key: string, x: Json, words: set<string>) {
    if x.Str? && x.s in words then Takes(shape, (key, x))
    else !Takes(shape, (key, x)) && Objection(shape, (key, x)) == InvalidValue
  }

  /** A choice of tool: one of three words, or a function or custom tool by its name. */
  lemma ChoiceExactly(x: Json)
    ensures Run(TOOL_CHOICE, x).Success? ==>
              || x in {Str("auto"), Str("none"), Str("required")}
              || (x.Object? && OfType(x, {"function", "custom"}) && NameIn(x, "name"))
    ensures x in {Str("auto"), Str("none"), Str("required")} ==> Run(TOOL_CHOICE, x) == Success(x)
  {
    if Run(TOOL_CHOICE, x).Success? && x.Object? {
      ChosenIsNamed(x);
    }
  }

  lemma ChosenIsNamed(x: Json)
    requires x.Object? && Run(TOOL_CHOICE, x).Success?
    ensures OfType(x, {"function", "custom"}) && NameIn(x, "name")
  {
    KindIs(x.fields, {"function", "custom"});
    ShapeExactly(NAMED_TOOL_CHOICE, x.fields);
    assert "name" in NAMED_TOOL_CHOICE.required && Has(x.fields, "name");
    var name := Get(x.fields, "name").value;
    MemberIs(x, "name", name);
    HasExactly(x.fields, "name");
    assert Takes(NAMED_TOOL_CHOICE, ("name", name));
    assert At(x, "name", Str(name.s));
  }
}
