/** The ingress allowlist (`request.rs`, the shape tables). */
module RequestTables {
  import opened Results
  import opened Json
  import opened Schema

  const TYPE := Keep(Leaf(AnyString))
  const TEXT_FIELD := Keep(Leaf(AnyString))
  const NAME := Keep(Leaf(NonEmptyString))

  function Enum(options: seq<string>): Rule {
    Keep(Leaf(OneOf(options)))
  }

  // ---------------------------------------------------------------------
  // Content parts.

  const INPUT_TEXT := Shape(map["type" := TYPE, "text" := TEXT_FIELD], ["text"])

  const OUTPUT_TEXT := Shape(
    map["type" := TYPE, "text" := TEXT_FIELD, "annotations" := Strip, "logprobs" := Strip], ["text"])

  const REFUSAL := Shape(map["type" := TYPE, "refusal" := TEXT_FIELD], ["refusal"])

  const INPUT_IMAGE := Shape(
    map["type" := TYPE, "image_url" := Keep(Leaf(InlineImage)), "detail" := Enum(["auto", "low", "high", "original"])],
    ["image_url"])

  const SUMMARY_TEXT := Shape(map["type" := TYPE, "text" := TEXT_FIELD], ["text"])

  const REASONING_TEXT := Shape(map["type" := TYPE, "text" := TEXT_FIELD], ["text"])

  const MESSAGE_CONTENT := TextOr(Typed(
    map["input_text" := INPUT_TEXT, "output_text" := OUTPUT_TEXT, "refusal" := REFUSAL, "input_image" := INPUT_IMAGE],
    map[], UnsupportedInputItem))

  const TOOL_OUTPUT := TextOr(Typed(
    map["input_text" := INPUT_TEXT, "input_image" := INPUT_IMAGE], map[], UnsupportedInputItem))

  // ---------------------------------------------------------------------
  // Tools.

  const FUNCTION_TOOL := Shape(
    map["type" := TYPE, "name" := NAME, "description" := TEXT_FIELD, "parameters" := Keep(Leaf(AnyObject)),
        "strict" := Keep(Leaf(BooleanOrNull)), "defer_loading" := Keep(Leaf(NotDeferred))],
    ["name"])

  const TEXT_FORMAT := Shape(map["type" := TYPE], [])

  const GRAMMAR_FORMAT := Shape(
    map["type" := TYPE, "syntax" := Enum(["lark", "regex"]), "definition" := TEXT_FIELD], ["syntax", "definition"])

  const TOOL_FORMAT := Typed(map["text" := TEXT_FORMAT, "grammar" := GRAMMAR_FORMAT], map[], InvalidValue)

  const CUSTOM_TOOL := Shape(
    map["type" := TYPE, "name" := NAME, "description" := TEXT_FIELD, "format" := Keep(TOOL_FORMAT),
        "defer_loading" := Keep(Leaf(NotDeferred))],
    ["name"])

  const NAMESPACE_MEMBERS := ArrayOf(Typed(
    map["function" := FUNCTION_TOOL, "custom" := CUSTOM_TOOL], map["namespace" := InvalidValue], HostedTool))

  const NAMESPACE_TOOL := Shape(
    map["type" := TYPE, "name" := NAME, "description" := TEXT_FIELD, "tools" := Keep(NAMESPACE_MEMBERS)],
    ["name", "tools"])

  const TOOL_LIST := ArrayOf(Typed(
    map["function" := FUNCTION_TOOL, "custom" := CUSTOM_TOOL, "namespace" := NAMESPACE_TOOL], map[], HostedTool))

  const TOOL_CHOICE := Choice(
    ["auto", "none", "required"],
    map["function" := NAMED_TOOL_CHOICE, "custom" := NAMED_TOOL_CHOICE])

  const NAMED_TOOL_CHOICE := Shape(map["type" := TYPE, "name" := NAME], ["name"])

  // ---------------------------------------------------------------------
  // Input items.

  const MESSAGE := Shape(
    map["type" := TYPE, "id" := Strip, "status" := Strip,
        "role" := Enum(["user", "assistant", "system", "developer"]),
        "content" := Keep(MESSAGE_CONTENT),
        "phase" := Enum(["commentary", "final_answer"])],
    ["role", "content"])

  const REASONING_ITEM := Shape(
    map["type" := TYPE, "id" := Strip, "status" := Strip,
        "summary" := Keep(ArrayOf(Typed(map["summary_text" := SUMMARY_TEXT], map[], InvalidValue))),
        "content" := Keep(ArrayOf(Typed(map["reasoning_text" := REASONING_TEXT], map[], InvalidValue))),
        "encrypted_content" := NAME],
    ["encrypted_content"])

  const FUNCTION_CALL := Shape(
    map["type" := TYPE, "id" := Strip, "status" := Strip, "call_id" := NAME, "name" := NAME,
        "namespace" := TEXT_FIELD, "arguments" := TEXT_FIELD],
    ["call_id", "name", "arguments"])

  const FUNCTION_CALL_OUTPUT := Shape(
    map["type" := TYPE, "id" := Strip, "status" := Strip, "call_id" := NAME, "name" := TEXT_FIELD,
        "namespace" := TEXT_FIELD, "output" := Keep(TOOL_OUTPUT)],
    ["call_id", "output"])

  const CUSTOM_TOOL_CALL := Shape(
    map["type" := TYPE, "id" := Strip, "status" := Strip, "call_id" := NAME, "name" := NAME,
        "namespace" := TEXT_FIELD, "input" := TEXT_FIELD],
    ["call_id", "name", "input"])

  const CUSTOM_TOOL_CALL_OUTPUT := Shape(
    map["type" := TYPE, "id" := Strip, "status" := Strip, "call_id" := NAME, "name" := TEXT_FIELD,
        "output" := Keep(TOOL_OUTPUT)],
    ["call_id", "output"])

  const ADDITIONAL_TOOLS := Shape(
    map["type" := TYPE, "id" := Strip, "role" := Enum(["developer"]), "tools" := Keep(TOOL_LIST)],
    ["role", "tools"])

  const ITEM_SHAPES := map[
    "message" := MESSAGE,
    "reasoning" := REASONING_ITEM,
    "function_call" := FUNCTION_CALL,
    "function_call_output" := FUNCTION_CALL_OUTPUT,
    "custom_tool_call" := CUSTOM_TOOL_CALL,
    "custom_tool_call_output" := CUSTOM_TOOL_CALL_OUTPUT,
    "additional_tools" := ADDITIONAL_TOOLS]

  const INPUT := TextOr(Item(ITEM_SHAPES))

  // ---------------------------------------------------------------------
  // Top-level objects.

  const REASONING := Shape(
    map["effort" := Enum(["none", "minimal", "low", "medium", "high", "xhigh"]),
        "summary" := Enum(["auto", "concise", "detailed", "none"]),
        "context" := Enum(["auto", "current_turn", "all_turns"])],
    [])

  const PLAIN_OUTPUT_FORMAT := Shape(map["type" := TYPE], [])

  const JSON_SCHEMA_FORMAT := Shape(
    map["type" := TYPE, "name" := NAME, "schema" := Keep(Leaf(AnyObject)), "strict" := Keep(Leaf(BooleanOrNull)),
        "description" := TEXT_FIELD],
    ["name", "schema"])

  const OUTPUT_FORMAT := Typed(
    map["text" := PLAIN_OUTPUT_FORMAT, "json_object" := PLAIN_OUTPUT_FORMAT, "json_schema" := JSON_SCHEMA_FORMAT],
    map[], InvalidValue)

  const TEXT := Shape(map["verbosity" := Enum(["low", "medium", "high"]), "format" := Keep(OUTPUT_FORMAT)], [])

  const PROMPT_CACHE_OPTIONS := Shape(map["ttl" := Enum(["30m"])], [])

  const INCLUDE := ArrayOf(Leaf(OneOf(["reasoning.encrypted_content"])))

  /** The request's own fields that are checked and kept. */
  function CheckFor(key: string): Option<Check> {
    if key == "model" then Some(Leaf(NonEmptyString))
    else if key == "input" then Some(INPUT)
    else if key == "instructions" || key == "prompt_cache_key" then Some(Leaf(AnyString))
    else if key == "tools" then Some(TOOL_LIST)
    else if key == "tool_choice" then Some(TOOL_CHOICE)
    else if key == "parallel_tool_calls" then Some(Leaf(Boolean))
    else if key == "reasoning" then Some(ObjectOf(REASONING))
    else if key == "text" then Some(ObjectOf(TEXT))
    else if key == "include" then Some(INCLUDE)
    else if key == "max_output_tokens" then Some(Leaf(PositiveInteger))
    else if key == "temperature" || key == "top_p" then Some(Leaf(AnyNumber))
    else if key == "metadata" then Some(Leaf(StringMap))
    else None
  }

  /** What `CreateRequest::parse` does with a field of the request itself. */
  datatype TopRule =
    | Kept(check: Check)
    | Dropped(check: Check)
    | Ignored
    | Stream
    | Background
    | ServerState
    | Unlisted

  function RuleFor(key: string): TopRule {
    if CheckFor(key).Some? then Kept(CheckFor(key).value)
    else if key == "prompt_cache_options" then Dropped(ObjectOf(PROMPT_CACHE_OPTIONS))
    else if key == "client_metadata" then Ignored
    else if key == "store" then Dropped(Leaf(Boolean))
    else if key == "service_tier" then Dropped(Leaf(AnyString))
    else if key == "stream" then Stream
    else if key == "background" then Background
    else if key == "previous_response_id" || key == "conversation" || key == "prompt" then ServerState
    else Unlisted
  }

  // ---------------------------------------------------------------------
  // The tables are steady.

  /** A shape chosen by `type`, and steady. */
  predicate Sound(shape: Shape) {
    KeepsType(shape) && SteadyShape(shape)
  }

  lemma TypedSound(c: Check)
    requires (c.Typed? || c.Choice?) && forall k | k in c.shapes :: Sound(c.shapes[k])
    ensures Steady(c)
  {
  }

  lemma SummaryTextSound()
    ensures Sound(SUMMARY_TEXT)
  {
  }

  lemma ReasoningTextSound()
    ensures Sound(REASONING_TEXT)
  {
  }

  lemma FunctionToolSound()
    ensures Sound(FUNCTION_TOOL)
  {
  }

  lemma PartsSteady()
    ensures Steady(MESSAGE_CONTENT.element) && Steady(TOOL_OUTPUT.element)
  {
  }

  lemma FormatsSteady()
    ensures Steady(TOOL_FORMAT) && Steady(OUTPUT_FORMAT) && Steady(TOOL_CHOICE)
  {
  }

  lemma CustomToolSound()
    ensures Sound(CUSTOM_TOOL)
  {
    FormatsSteady();
    OneNested(CUSTOM_TOOL, "format");
  }

  /** All scalars but one. */
  lemma OneNested(shape: Shape, key: string)
    requires key in shape.fields && shape.fields[key].Keep? && Steady(shape.fields[key].check)
    requires forall k | k in shape.fields && k != key && shape.fields[k].Keep? :: shape.fields[k].check.Leaf?
    ensures SteadyShape(shape)
  {
  }

  lemma NamespaceToolSound()
    ensures Sound(NAMESPACE_TOOL)
  {
    FunctionToolSound();
    CustomToolSound();
    TypedSound(NAMESPACE_MEMBERS.element);
    OneNested(NAMESPACE_TOOL, "tools");
  }

  lemma ToolListSteady()
    ensures Steady(TOOL_LIST)
  {
    FunctionToolSound();
    CustomToolSound();
    NamespaceToolSound();
    TypedSound(TOOL_LIST.element);
  }

  lemma MessageSound()
    ensures Sound(MESSAGE) && KeepsRole(MESSAGE)
  {
    PartsSteady();
    OneNested(MESSAGE, "content");
  }

  lemma ReasoningItemSound()
    ensures Sound(REASONING_ITEM)
  {
    SummaryTextSound();
    ReasoningTextSound();
    TypedSound(Typed(map["summary_text" := SUMMARY_TEXT], map[], InvalidValue));
    TypedSound(Typed(map["reasoning_text" := REASONING_TEXT], map[], InvalidValue));
  }

  lemma FunctionCallSound()
    ensures Sound(FUNCTION_CALL)
  {
  }

  lemma CustomToolCallSound()
    ensures Sound(CUSTOM_TOOL_CALL)
  {
  }

  lemma FunctionCallOutputSound()
    ensures Sound(FUNCTION_CALL_OUTPUT)
  {
    PartsSteady();
    OneNested(FUNCTION_CALL_OUTPUT, "output");
  }

  lemma CustomToolCallOutputSound()
    ensures Sound(CUSTOM_TOOL_CALL_OUTPUT)
  {
    PartsSteady();
    OneNested(CUSTOM_TOOL_CALL_OUTPUT, "output");
  }

  lemma AdditionalToolsSound()
    ensures Sound(ADDITIONAL_TOOLS)
  {
    ToolListSteady();
    OneNested(ADDITIONAL_TOOLS, "tools");
  }

  lemma InputSteady()
    ensures Steady(INPUT)
  {
    MessageSound();
    ReasoningItemSound();
    FunctionCallSound();
    FunctionCallOutputSound();
    CustomToolCallSound();
    CustomToolCallOutputSound();
    AdditionalToolsSound();
    assert Steady(Item(ITEM_SHAPES));
  }

  lemma TextSteady()
    ensures Steady(ObjectOf(TEXT))
  {
    FormatsSteady();
    OneNested(TEXT, "format");
  }

  lemma ReasoningSteady()
    ensures Steady(ObjectOf(REASONING))
  {
  }

  /** Every kept field's table reads its own output the same way again. */
  lemma KeptSteady(key: string)
    requires CheckFor(key).Some?
    ensures Steady(CheckFor(key).value)
  {
    if key == "tools" {
      ToolListSteady();
    } else if key == "tool_choice" {
      FormatsSteady();
    } else if key == "input" {
      InputSteady();
    } else if key == "text" {
      TextSteady();
    } else if key == "reasoning" {
      ReasoningSteady();
    } else if key == "include" {
      assert Steady(INCLUDE);
    }
  }

  /** The fields the upstream body adds are not among the kept ones. */
  lemma AddedNotKept()
    ensures CheckFor("background").None? && CheckFor("store").None?
    ensures CheckFor("stream").None? && CheckFor("service_tier").None?
  {
  }

  // ---------------------------------------------------------------------
  // Identity.

  predicate Loses(shape: Shape, key: string) {
    key in shape.fields ==> shape.fields[key].Strip?
  }

  predicate LosesIdentity(shape: Shape) {
    Loses(shape, "id") && Loses(shape, "status")
  }

  lemma MessagesLoseIdentity()
    ensures LosesIdentity(MESSAGE) && LosesIdentity(REASONING_ITEM) && LosesIdentity(ADDITIONAL_TOOLS)
  {
  }

  lemma CallsLoseIdentity()
    ensures LosesIdentity(FUNCTION_CALL) && LosesIdentity(FUNCTION_CALL_OUTPUT)
  {
  }

  lemma CustomCallsLoseIdentity()
    ensures LosesIdentity(CUSTOM_TOOL_CALL) && LosesIdentity(CUSTOM_TOOL_CALL_OUTPUT)
  {
  }

  /** No input item's shape keeps an `id` or a `status`. */
  lemma ItemsLoseIdentity(kind: string)
    requires kind in ITEM_SHAPES
    ensures LosesIdentity(ITEM_SHAPES[kind])
  {
    MessagesLoseIdentity();
    CallsLoseIdentity();
    CustomCallsLoseIdentity();
  }
}
