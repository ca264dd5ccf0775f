/** Every tool a request declares, at the top or in an item, is in the top-level tools of some counted body. */
module CountedTools {
  import opened Results
  import opened Json
  import opened JsonMembers
  import opened Schema
  import opened RequestTables
  import opened Request
  import opened CountBodies
  import opened RequestParts

  /** The item declares tools. */
  predicate Declares(item: Json) {
    At(item, "type", Str("additional_tools"))
  }

  lemma DeclaresIs(item: Json)
    ensures IsAdditionalTools(item) <==> Declares(item)
  {
    MemberIs(item, "type", Str("additional_tools"));
  }

  lemma ToolsAre(item: Json, tools: Json)
    requires At(item, "tools", tools)
    ensures ToolsOf(item) == tools
  {
    MemberIs(item, "tools", tools);
  }

  lemma {:induction false} SplitHas(items: seq<Json>, declaring: bool)
    ensures forall item :: item in Split(items, declaring) <==> item in items && Declares(item) == declaring
    decreases |items|
  {
    if |items| > 0 {
      SplitHas(items[1..], declaring);
      DeclaresIs(items[0]);
      assert items == [items[0]] + items[1..];
    }
  }

  lemma ItemsAre(req: CreateRequest, item: Json)
    ensures ItemAt(Object(req.fields), item) <==> item in Items(req)
  {
    forall items: seq<Json> ensures At(Object(req.fields), "input", Array(items)) <==>
      Get(req.fields, "input") == Some(Array(items))
    {
      MemberIs(Object(req.fields), "input", Array(items));
    }
    if item in Items(req) {
      assert At(Object(req.fields), "input", Array(Items(req)));
    }
  }

  /** Tools that an item declares are the top-level tools of one counted body. */
  lemma DeclaredIsCounted(req: CreateRequest, item: Json, tools: Json)
    requires ItemAt(Object(req.fields), item) && Declares(item) && At(item, "tools", tools)
    ensures exists k | 1 <= k < |Bodies(req)| :: At(Object(Bodies(req)[k]), "tools", tools)
  {
    ItemsAre(req, item);
    var declaring := Split(Items(req), true);
    SplitHas(Items(req), true);
    var k :| 0 <= k < |declaring| && declaring[k] == item;
    EveryDeclarationCovered(req);
    assert Covers(req, Bodies(req)[1 + k], declaring[k]);
    ToolsAre(item, tools);
    MemberIs(Object(Bodies(req)[1 + k]), "tools", tools);
  }

  /** Tools that the request declares itself are in the first. */
  lemma TopToolsCounted(req: CreateRequest, tools: Json)
    requires At(Object(req.fields), "tools", tools)
    ensures |Bodies(req)| > 0 && At(Object(Bodies(req)[0]), "tools", tools)
  {
    EveryDeclarationCovered(req);
    PickGets(req.fields, COUNTED_FIELDS, "tools");
    assert COUNTED_FIELDS[3] == "tools";
    MemberIs(Object(req.fields), "tools", tools);
    MemberIs(Object(Bodies(req)[0]), "tools", tools);
  }

  /** And the other bodies count each of the other items once more, and no declaration twice:
      their input is the request's without the items that declare tools. */
  lemma OthersCounted(req: CreateRequest, k: nat)
    requires 1 <= k < |Bodies(req)|
    ensures exists rest: seq<Json> ::
              && At(Object(Bodies(req)[k]), "input", Array(rest))
              && forall item :: item in rest <==> ItemAt(Object(req.fields), item) && !Declares(item)
  {
    EveryDeclarationCovered(req);
    var rest := Split(Items(req), false);
    assert Covers(req, Bodies(req)[1 + (k - 1)], Split(Items(req), true)[k - 1]);
    MemberIs(Object(Bodies(req)[k]), "input", Array(rest));
    SplitHas(Items(req), false);
    forall item ensures item in rest <==> ItemAt(Object(req.fields), item) && !Declares(item) {
      ItemsAre(req, item);
    }
  }
}
