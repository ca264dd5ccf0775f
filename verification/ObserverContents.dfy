/**
What the observer reports, read off the JSON of the events: which response, with which members, and when
(`responses.rs`).
*/
module ObserverContents {
  import opened Results
  import opened Json
  import opened JsonMembers
  import opened Sse
  import opened Observer

  // ---------------------------------------------------------------------
  // A response object.

  /** Both counts are there, or usage is not reported. */
  ghost predicate UsageAt(response: Json, u: Option<Usage>) {
    match u
    case Some(Usage(input, output)) =>
      exists usage :: At(response, "usage", usage) && CountAt(usage, "input_tokens", input)
        && CountAt(usage, "output_tokens", output)
    case None =>
      forall usage, input, output :: !(At(response, "usage", usage) && CountAt(usage, "input_tokens", input)
        && CountAt(usage, "output_tokens", output))
  }

  /** The response object says exactly this. */
  ghost predicate SaidBy(response: Json, s: Summary) {
    && At(response, "id", Str(s.id)) && At(response, "status", Str(s.status))
    && TextAt(response, "model", s.model) && TextAt(response, "service_tier", s.tier)
    && UsageAt(response, s.usage)
  }

  lemma UsageParts(obj: Json, input: int, output: int)
    ensures UsageOf(obj) == Some(Usage(input, output)) <==>
              && Member(obj, "usage").Some?
              && IntegerOf(Member(obj, "usage").value, "input_tokens") == Some(input)
              && IntegerOf(Member(obj, "usage").value, "output_tokens") == Some(output)
  {
  }

  lemma UsageReads(obj: Json, input: int, output: int)
    ensures UsageOf(obj) == Some(Usage(input, output)) <==> UsageAt(obj, Some(Usage(input, output)))
  {
    UsageParts(obj, input, output);
    forall usage ensures Member(obj, "usage") == Some(usage) <==> At(obj, "usage", usage) {
      MemberIs(obj, "usage", usage);
    }
    forall usage
      ensures IntegerOf(usage, "input_tokens") == Some(input) <==> CountAt(usage, "input_tokens", input)
      ensures IntegerOf(usage, "output_tokens") == Some(output) <==> CountAt(usage, "output_tokens", output)
    {
      CountIs(usage, "input_tokens", input);
      CountIs(usage, "output_tokens", output);
    }
  }

  lemma UsageIs(obj: Json, u: Option<Usage>)
    ensures UsageOf(obj) == u <==> UsageAt(obj, u)
  {
    forall input, output
      ensures UsageOf(obj) == Some(Usage(input, output)) <==> UsageAt(obj, Some(Usage(input, output)))
    {
      UsageReads(obj, input, output);
    }
    if UsageOf(obj).Some? {
      var (input, output) := (UsageOf(obj).value.input, UsageOf(obj).value.output);
      assert UsageOf(obj) == Some(Usage(input, output)) && UsageAt(obj, Some(Usage(input, output)));
    } else {
      forall usage, input, output ensures !(At(obj, "usage", usage) && CountAt(usage, "input_tokens", input)
        && CountAt(usage, "output_tokens", output))
      {
        assert !UsageAt(obj, Some(Usage(input, output)));
      }
    }
  }

  /** Reading a response object takes from it exactly what it says. */
  lemma SummaryIs(obj: Json, s: Summary)
    ensures FromObject(obj) == Some(s) <==> SaidBy(obj, s)
  {
    TextIs(obj, "id", Some(s.id));
    TextIs(obj, "status", Some(s.status));
    TextIs(obj, "model", s.model);
    TextIs(obj, "service_tier", s.tier);
    UsageIs(obj, s.usage);
  }

  // ---------------------------------------------------------------------
  // What an event says.

  /** The event's name, or else the `type` its data gives. */
  ghost predicate Called(d: Decoder, e: Event, name: string) {
    match e.name
    case Some(bytes) => d.text(bytes) == name
    case None =>
      match d.json(e.data)
      case None => name == ""
      case Some(v) => At(v, "type", Str(name)) || (name == "" && forall t :: !At(v, "type", Str(t)))
  }

  ghost predicate IsError(d: Decoder, e: Event) {
    Called(d, e, "error")
  }

  ghost predicate IsLifecycle(d: Decoder, e: Event) {
    || Called(d, e, "response.created") || Called(d, e, "response.queued") || Called(d, e, "response.in_progress")
    || Called(d, e, "response.completed") || Called(d, e, "response.incomplete") || Called(d, e, "response.failed")
    || Called(d, e, "response.cancelled")
  }

  /** A lifecycle event that can be read: its data is an object whose `response` says
      this, and whose `type`, if it has one, is the event's name. */
  ghost predicate Announces(d: Decoder, e: Event, s: Summary) {
    && IsLifecycle(d, e) && d.json(e.data).Some?
    && (forall t | At(d.json(e.data).value, "type", Str(t)) :: Called(d, e, t))
    && exists response :: At(d.json(e.data).value, "response", response) && SaidBy(response, s)
  }

  predicate Ended(s: Summary) {
    s.status == "completed" || s.status == "incomplete" || s.status == "failed" || s.status == "cancelled"
  }

  lemma NameIs(d: Decoder, e: Event, name: string)
    ensures NameOf(d, e) == name <==> Called(d, e, name)
  {
    if e.name.None? && d.json(e.data).Some? {
      var v := d.json(e.data).value;
      TextIs(v, "type", Some(name));
      TextIs(v, "type", None);
    }
  }

  lemma LifecycleIs(d: Decoder, e: Event)
    ensures NameOf(d, e) in LIFECYCLE <==> IsLifecycle(d, e)
    ensures NameOf(d, e) == "error" <==> IsError(d, e)
  {
    NameIs(d, e, "error");
    NameIs(d, e, "response.created");
    NameIs(d, e, "response.queued");
    NameIs(d, e, "response.in_progress");
    NameIs(d, e, "response.completed");
    NameIs(d, e, "response.incomplete");
    NameIs(d, e, "response.failed");
    NameIs(d, e, "response.cancelled");
  }

  /** The event can be read as a lifecycle event. */
  predicate Readable(d: Decoder, e: Event) {
    var value := d.json(e.data);
    && NameOf(d, e) in LIFECYCLE && value.Some?
    && (AsText(Member(value.value, "type")).Some? ==> AsText(Member(value.value, "type")).value == NameOf(d, e))
    && Member(value.value, "response").Some? && FromObject(Member(value.value, "response").value).Some?
  }

  lemma TypeAgrees(d: Decoder, e: Event)
    requires d.json(e.data).Some?
    ensures var kind := AsText(Member(d.json(e.data).value, "type"));
            (kind.Some? ==> kind.value == NameOf(d, e)) <==>
            (forall t | At(d.json(e.data).value, "type", Str(t)) :: Called(d, e, t))
  {
    var v := d.json(e.data).value;
    forall t ensures AsText(Member(v, "type")) == Some(t) <==> At(v, "type", Str(t)) {
      TextIs(v, "type", Some(t));
    }
    forall t ensures NameOf(d, e) == t <==> Called(d, e, t) {
      NameIs(d, e, t);
    }
    var kind := AsText(Member(v, "type"));
    if kind.Some? {
      assert At(v, "type", Str(kind.value));
    }
  }

  lemma ReadableSays(d: Decoder, e: Event, s: Summary)
    ensures Announces(d, e, s) <==>
              Readable(d, e) && FromObject(Member(d.json(e.data).value, "response").value) == Some(s)
  {
    LifecycleIs(d, e);
    if d.json(e.data).Some? {
      var v := d.json(e.data).value;
      TypeAgrees(d, e);
      forall response ensures Member(v, "response") == Some(response) <==> At(v, "response", response) {
        MemberIs(v, "response", response);
      }
      forall response ensures FromObject(response) == Some(s) <==> SaidBy(response, s) {
        SummaryIs(response, s);
      }
    }
  }

  // ---------------------------------------------------------------------
  // One event.

  /** Errors are reported with the code and message they carry, and teach nothing. */
  lemma ErrorObserved(d: Decoder, k: Known, e: Event)
    requires IsError(d, e)
    ensures Observe(d, k, e).0 == k && |Observe(d, k, e).1| == 1 && Observe(d, k, e).1[0].StreamError?
    ensures var o := Observe(d, k, e).1[0];
            var v := if d.json(e.data).Some? then d.json(e.data).value else Null;
            TextAt(v, "code", o.code) && TextAt(v, "message", o.message)
  {
    LifecycleIs(d, e);
    var v := if d.json(e.data).Some? then d.json(e.data).value else Null;
    TextIs(v, "code", AsText(Member(v, "code")));
    TextIs(v, "message", AsText(Member(v, "message")));
  }

  /** What is neither an error nor of the lifecycle is passed over. */
  lemma OtherIgnored(d: Decoder, k: Known, e: Event)
    requires !IsError(d, e) && !IsLifecycle(d, e)
    ensures Observe(d, k, e) == (k, [])
  {
    LifecycleIs(d, e);
  }

  lemma UnreadableFails(d: Decoder, k: Known, e: Event)
    requires IsLifecycle(d, e) && forall s :: !Announces(d, e, s)
    ensures Observe(d, k, e) == (k.(failure := Some(MalformedLifecycleEvent)), [])
  {
    LifecycleIs(d, e);
    NotError(d, e);
    if Readable(d, e) {
      var s := FromObject(Member(d.json(e.data).value, "response").value).value;
      ReadableSays(d, e, s);
    }
  }

  lemma NotError(d: Decoder, e: Event)
    requires IsLifecycle(d, e)
    ensures !IsError(d, e)
  {
    LifecycleIs(d, e);
  }

  /** The first to name a response tells its id, the first to end it what it ended with;
      another id, or another end, fails the observer. */
  lemma AnnouncedLearned(d: Decoder, k: Known, e: Event, s: Summary)
    requires Announces(d, e, s)
    ensures var (next, out) := Observe(d, k, e);
            if k.responseId.Some? && k.responseId.value != s.id then
              next == k.(failure := Some(ConflictingResponseIds)) && out == []
            else
              var first := if k.responseId.None? then [ResponseId(s.id)] else [];
              var named := k.(responseId := Some(s.id));
              if Ended(s) && k.terminal.None? then next == named.(terminal := Some(s)) && out == first + [Terminal(s)]
              else if Ended(s) && k.terminal.value != s then
                next == named.(failure := Some(ConflictingTerminals)) && out == first
              else next == named && out == first
  {
    LifecycleIs(d, e);
    NotError(d, e);
    ReadableSays(d, e, s);
  }
}
