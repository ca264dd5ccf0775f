/** The liability of a request: the most it can consume (`liability.rs`). */
module Liability {
  import opened Results
  import opened Utf8

  const U64_MAX := 0xffff_ffff_ffff_ffff

  datatype ModelSpec = ModelSpec(maxOutputTokens: nat, byteLevelKnown: bool)

  /** Texts are their UTF-8 bytes. */
  datatype Shape = FlatText(instructions: Option<seq<byte>>, input: seq<byte>) | Structured

  datatype Bound = Known(liability: nat) | NeedsExactInput(outputBound: nat)

  datatype EstimateError = ZeroOutputCap | Overflow

  function CheckedAdd(a: nat, b: nat): Result<nat, EstimateError> {
    if a + b > U64_MAX then Failure(Overflow) else Success(a + b)
  }

  function OutputBound(spec: ModelSpec, cap: Option<nat>): Result<nat, EstimateError> {
    if cap.None? then Success(spec.maxOutputTokens)
    else if cap.value == 0 then Failure(ZeroOutputCap)
    else Success(if cap.value < spec.maxOutputTokens then cap.value else spec.maxOutputTokens)
  }

  /** Every text the provider receives. */
  function Nodes(shape: Shape): seq<seq<byte>>
    requires shape.FlatText?
  {
    (if shape.instructions.Some? then [shape.instructions.value] else []) + [shape.input]
  }

  /** A checked sum of one measure over the texts. */
  function Total(nodes: seq<seq<byte>>, measure: seq<byte> -> nat, sum: nat): Result<nat, EstimateError>
    decreases |nodes|
  {
    if |nodes| == 0 then Success(sum)
    else
      var next :- CheckedAdd(sum, measure(nodes[0]));
      Total(nodes[1..], measure, next)
  }

  function Bytes(text: seq<byte>): nat {
    |text|
  }

  /** `chars().count()`: the bytes that do not continue a character. */
  function Characters(text: seq<byte>): nat {
    if |text| == 0 then 0 else Characters(text[1..]) + if 0x80 <= text[0] <= 0xBF then 0 else 1
  }

  function Framing(allowance: nat, nodes: nat): Result<nat, EstimateError> {
    if allowance * nodes > U64_MAX then Failure(Overflow) else Success(allowance * nodes)
  }

  function StructuralInputBound(allowance: nat, spec: ModelSpec, shape: Shape): Result<Option<nat>, EstimateError> {
    if shape.Structured? || !spec.byteLevelKnown then Success(None)
    else
      var bytes :- Total(Nodes(shape), Bytes, 0);
      var framing :- Framing(allowance, |Nodes(shape)|);
      var bound :- CheckedAdd(bytes, framing);
      Success(Some(bound))
  }

  function Estimate(allowance: nat, spec: ModelSpec, shape: Shape, cap: Option<nat>): Result<Bound, EstimateError> {
    var output :- OutputBound(spec, cap);
    var input :- StructuralInputBound(allowance, spec, shape);
    if input.None? then Success(NeedsExactInput(output))
    else
      var liability :- CheckedAdd(input.value, output);
      Success(Known(liability))
  }

  function EstimateSynchronous(allowance: nat, spec: ModelSpec, shape: Shape, cap: Option<nat>,
                               maxCharacters: nat, maxBytes: nat): Result<Bound, EstimateError>
  {
    var output :- OutputBound(spec, cap);
    if shape.Structured? then Estimate(allowance, spec, shape, cap)
    else
      var bytes :- Total(Nodes(shape), Bytes, 0);
      var characters :- Total(Nodes(shape), Characters, 0);
      if characters > maxCharacters || bytes > maxBytes then Estimate(allowance, spec, shape, cap)
      else
        var framing :- Framing(allowance, |Nodes(shape)|);
        var input :- CheckedAdd(bytes, framing);
        var liability :- CheckedAdd(input, output);
        Success(Known(liability))
  }

  function WithExactInput(input: nat, output: nat): Result<nat, EstimateError> {
    CheckedAdd(input, output)
  }

  // ---------------------------------------------------------------------
  // Byte-pair encodings.

  /** Tokens begin as the text's bytes. */
  function Singles(text: seq<byte>): seq<seq<byte>> {
    seq(|text|, i requires 0 <= i < |text| => [text[i]])
  }

  /** Merges tokens `k` and `k + 1`, when there are such. */
  function Merge(tokens: seq<seq<byte>>, k: nat): seq<seq<byte>> {
    if k + 1 < |tokens| then tokens[..k] + [tokens[k] + tokens[k + 1]] + tokens[k + 2..] else tokens
  }

  function MergeAll(tokens: seq<seq<byte>>, merges: seq<nat>): seq<seq<byte>>
    decreases |merges|
  {
    if |merges| == 0 then tokens else MergeAll(Merge(tokens, merges[0]), merges[1..])
  }

  function Spell(tokens: seq<seq<byte>>): seq<byte> {
    if |tokens| == 0 then [] else tokens[0] + Spell(tokens[1..])
  }

  lemma {:induction false} SpellJoins(x: seq<seq<byte>>, y: seq<seq<byte>>)
    ensures Spell(x + y) == Spell(x) + Spell(y)
  {
    if |x| == 0 {
      assert x + y == y;
    } else {
      assert (x + y)[1..] == x[1..] + y;
      SpellJoins(x[1..], y);
      assert x[0] + (Spell(x[1..]) + Spell(y)) == (x[0] + Spell(x[1..])) + Spell(y);
    }
  }

  /** Merging never adds tokens and never changes what they spell. */
  lemma {:induction false} MergesOnlyShrink(tokens: seq<seq<byte>>, merges: seq<nat>)
    ensures |MergeAll(tokens, merges)| <= |tokens|
    ensures Spell(MergeAll(tokens, merges)) == Spell(tokens)
    decreases |merges|
  {
    if |merges| != 0 {
      OneMerge(tokens, merges[0]);
      MergesOnlyShrink(Merge(tokens, merges[0]), merges[1..]);
    }
  }

  lemma OneMerge(tokens: seq<seq<byte>>, k: nat)
    ensures |Merge(tokens, k)| <= |tokens| && Spell(Merge(tokens, k)) == Spell(tokens)
  {
    if k + 1 < |tokens| {
      var before, pair, after := tokens[..k], [tokens[k] + tokens[k + 1]], tokens[k + 2..];
      assert tokens == before + [tokens[k], tokens[k + 1]] + after;
      SpellJoins(before + pair, after);
      SpellJoins(before, pair);
      SpellJoins(before + [tokens[k], tokens[k + 1]], after);
      SpellJoins(before, [tokens[k], tokens[k + 1]]);
      var two, second: seq<seq<byte>> := [tokens[k], tokens[k + 1]], [tokens[k + 1]];
      assert two[1..] == second && second[1..] == [] && pair[1..] == [];
      assert Spell(pair) == tokens[k] + tokens[k + 1] + [];
      assert Spell([tokens[k], tokens[k + 1]]) == tokens[k] + (tokens[k + 1] + []);
    }
  }

  lemma {:induction false} SinglesSpell(text: seq<byte>)
    ensures Spell(Singles(text)) == text && |Singles(text)| == |text|
  {
    if |text| != 0 {
      assert Singles(text)[1..] == Singles(text[1..]);
      SinglesSpell(text[1..]);
    }
  }

  /** `tokens` is some byte-pair tokenisation of `text`. */
  ghost predicate Tokenises(text: seq<byte>, tokens: seq<seq<byte>>) {
    exists merges: seq<nat> :: tokens == MergeAll(Singles(text), merges)
  }

  lemma TokensWithinBytes(text: seq<byte>, tokens: seq<seq<byte>>)
    requires Tokenises(text, tokens)
    ensures |tokens| <= |text| && Spell(tokens) == text
  {
    var merges: seq<nat> :| tokens == MergeAll(Singles(text), merges);
    MergesOnlyShrink(Singles(text), merges);
    SinglesSpell(text);
  }

  // ---------------------------------------------------------------------
  // The bound.

  /** What a request consumed: the tokens of each text, the provider's framing
      around each, and the output. */
  datatype Consumption = Consumption(tokens: seq<seq<seq<byte>>>, framing: nat, output: nat)

  function TokenCount(tokens: seq<seq<seq<byte>>>): nat {
    if |tokens| == 0 then 0 else |tokens[0]| + TokenCount(tokens[1..])
  }

  function Consumed(c: Consumption): nat {
    TokenCount(c.tokens) + c.framing + c.output
  }

  /** Consumption the provider could report for this request, if it honours caps and,
      for plain text, its encoding merges bytes and its framing is within the
      allowance. What structured input consumes is anything at all. */
  ghost predicate Plausible(allowance: nat, spec: ModelSpec, shape: Shape, cap: Option<nat>, c: Consumption) {
    && c.output <= spec.maxOutputTokens && (cap.Some? ==> c.output <= cap.value)
    && (shape.FlatText? ==>
          var nodes := Nodes(shape);
          && |c.tokens| == |nodes|
          && (forall i | 0 <= i < |nodes| :: Tokenises(nodes[i], c.tokens[i]))
          && c.framing <= allowance * |nodes|)
  }

  lemma {:induction false} TotalIsSum(nodes: seq<seq<byte>>, tokens: seq<seq<seq<byte>>>, sum: nat)
    requires Total(nodes, Bytes, sum).Success? && |tokens| == |nodes|
    requires forall i | 0 <= i < |nodes| :: Tokenises(nodes[i], tokens[i])
    ensures sum + TokenCount(tokens) <= Total(nodes, Bytes, sum).value
    decreases |nodes|
  {
    if |nodes| != 0 {
      TokensWithinBytes(nodes[0], tokens[0]);
      TotalIsSum(nodes[1..], tokens[1..], sum + |nodes[0]|);
    }
  }

  /** The tokens and the framing fit the structural bound. */
  lemma InputWithinBound(allowance: nat, spec: ModelSpec, shape: Shape, cap: Option<nat>, c: Consumption)
    requires shape.FlatText? && Plausible(allowance, spec, shape, cap, c)
    requires Total(Nodes(shape), Bytes, 0).Success?
    ensures TokenCount(c.tokens) + c.framing <= Total(Nodes(shape), Bytes, 0).value + allowance * |Nodes(shape)|
    ensures OutputBound(spec, cap).Success? ==> c.output <= OutputBound(spec, cap).value
  {
    TotalIsSum(Nodes(shape), c.tokens, 0);
  }

  /** The liability a request is reserved with: the estimate, or the provider's own
      count of the input with the output bound on top. */
  function LiabilityOf(bound: Result<Bound, EstimateError>, counted: nat): Result<nat, EstimateError> {
    var known :- bound;
    match known
    case Known(liability) => Success(liability)
    case NeedsExactInput(output) => WithExactInput(counted, output)
  }

  /** A count, where one is asked for, is at least the input. */
  predicate CountedIn(bound: Result<Bound, EstimateError>, counted: nat, c: Consumption) {
    bound.Success? && bound.value.NeedsExactInput? ==> TokenCount(c.tokens) + c.framing <= counted
  }

  /** The liability dominates: whatever the request consumes, for any shape, any
      merges and any output within the caps, is at most what is reserved for it,
      without wrapping around. Plain text needs no count; anything else is covered
      if the provider counts its input in full. */
  lemma EstimateDominates(allowance: nat, spec: ModelSpec, shape: Shape, cap: Option<nat>, c: Consumption, counted: nat)
    requires Plausible(allowance, spec, shape, cap, c)
    requires CountedIn(Estimate(allowance, spec, shape, cap), counted, c)
    ensures var r := LiabilityOf(Estimate(allowance, spec, shape, cap), counted);
            r.Success? ==> Consumed(c) <= r.value <= U64_MAX
    ensures shape.Structured? || !spec.byteLevelKnown ==>
              !(Estimate(allowance, spec, shape, cap).Success? && Estimate(allowance, spec, shape, cap).value.Known?)
  {
    if shape.FlatText? && Total(Nodes(shape), Bytes, 0).Success? {
      InputWithinBound(allowance, spec, shape, cap, c);
    }
  }

  /** The same for the synchronous estimate, whatever its size limits. */
  lemma SynchronousDominates(allowance: nat, spec: ModelSpec, shape: Shape, cap: Option<nat>,
                             maxCharacters: nat, maxBytes: nat, c: Consumption, counted: nat)
    requires Plausible(allowance, spec, shape, cap, c)
    requires CountedIn(EstimateSynchronous(allowance, spec, shape, cap, maxCharacters, maxBytes), counted, c)
    ensures var r := LiabilityOf(EstimateSynchronous(allowance, spec, shape, cap, maxCharacters, maxBytes), counted);
            r.Success? ==> Consumed(c) <= r.value <= U64_MAX
  {
    var bound := Estimate(allowance, spec, shape, cap);
    if EstimateSynchronous(allowance, spec, shape, cap, maxCharacters, maxBytes) == bound {
      EstimateDominates(allowance, spec, shape, cap, c, counted);
    } else if shape.FlatText? && Total(Nodes(shape), Bytes, 0).Success? {
      InputWithinBound(allowance, spec, shape, cap, c);
    }
  }

  /** The sizes of the texts together. */
  function TotalBytes(nodes: seq<seq<byte>>): nat {
    if |nodes| == 0 then 0 else |nodes[0]| + TotalBytes(nodes[1..])
  }

  lemma {:induction false} TotalExactly(nodes: seq<seq<byte>>, sum: nat)
    ensures Total(nodes, Bytes, sum) ==
            if sum + TotalBytes(nodes) <= U64_MAX || |nodes| == 0 then Success(sum + TotalBytes(nodes))
            else Failure(Overflow)
    decreases |nodes|
  {
    if |nodes| != 0 && sum + |nodes[0]| <= U64_MAX {
      TotalExactly(nodes[1..], sum + |nodes[0]|);
    }
  }

  /** The output a request is reserved for: neither the model's limit nor the cap is
      passed, and one of the two is reached. */
  predicate Tight(spec: ModelSpec, cap: Option<nat>, output: nat) {
    && output <= spec.maxOutputTokens && (cap.Some? ==> output <= cap.value)
    && (output == spec.maxOutputTokens || cap == Some(output))
  }

  /** No more is reserved than the bound needs. A cap of 0 is refused; a known estimate is
      exactly the bytes, the framing and the tight output bound, and is refused when
      that does not fit; and a count is asked for exactly when the input is structured
      or the encoding unknown. */
  lemma EstimateIsTight(allowance: nat, spec: ModelSpec, shape: Shape, cap: Option<nat>)
    requires spec.maxOutputTokens <= U64_MAX
    ensures match Estimate(allowance, spec, shape, cap)
            case Failure(ZeroOutputCap) => cap == Some(0)
            case Failure(Overflow) =>
              && cap != Some(0) && shape.FlatText? && spec.byteLevelKnown
              && exists output | Tight(spec, cap, output) ::
                   TotalBytes(Nodes(shape)) + allowance * |Nodes(shape)| + output > U64_MAX
            case Success(Known(liability)) =>
              && cap != Some(0) && shape.FlatText? && spec.byteLevelKnown
              && exists output | Tight(spec, cap, output) ::
                   liability == TotalBytes(Nodes(shape)) + allowance * |Nodes(shape)| + output
            case Success(NeedsExactInput(output)) =>
              cap != Some(0) && !(shape.FlatText? && spec.byteLevelKnown) && Tight(spec, cap, output)
  {
    if cap != Some(0) {
      var output := OutputBound(spec, cap).value;
      assert Tight(spec, cap, output);
      if shape.FlatText? {
        TotalExactly(Nodes(shape), 0);
      }
    }
  }

  /** The characters of valid text: each has one byte that does not continue another,
      and continuing bytes are those from 128 to 191. */
  function CharactersIn(text: seq<byte>): nat {
    if |text| == 0 then 0
    else CharactersIn(text[..|text| - 1]) + if 128 <= text[|text| - 1] < 192 then 0 else 1
  }

  function TotalCharacters(nodes: seq<seq<byte>>): nat {
    if |nodes| == 0 then 0 else CharactersIn(nodes[0]) + TotalCharacters(nodes[1..])
  }

  lemma {:induction false} CharactersAppend(text: seq<byte>, b: byte)
    ensures Characters(text + [b]) == Characters(text) + if 128 <= b < 192 then 0 else 1
  {
    if |text| == 0 {
      assert text + [b] == [b] && [b][1..] == [];
    } else {
      assert (text + [b])[1..] == text[1..] + [b];
      CharactersAppend(text[1..], b);
    }
  }

  lemma {:induction false} CharactersAre(text: seq<byte>)
    ensures Characters(text) == CharactersIn(text) && CharactersIn(text) <= |text|
  {
    if |text| != 0 {
      CharactersAre(text[..|text| - 1]);
      CharactersAppend(text[..|text| - 1], text[|text| - 1]);
      assert text == text[..|text| - 1] + [text[|text| - 1]];
    }
  }

  lemma {:induction false} CharactersExactly(nodes: seq<seq<byte>>, sum: nat)
    requires sum + TotalBytes(nodes) <= U64_MAX
    ensures Total(nodes, Characters, sum) == Success(sum + TotalCharacters(nodes))
    decreases |nodes|
  {
    if |nodes| != 0 {
      CharactersAre(nodes[0]);
      CharactersExactly(nodes[1..], sum + CharactersIn(nodes[0]));
    }
  }

  /** When the synchronous estimate answers for itself: exactly for plain text within
      both limits, whatever the encoding, and then as tightly; otherwise it answers what
      the other estimate does. */
  lemma SynchronousIsTight(allowance: nat, spec: ModelSpec, shape: Shape, cap: Option<nat>,
                           maxCharacters: nat, maxBytes: nat)
    requires spec.maxOutputTokens <= U64_MAX && cap != Some(0)
    requires shape.FlatText? ==> TotalBytes(Nodes(shape)) <= U64_MAX
    ensures var r := EstimateSynchronous(allowance, spec, shape, cap, maxCharacters, maxBytes);
            if shape.FlatText? && TotalCharacters(Nodes(shape)) <= maxCharacters && TotalBytes(Nodes(shape)) <= maxBytes
            then exists output | Tight(spec, cap, output) ::
                var liability := TotalBytes(Nodes(shape)) + allowance * |Nodes(shape)| + output;
                r == if liability <= U64_MAX then Success(Known(liability)) else Failure(Overflow)
            else r == Estimate(allowance, spec, shape, cap)
  {
    assert Tight(spec, cap, OutputBound(spec, cap).value);
    if shape.FlatText? {
      TotalExactly(Nodes(shape), 0);
      CharactersExactly(Nodes(shape), 0);
    }
  }
}
