/** Tiered token prices (packages/constants/src/token-pricing.ts), over real rates. */
module TokenPricing {
  import opened Options

  datatype Rates = Rates(input: real, output: real, cacheRead: Option<real>, cacheWrite: Option<real>,
                         inputAudio: Option<real>, reasoning: Option<real>, outputAudio: Option<real>)
  datatype Tier = Tier(above: int, rates: Rates)
  datatype Pricing = Pricing(base: Rates, tiers: seq<Tier>)
  datatype Details = Details(cacheRead: Option<int>, cacheWrite: Option<int>, inputAudio: Option<int>,
                             reasoning: Option<int>, outputAudio: Option<int>)

  // ----- which tier

  predicate Applies(t: Tier, input: int) {
    input > t.above > -1
  }

  /** The rates are those of the first highest tier that applies, or the base ones. */
  ghost predicate Resolved(p: Pricing, input: int, rates: Rates) {
    || (rates == p.base && forall i :: 0 <= i < |p.tiers| ==> !Applies(p.tiers[i], input))
    || exists i :: 0 <= i < |p.tiers| && FirstHighest(p.tiers, input, i) && rates == p.tiers[i].rates
  }

  predicate FirstHighest(tiers: seq<Tier>, input: int, i: nat)
    requires i < |tiers|
  {
    && Applies(tiers[i], input)
    && (forall j :: 0 <= j < |tiers| && Applies(tiers[j], input) ==> tiers[j].above <= tiers[i].above)
    && (forall j :: 0 <= j < i && Applies(tiers[j], input) ==> tiers[j].above < tiers[i].above)
  }

  /** `resolveTokenRates` */
  method ResolveTokenRates(p: Pricing, input: int) returns (rates: Rates)
    ensures Resolved(p, input, rates)
  {
    rates := p.base;
    var threshold := -1;
    ghost var at := 0;
    for k := 0 to |p.tiers|
      invariant threshold >= -1
      invariant threshold == -1 ==> rates == p.base && forall j :: 0 <= j < k ==> !Applies(p.tiers[j], input)
      invariant threshold > -1 ==> at < k && rates == p.tiers[at].rates && threshold == p.tiers[at].above && Applies(p.tiers[at], input)
      invariant threshold > -1 ==> forall j :: 0 <= j < k && Applies(p.tiers[j], input) ==> p.tiers[j].above <= threshold
      invariant threshold > -1 ==> forall j :: 0 <= j < at && Applies(p.tiers[j], input) ==> p.tiers[j].above < threshold
    {
      if input > p.tiers[k].above && p.tiers[k].above > threshold {
        rates, threshold, at := p.tiers[k].rates, p.tiers[k].above, k;
      }
    }
    if threshold > -1 {
      assert FirstHighest(p.tiers, input, at);
    }
  }

  /** There is one answer, and with distinct thresholds it does not depend on their order. */
  lemma ResolvedOnce(p: Pricing, q: Pricing, input: int, a: Rates, b: Rates)
    requires p.base == q.base && forall t :: t in p.tiers <==> t in q.tiers
    requires q == p || forall i, j :: 0 <= i < |p.tiers| && 0 <= j < |p.tiers| && p.tiers[i].above == p.tiers[j].above ==> p.tiers[i] == p.tiers[j]
    requires Resolved(p, input, a) && Resolved(q, input, b)
    ensures a == b
  {
    if i: nat :| i < |p.tiers| && FirstHighest(p.tiers, input, i) && a == p.tiers[i].rates {
      assert p.tiers[i] in q.tiers;
      var j: nat :| j < |q.tiers| && FirstHighest(q.tiers, input, j) && b == q.tiers[j].rates;
      assert q.tiers[j] in p.tiers;
      var k: nat :| k < |p.tiers| && p.tiers[k] == q.tiers[j];
      var l: nat :| l < |q.tiers| && q.tiers[l] == p.tiers[i];
      if q == p {
        assert i == j;
      }
    } else {
      forall j | 0 <= j < |q.tiers|
        ensures !Applies(q.tiers[j], input)
      {
        assert q.tiers[j] in p.tiers;
      }
    }
  }

  // ----- what is charged

  /** So many tokens at this rate. */
  datatype Line = Line(count: int, rate: real)

  function Clamp(x: int): nat {
    if x > 0 then x else 0
  }

  function Count(remaining: nat, tokens: Option<int>): (n: nat)
    ensures n <= remaining
  {
    var wanted := if tokens.Some? then Clamp(tokens.value) else 0;
    if wanted < remaining then wanted else remaining
  }

  function RateOr(rate: Option<real>, base: real): real {
    if rate.Some? then rate.value else base
  }

  /** Each category in turn takes what it wants of what remains; the rest goes at the base rate. */
  function Lines(remaining: nat, wanted: seq<(Option<int>, Option<real>)>, base: real): seq<Line> {
    if wanted == [] then [Line(remaining, base)]
    else
      var n := Count(remaining, wanted[0].0);
      [Line(n, RateOr(wanted[0].1, base))] + Lines(remaining - n, wanted[1..], base)
  }

  function Times(n: int, rate: real): real {
    n as real * rate
  }

  function Value(lines: seq<Line>): real {
    if lines == [] then 0.0 else Times(lines[0].count, lines[0].rate) + Value(lines[1..])
  }

  function Tokens(lines: seq<Line>): int {
    if lines == [] then 0 else lines[0].count + Tokens(lines[1..])
  }

  function InputWanted(r: Rates, d: Details): seq<(Option<int>, Option<real>)> {
    [(d.cacheRead, r.cacheRead), (d.cacheWrite, r.cacheWrite), (d.inputAudio, r.inputAudio)]
  }

  function OutputWanted(r: Rates, d: Details): seq<(Option<int>, Option<real>)> {
    [(d.reasoning, r.reasoning), (d.outputAudio, r.outputAudio)]
  }

  /** All lines of a request. */
  function Bill(r: Rates, input: int, output: int, d: Details): seq<Line> {
    Lines(Clamp(input), InputWanted(r, d), r.input) + Lines(Clamp(output), OutputWanted(r, d), r.output)
  }

  /** How many of `left` tokens are of a category of so many. */
  function Portion(left: nat, tokens: Option<int>): (n: nat)
    ensures n <= left && (tokens.None? || tokens.value <= 0 ==> n == 0)
    ensures tokens.Some? && tokens.value > 0 ==> n == left <= tokens.value || n == tokens.value <= left
  {
    if tokens.None? || tokens.value <= 0 then 0 else if tokens.value < left then tokens.value else left
  }

  lemma {:induction false} LinesOfTwo(left: nat, a: (Option<int>, Option<real>), b: (Option<int>, Option<real>), base: real)
    ensures var n := Portion(left, a.0);
            var k := Portion(left - n, b.0);
            Value(Lines(left, [a, b], base)) == Times(n, RateOr(a.1, base)) + Times(k, RateOr(b.1, base)) + Times(left - n - k, base)
  {
    hide Times;
    var n := Portion(left, a.0);
    var k := Portion(left - n, b.0);
    assert [a, b][1..] == [b] && [b][1..] == [];
    assert Lines(left - n - k, [], base) == [Line(left - n - k, base)];
    assert Lines(left - n, [b], base) == [Line(k, RateOr(b.1, base))] + [Line(left - n - k, base)];
    assert Lines(left, [a, b], base) == [Line(n, RateOr(a.1, base))] + Lines(left - n, [b], base);
    ValueOne(Line(left - n - k, base));
    ValueMore(Line(k, RateOr(b.1, base)), Lines(left - n - k, [], base));
    ValueMore(Line(n, RateOr(a.1, base)), Lines(left - n, [b], base));
  }

  lemma ValueOne(l: Line)
    ensures Value([l]) == Times(l.count, l.rate)
  {
    assert [l][1..] == [];
  }

  lemma ValueMore(l: Line, lines: seq<Line>)
    ensures Value([l] + lines) == Times(l.count, l.rate) + Value(lines)
  {
    assert ([l] + lines)[1..] == lines;
  }

  lemma {:induction false} LinesOfThree(left: nat, a: (Option<int>, Option<real>), b: (Option<int>, Option<real>), c: (Option<int>, Option<real>), base: real)
    ensures var n := Portion(left, a.0);
            var k := Portion(left - n, b.0);
            var l := Portion(left - n - k, c.0);
            Value(Lines(left, [a, b, c], base)) ==
            Times(n, RateOr(a.1, base)) + Times(k, RateOr(b.1, base)) + Times(l, RateOr(c.1, base)) + Times(left - n - k - l, base)
  {
    hide Times;
    var n := Portion(left, a.0);
    assert [a, b, c][1..] == [b, c];
    LinesOfTwo(left - n, b, c, base);
    ValueMore(Line(n, RateOr(a.1, base)), Lines(left - n, [b, c], base));
  }

  /** What a bill comes to. */
  lemma BillIs(r: Rates, inputTokens: int, outputTokens: int, d: Details)
    ensures var input, output := Clamp(inputTokens), Clamp(outputTokens);
            var read := Portion(input, d.cacheRead);
            var write := Portion(input - read, d.cacheWrite);
            var audio := Portion(input - read - write, d.inputAudio);
            var thought := Portion(output, d.reasoning);
            var spoken := Portion(output - thought, d.outputAudio);
            Value(Bill(r, inputTokens, outputTokens, d)) ==
            Times(read, RateOr(r.cacheRead, r.input)) + Times(write, RateOr(r.cacheWrite, r.input)) + Times(audio, RateOr(r.inputAudio, r.input))
            + Times(input - read - write - audio, r.input)
            + Times(thought, RateOr(r.reasoning, r.output)) + Times(spoken, RateOr(r.outputAudio, r.output))
            + Times(output - thought - spoken, r.output)
  {
    hide Times, Value, Lines, RateOr, Portion;
    LinesOfThree(Clamp(inputTokens), (d.cacheRead, r.cacheRead), (d.cacheWrite, r.cacheWrite), (d.inputAudio, r.inputAudio), r.input);
    LinesOfTwo(Clamp(outputTokens), (d.reasoning, r.reasoning), (d.outputAudio, r.outputAudio), r.output);
    ValueAppend(Lines(Clamp(inputTokens), InputWanted(r, d), r.input), Lines(Clamp(outputTokens), OutputWanted(r, d), r.output));
  }

  lemma TimesIs(n: int, rate: real)
    ensures Times(n, rate) == n as real * rate
  {
  }

  lemma BillInFull(r: Rates, inputTokens: int, outputTokens: int, d: Details)
    ensures var input, output := if inputTokens > 0 then inputTokens else 0, if outputTokens > 0 then outputTokens else 0;
            var read := Portion(input, d.cacheRead);
            var write := Portion(input - read, d.cacheWrite);
            var audio := Portion(input - read - write, d.inputAudio);
            var thought := Portion(output, d.reasoning);
            var spoken := Portion(output - thought, d.outputAudio);
            Value(Bill(r, inputTokens, outputTokens, d)) ==
            Times(read, if r.cacheRead.Some? then r.cacheRead.value else r.input)
            + Times(write, if r.cacheWrite.Some? then r.cacheWrite.value else r.input)
            + Times(audio, if r.inputAudio.Some? then r.inputAudio.value else r.input)
            + Times(input - read - write - audio, r.input)
            + Times(thought, if r.reasoning.Some? then r.reasoning.value else r.output)
            + Times(spoken, if r.outputAudio.Some? then r.outputAudio.value else r.output)
            + Times(output - thought - spoken, r.output)
  {
    hide Value, Bill, Portion, Times;
    BillIs(r, inputTokens, outputTokens, d);
  }

  /** Of two rate tables that differ in one rate, the costs differ by as much for each token of that
      category, and for no other. */
  lemma RateMatters(r: Rates, x: real, y: real, inputTokens: int, outputTokens: int, d: Details)
    ensures var input, output := Clamp(inputTokens), Clamp(outputTokens);
            var read := Portion(input, d.cacheRead);
            var write := Portion(input - read, d.cacheWrite);
            var audio := Portion(input - read - write, d.inputAudio);
            var thought := Portion(output, d.reasoning);
            var spoken := Portion(output - thought, d.outputAudio);
            && CostOf(r.(cacheRead := Some(x)), inputTokens, outputTokens, d) - CostOf(r.(cacheRead := Some(y)), inputTokens, outputTokens, d)
               == read as real * (x - y)
            && CostOf(r.(cacheWrite := Some(x)), inputTokens, outputTokens, d) - CostOf(r.(cacheWrite := Some(y)), inputTokens, outputTokens, d)
               == write as real * (x - y)
            && CostOf(r.(inputAudio := Some(x)), inputTokens, outputTokens, d) - CostOf(r.(inputAudio := Some(y)), inputTokens, outputTokens, d)
               == audio as real * (x - y)
            && CostOf(r.(reasoning := Some(x)), inputTokens, outputTokens, d) - CostOf(r.(reasoning := Some(y)), inputTokens, outputTokens, d)
               == thought as real * (x - y)
            && CostOf(r.(outputAudio := Some(x)), inputTokens, outputTokens, d) - CostOf(r.(outputAudio := Some(y)), inputTokens, outputTokens, d)
               == spoken as real * (x - y)
  {
    hide Value, Bill, Portion;
    BillIs(r.(cacheRead := Some(x)), inputTokens, outputTokens, d);
    BillIs(r.(cacheRead := Some(y)), inputTokens, outputTokens, d);
    BillIs(r.(cacheWrite := Some(x)), inputTokens, outputTokens, d);
    BillIs(r.(cacheWrite := Some(y)), inputTokens, outputTokens, d);
    BillIs(r.(inputAudio := Some(x)), inputTokens, outputTokens, d);
    BillIs(r.(inputAudio := Some(y)), inputTokens, outputTokens, d);
    BillIs(r.(reasoning := Some(x)), inputTokens, outputTokens, d);
    BillIs(r.(reasoning := Some(y)), inputTokens, outputTokens, d);
    BillIs(r.(outputAudio := Some(x)), inputTokens, outputTokens, d);
    BillIs(r.(outputAudio := Some(y)), inputTokens, outputTokens, d);
  }

  /** A part goes at its own rate or at the base rate: how much the base rate matters for it. */
  lemma PartMatters(n: int, own: Option<real>, x: real, y: real)
    ensures Times(n, RateOr(own, x)) - Times(n, RateOr(own, y)) == Times(if own.Some? then 0 else n, x - y)
    ensures Times(n, x) - Times(n, y) == Times(n, x - y)
  {
    var k := n as real;
    assert k * x - k * y == k * (x - y);
  }

  lemma FourParts(a: int, b: int, c: int, e: int, z: real)
    ensures Times(a, z) + Times(b, z) + Times(c, z) + Times(e, z) == Times(a + b + c + e, z)
  {
    hide Times;
    TimesSum(a, b, z);
    TimesSum(a + b, c, z);
    TimesSum(a + b + c, e, z);
  }

  /** And of two that differ in a base rate: for the rest and for the categories without a rate. */
  lemma BaseRateMatters(r: Rates, x: real, y: real, inputTokens: int, outputTokens: int, d: Details)
    ensures var input := Clamp(inputTokens);
            var read := Portion(input, d.cacheRead);
            var write := Portion(input - read, d.cacheWrite);
            var audio := Portion(input - read - write, d.inputAudio);
            CostOf(r.(input := x), inputTokens, outputTokens, d) - CostOf(r.(input := y), inputTokens, outputTokens, d) ==
            Times(input - (if r.cacheRead.Some? then read else 0) - (if r.cacheWrite.Some? then write else 0)
                  - (if r.inputAudio.Some? then audio else 0), x - y)
    ensures var output := Clamp(outputTokens);
            var thought := Portion(output, d.reasoning);
            var spoken := Portion(output - thought, d.outputAudio);
            CostOf(r.(output := x), inputTokens, outputTokens, d) - CostOf(r.(output := y), inputTokens, outputTokens, d) ==
            Times(output - (if r.reasoning.Some? then thought else 0) - (if r.outputAudio.Some? then spoken else 0), x - y)
  {
    hide Value, Bill, Portion, Times, RateOr;
    var input, output := Clamp(inputTokens), Clamp(outputTokens);
    var read := Portion(input, d.cacheRead);
    var write := Portion(input - read, d.cacheWrite);
    var audio := Portion(input - read - write, d.inputAudio);
    var thought := Portion(output, d.reasoning);
    var spoken := Portion(output - thought, d.outputAudio);
    BillIs(r.(input := x), inputTokens, outputTokens, d);
    BillIs(r.(input := y), inputTokens, outputTokens, d);
    PartMatters(read, r.cacheRead, x, y);
    PartMatters(write, r.cacheWrite, x, y);
    PartMatters(audio, r.inputAudio, x, y);
    PartMatters(input - read - write - audio, None, x, y);
    FourParts(if r.cacheRead.Some? then 0 else read, if r.cacheWrite.Some? then 0 else write, if r.inputAudio.Some? then 0 else audio,
              input - read - write - audio, x - y);
    BillIs(r.(output := x), inputTokens, outputTokens, d);
    BillIs(r.(output := y), inputTokens, outputTokens, d);
    PartMatters(thought, r.reasoning, x, y);
    PartMatters(spoken, r.outputAudio, x, y);
    PartMatters(output - thought - spoken, None, x, y);
    FourParts(if r.reasoning.Some? then 0 else thought, if r.outputAudio.Some? then 0 else spoken, 0, output - thought - spoken, x - y);
    TimesNone(x - y);
  }

  /** The cost at these rates, in millionths of a dollar. */
  function CostOf(r: Rates, inputTokens: int, outputTokens: int, d: Details): real {
    Value(Bill(r, inputTokens, outputTokens, d))
  }

  /** One of the loops over the categories. */
  method Charge(remaining0: nat, wanted: seq<(Option<int>, Option<real>)>, base: real) returns (cost: real, remaining: nat)
    ensures cost + Times(remaining, base) == Value(Lines(remaining0, wanted, base))
  {
    hide Times;
    cost, remaining := 0.0, remaining0;
    for k := 0 to |wanted|
      invariant cost + Value(Lines(remaining, wanted[k..], base)) == Value(Lines(remaining0, wanted, base))
    {
      assert wanted[k..][1..] == wanted[k + 1..];
      ghost var lines := Lines(remaining, wanted[k..], base);
      var count := Count(remaining, wanted[k].0);
      assert lines[1..] == Lines(remaining - count, wanted[k + 1..], base);
      cost := cost + Times(count, RateOr(wanted[k].1, base));
      remaining := remaining - count;
    }
    assert [Line(remaining, base)][1..] == [];
  }

  /** `calculateTokenCostUsd`. In millionths of a dollar: cache reads, cache writes and audio share the
      input, reasoning and audio the output, each no more than is left by those before it; each
      goes at its own rate or else at the base rate, and so does the rest. */
  method CalculateTokenCostUsd(p: Pricing, inputTokens: int, outputTokens: int, details: Details) returns (usd: real)
    ensures exists rates :: Resolved(p, Clamp(inputTokens), rates)
                            && usd * 1000000.0 == Value(Bill(rates, inputTokens, outputTokens, details))
    ensures exists r :: Resolved(p, Clamp(inputTokens), r) &&
              var input, output := if inputTokens > 0 then inputTokens else 0, if outputTokens > 0 then outputTokens else 0;
              var read := Portion(input, details.cacheRead);
              var write := Portion(input - read, details.cacheWrite);
              var audio := Portion(input - read - write, details.inputAudio);
              var thought := Portion(output, details.reasoning);
              var spoken := Portion(output - thought, details.outputAudio);
              usd * 1000000.0 ==
                Times(read, if r.cacheRead.Some? then r.cacheRead.value else r.input)
                + Times(write, if r.cacheWrite.Some? then r.cacheWrite.value else r.input)
                + Times(audio, if r.inputAudio.Some? then r.inputAudio.value else r.input)
                + Times(input - read - write - audio, r.input)
                + Times(thought, if r.reasoning.Some? then r.reasoning.value else r.output)
                + Times(spoken, if r.outputAudio.Some? then r.outputAudio.value else r.output)
                + Times(output - thought - spoken, r.output)
  {
    hide Value, Lines, Portion, Resolved, Times;
    var r := ResolveTokenRates(p, Clamp(inputTokens));
    BillInFull(r, inputTokens, outputTokens, details);
    var inputCost, remainingInput := Charge(Clamp(inputTokens), InputWanted(r, details), r.input);
    var outputCost, remainingOutput := Charge(Clamp(outputTokens), OutputWanted(r, details), r.output);
    ValueAppend(Lines(Clamp(inputTokens), InputWanted(r, details), r.input), Lines(Clamp(outputTokens), OutputWanted(r, details), r.output));
    var rest := remainingInput as real * r.input + remainingOutput as real * r.output;
    TimesIs(remainingInput, r.input);
    TimesIs(remainingOutput, r.output);
    usd := (inputCost + outputCost + rest) / 1000000.0;
  }

  lemma {:induction false} ValueAppend(a: seq<Line>, b: seq<Line>)
    ensures Value(a + b) == Value(a) + Value(b) && Tokens(a + b) == Tokens(a) + Tokens(b)
  {
    if a == [] {
      assert a + b == b;
    } else {
      assert (a + b)[1..] == a[1..] + b;
      ValueAppend(a[1..], b);
    }
  }

  lemma {:induction false} LinesTokens(remaining: nat, wanted: seq<(Option<int>, Option<real>)>, base: real)
    ensures Tokens(Lines(remaining, wanted, base)) == remaining
    ensures forall l :: l in Lines(remaining, wanted, base) ==> l.count >= 0
    ensures forall l :: l in Lines(remaining, wanted, base) ==> l.rate == base || exists i :: 0 <= i < |wanted| && wanted[i].1 == Some(l.rate)
  {
    if wanted != [] {
      var n := Count(remaining, wanted[0].0);
      LinesTokens(remaining - n, wanted[1..], base);
      var rest := Lines(remaining - n, wanted[1..], base);
      assert Lines(remaining, wanted, base)[1..] == rest;
      forall l | l in Lines(remaining, wanted, base)
        ensures l.count >= 0 && (l.rate == base || exists i :: 0 <= i < |wanted| && wanted[i].1 == Some(l.rate))
      {
        if l in rest {
          if i: nat :| i < |wanted| - 1 && wanted[1..][i].1 == Some(l.rate) {
            assert wanted[i + 1].1 == Some(l.rate);
          }
        } else {
          assert l == Line(n, RateOr(wanted[0].1, base));
        }
      }
    }
  }

  /** Every input and output token is charged exactly once. */
  lemma ChargedOnce(r: Rates, input: int, output: int, d: Details)
    ensures Tokens(Bill(r, input, output, d)) == Clamp(input) + Clamp(output)
    ensures forall l :: l in Bill(r, input, output, d) ==> l.count >= 0
  {
    LinesTokens(Clamp(input), InputWanted(r, d), r.input);
    LinesTokens(Clamp(output), OutputWanted(r, d), r.output);
    ValueAppend(Lines(Clamp(input), InputWanted(r, d), r.input), Lines(Clamp(output), OutputWanted(r, d), r.output));
  }

  lemma TimesBetween(n: nat, low: real, rate: real, high: real)
    requires low <= rate <= high
    ensures Times(n, low) <= Times(n, rate) <= Times(n, high)
  {
  }

  lemma TimesSum(a: int, b: int, rate: real)
    ensures Times(a + b, rate) == Times(a, rate) + Times(b, rate)
  {
  }

  /** Between the lowest and the highest rate on the bill times the tokens. */
  lemma {:induction false} ValueBetween(lines: seq<Line>, low: real, high: real)
    requires forall l :: l in lines ==> l.count >= 0 && low <= l.rate <= high
    ensures Tokens(lines) >= 0 && Times(Tokens(lines), low) <= Value(lines) <= Times(Tokens(lines), high)
  {
    hide Times;
    if lines == [] {
      TimesNone(low);
      TimesNone(high);
    } else {
      assert lines[0] in lines;
      ValueBetween(lines[1..], low, high);
      TimesBetween(lines[0].count, low, lines[0].rate, high);
      TimesSum(lines[0].count, Tokens(lines[1..]), low);
      TimesSum(lines[0].count, Tokens(lines[1..]), high);
    }
  }

  /** All rates of a tier that are set lie in between. */
  predicate Within(r: Rates, low: real, high: real) {
    && low <= r.input <= high && low <= r.output <= high
    && forall o :: o in {r.cacheRead, r.cacheWrite, r.inputAudio, r.reasoning, r.outputAudio} && o.Some? ==> low <= o.value <= high
  }

  /** The cost lies between the lowest and the highest rate times all tokens. */
  lemma CostBetween(r: Rates, input: int, output: int, d: Details, low: real, high: real)
    requires Within(r, low, high)
    ensures var value := Value(Bill(r, input, output, d));
            Times(Clamp(input) + Clamp(output), low) <= value <= Times(Clamp(input) + Clamp(output), high)
  {
    hide Times, Value, Tokens, Lines;
    ChargedOnce(r, input, output, d);
    LinesTokens(Clamp(input), InputWanted(r, d), r.input);
    LinesTokens(Clamp(output), OutputWanted(r, d), r.output);
    ValueBetween(Bill(r, input, output, d), low, high);
  }

  lemma TimesNone(rate: real)
    ensures Times(0, rate) == 0.0
  {
  }

  // ----- discounts

  /** `toFixed(8)` */
  function Round8(x: real): real {
    if x < 0.0 then -((-x * 100000000.0 + 0.5).Floor as real / 100000000.0)
    else (x * 100000000.0 + 0.5).Floor as real / 100000000.0
  }

  const HALF: real := 0.000000005

  lemma Round8Near(x: real)
    ensures x - HALF <= Round8(x) <= x + HALF
  {
    var y := if x < 0.0 then -x else x;
    var f := (y * 100000000.0 + 0.5).Floor;
    assert f as real <= y * 100000000.0 + 0.5 < f as real + 1.0;
  }

  function Less(rate: real, m: real): real {
    Round8(rate * m)
  }

  function DiscountRate(r: Option<real>, m: real): Option<real> {
    if r.Some? then Some(Less(r.value, m)) else None
  }

  function DiscountRates(r: Rates, m: real): Rates {
    Rates(Less(r.input, m), Less(r.output, m), DiscountRate(r.cacheRead, m), DiscountRate(r.cacheWrite, m),
          DiscountRate(r.inputAudio, m), DiscountRate(r.reasoning, m), DiscountRate(r.outputAudio, m))
  }

  function DiscountTiers(tiers: seq<Tier>, m: real): seq<Tier> {
    seq(|tiers|, i requires 0 <= i < |tiers| => Tier(tiers[i].above, DiscountRates(tiers[i].rates, m)))
  }

  /** `discountTokenPricing` */
  function Discount(p: Pricing, m: real): Pricing {
    Pricing(DiscountRates(p.base, m), DiscountTiers(p.tiers, m))
  }

  /** A discount leaves the tier that applies. */
  lemma DiscountResolves(p: Pricing, m: real, input: int, rates: Rates)
    requires Resolved(p, input, rates)
    ensures Resolved(Discount(p, m), input, DiscountRates(rates, m))
  {
    hide DiscountRates;
    var q := Discount(p, m);
    assert forall i :: 0 <= i < |p.tiers| ==> Applies(q.tiers[i], input) == Applies(p.tiers[i], input);
    if i: nat :| i < |p.tiers| && FirstHighest(p.tiers, input, i) && rates == p.tiers[i].rates {
      assert FirstHighest(q.tiers, input, i);
    }
  }

  /** The same lines, each rate rounded from the multiple of the other. */
  predicate Scaled(a: seq<Line>, b: seq<Line>, m: real) {
    |a| == |b| && forall i :: 0 <= i < |a| ==> a[i].count == b[i].count >= 0 && a[i].rate == Less(b[i].rate, m)
  }

  lemma {:induction false} LinesScaled(remaining: nat, wanted: seq<(Option<int>, Option<real>)>, cheaper: seq<(Option<int>, Option<real>)>,
                                       base: real, m: real)
    requires |cheaper| == |wanted|
    requires forall i :: 0 <= i < |wanted| ==> cheaper[i] == (wanted[i].0, DiscountRate(wanted[i].1, m))
    ensures Scaled(Lines(remaining, cheaper, Less(base, m)), Lines(remaining, wanted, base), m)
  {
    hide Less;
    if wanted != [] {
      LinesScaled(remaining - Count(remaining, wanted[0].0), wanted[1..], cheaper[1..], base, m);
    }
  }

  function Scale(x: real, m: real): real {
    x * m
  }

  lemma TimesNear(n: nat, a: real, b: real, m: real)
    requires a == Less(b, m)
    ensures Scale(Times(n, b), m) - Times(n, HALF) <= Times(n, a) <= Scale(Times(n, b), m) + Times(n, HALF)
  {
    hide Round8;
    Round8Near(b * m);
    var k := n as real;
    assert Times(n, b) * m == k * (b * m);
    TimesBetween(n, b * m - HALF, a, b * m + HALF);
    assert k * (b * m - HALF) == k * (b * m) - k * HALF;
    assert k * (b * m + HALF) == k * (b * m) + k * HALF;
  }

  lemma {:induction false} ValueScaled(a: seq<Line>, b: seq<Line>, m: real)
    requires Scaled(a, b, m)
    ensures Tokens(b) >= 0
    ensures Scale(Value(b), m) - Times(Tokens(b), HALF) <= Value(a) <= Scale(Value(b), m) + Times(Tokens(b), HALF)
  {
    hide Times, Less, Scale;
    if b == [] {
      TimesNone(HALF);
      Distribute(0.0, 0.0, m);
    } else {
      ValueScaled(a[1..], b[1..], m);
      TimesNear(b[0].count, a[0].rate, b[0].rate, m);
      TimesSum(b[0].count, Tokens(b[1..]), HALF);
      Distribute(Times(b[0].count, b[0].rate), Value(b[1..]), m);
    }
  }

  lemma Distribute(x: real, y: real, m: real)
    ensures Scale(x + y, m) == Scale(x, m) + Scale(y, m)
  {
  }

  /** The cost under a discounted price is the multiple of the cost, up to half a hundred-millionth
      a token (and a millionth of that in dollars). */
  lemma DiscountScales(p: Pricing, m: real, input: int, output: int, d: Details, rates: Rates)
    requires Resolved(p, Clamp(input), rates)
    ensures Resolved(Discount(p, m), Clamp(input), DiscountRates(rates, m))
    ensures var cost := Value(Bill(rates, input, output, d));
            var discounted := Value(Bill(DiscountRates(rates, m), input, output, d));
            var slack := Times(Clamp(input) + Clamp(output), HALF);
            Scale(cost, m) - slack <= discounted <= Scale(cost, m) + slack
  {
    hide Less, Times, Value, Lines, Resolved;
    DiscountResolves(p, m, Clamp(input), rates);
    var less := DiscountRates(rates, m);
    LinesScaled(Clamp(input), InputWanted(rates, d), InputWanted(less, d), rates.input, m);
    LinesScaled(Clamp(output), OutputWanted(rates, d), OutputWanted(less, d), rates.output, m);
    ChargedOnce(rates, input, output, d);
    ValueScaled(Bill(less, input, output, d), Bill(rates, input, output, d), m);
  }
}
