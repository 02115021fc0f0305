/** The shader's dense layers, the index expressions that benchmarks/gpu-lexer/transpose-shader.py
    rewrites in them, and the agreement of both with the transposed weights. */
module DenseLayers {
  import opened WeightTranspose

  // ---------- layers ----------

  datatype Index = Num(n: nat) | Var(x: string) | Add(l: Index, r: Index) | Mul(l: Index, r: Index)

  datatype Let = Let(x: string, e: Index)

  /** `for (counter in 0..count) { acc += weights[accesses[0]] * .. + weights[accesses[1]] * .. }` */
  datatype Stage = Stage(lets: seq<Let>, counter: string, count: nat, accesses: seq<Index>)

  /** One output lane of a layer; the stages feed one accumulator. */
  datatype Layer = Layer(lane: string, stages: seq<Stage>)

  type Env = map<string, nat>

  function Eval(e: Index, env: Env): nat {
    match e
    case Num(n) => n
    case Var(x) => if x in env then env[x] else 0
    case Add(l, r) => Eval(l, env) + Eval(r, env)
    case Mul(l, r) => Eval(l, env) * Eval(r, env)
  }

  function Bind(lets: seq<Let>, env: Env): Env {
    if lets == [] then env else Bind(lets[1..], env[lets[0].x := Eval(lets[0].e, env)])
  }

  /** The position the `j`-th read of turn `t` takes its weight from. */
  function Position(layer: Layer, lane: nat, s: nat, t: nat, j: nat): nat
    requires s < |layer.stages| && j < |layer.stages[s].accesses|
  {
    var stage := layer.stages[s];
    Eval(stage.accesses[j], Bind(stage.lets, map[layer.lane := lane][stage.counter := t]))
  }

  /** How one turn combines the accumulator with the weights it read; it knows stage and turn, so
      it also covers the inputs. Nothing is assumed about it: rounding is inside. */
  type Step<!W, !A> = (A, seq<W>, nat, nat) -> A

  ghost function Turn<W, A>(layer: Layer, weights: nat -> W, lane: nat, s: nat, t: nat, step: Step<W, A>, acc: A): A
    requires s < |layer.stages|
  {
    var accesses := layer.stages[s].accesses;
    step(acc, seq(|accesses|, j requires 0 <= j < |accesses| => weights(Position(layer, lane, s, t, j))), s, t)
  }

  ghost function RunStage<W, A>(layer: Layer, weights: nat -> W, lane: nat, s: nat, t: nat, step: Step<W, A>, acc: A): A
    requires s < |layer.stages| && t <= layer.stages[s].count
    decreases layer.stages[s].count - t
  {
    if t == layer.stages[s].count then acc
    else RunStage(layer, weights, lane, s, t + 1, step, Turn(layer, weights, lane, s, t, step, acc))
  }

  ghost function Run<W, A>(layer: Layer, weights: nat -> W, lane: nat, s: nat, step: Step<W, A>, acc: A): A
    requires s <= |layer.stages|
    decreases |layer.stages| - s
  {
    if s == |layer.stages| then acc
    else Run(layer, weights, lane, s + 1, step, RunStage(layer, weights, lane, s, 0, step, acc))
  }

  // ---------- the rewrite of the expressions ----------

  /** Replaces every occurrence, as `str.replace` does on these texts. */
  function Replace(e: Index, from: Index, into: Index): Index {
    if e == from then into
    else match e
      case Add(l, r) => Add(Replace(l, from, into), Replace(r, from, into))
      case Mul(l, r) => Mul(Replace(l, from, into), Replace(r, from, into))
      case _ => e
  }

  /** The script's patterns: a part of an expression, a whole `let x=from;`, a whole read `i[from]`. */
  datatype Rule = Anywhere(from: Index, into: Index) | WholeLet(x: string, from: Index, into: Index) |
    WholeRead(from: Index, into: Index)

  function LetBy(l: Let, rule: Rule): Let {
    match rule
    case Anywhere(from, into) => Let(l.x, Replace(l.e, from, into))
    case WholeLet(x, from, into) => if l == Let(x, from) then Let(x, into) else l
    case WholeRead(_, _) => l
  }

  function ReadBy(e: Index, rule: Rule): Index {
    match rule
    case Anywhere(from, into) => Replace(e, from, into)
    case WholeLet(_, _, _) => e
    case WholeRead(from, into) => if e == from then into else e
  }

  /** The rules, one after the other. */
  function RewriteLet(l: Let, rules: seq<Rule>): Let
    decreases |rules|
  {
    if rules == [] then l else RewriteLet(LetBy(l, rules[0]), rules[1..])
  }

  function RewriteRead(e: Index, rules: seq<Rule>): Index
    decreases |rules|
  {
    if rules == [] then e else RewriteRead(ReadBy(e, rules[0]), rules[1..])
  }

  function RewriteStage(stage: Stage, rules: seq<Rule>): Stage {
    Stage(seq(|stage.lets|, i requires 0 <= i < |stage.lets| => RewriteLet(stage.lets[i], rules)),
          stage.counter, stage.count,
          seq(|stage.accesses|, i requires 0 <= i < |stage.accesses| => RewriteRead(stage.accesses[i], rules)))
  }

  function RewriteLayer(layer: Layer, rules: seq<Rule>): Layer {
    Layer(layer.lane,
          seq(|layer.stages|, i requires 0 <= i < |layer.stages| => RewriteStage(layer.stages[i], rules)))
  }

  /** The script's text of a layer, updated rule by rule. */
  class LayerText {
    var layer: Layer

    constructor (layer: Layer)
      ensures this.layer == layer
    {
      this.layer := layer;
    }

    method ReplaceAll(rules: seq<Rule>)
      modifies this
      ensures layer == RewriteLayer(old(layer), rules)
    {
      hide RewriteLayer;
      RewriteNothing(layer);
      for k := 0 to |rules|
        invariant layer == RewriteLayer(old(layer), rules[..k])
      {
        RewriteNext(old(layer), rules[..k], rules[k]);
        assert rules[..k + 1] == rules[..k] + [rules[k]];
        layer := RewriteLayer(layer, [rules[k]]);
      }
      assert rules[..|rules|] == rules;
    }
  }

  lemma RewriteNothing(layer: Layer)
    ensures RewriteLayer(layer, []) == layer
  {
    forall s | 0 <= s < |layer.stages| ensures RewriteStage(layer.stages[s], []) == layer.stages[s] {
      assert RewriteStage(layer.stages[s], []).lets == layer.stages[s].lets;
    }
  }

  lemma {:induction false} RewriteLast(l: Let, e: Index, rules: seq<Rule>, last: Rule)
    ensures RewriteLet(l, rules + [last]) == RewriteLet(RewriteLet(l, rules), [last])
    ensures RewriteRead(e, rules + [last]) == RewriteRead(RewriteRead(e, rules), [last])
    decreases |rules|
  {
    hide LetBy, ReadBy;
    if rules == [] {
      assert [] + [last] == [last];
    } else {
      assert (rules + [last])[1..] == rules[1..] + [last];
      RewriteLast(LetBy(l, rules[0]), ReadBy(e, rules[0]), rules[1..], last);
    }
  }

  lemma RewriteNext(layer: Layer, rules: seq<Rule>, last: Rule)
    ensures RewriteLayer(layer, rules + [last]) == RewriteLayer(RewriteLayer(layer, rules), [last])
  {
    hide RewriteLet, RewriteRead;
    forall l ensures RewriteLet(l, rules + [last]) == RewriteLet(RewriteLet(l, rules), [last]) {
      RewriteLast(l, Num(0), rules, last);
    }
    forall e ensures RewriteRead(e, rules + [last]) == RewriteRead(RewriteRead(e, rules), [last]) {
      RewriteLast(Let("", e), e, rules, last);
    }
    var once, twice := RewriteLayer(layer, rules + [last]), RewriteLayer(RewriteLayer(layer, rules), [last]);
    forall s | 0 <= s < |layer.stages| ensures once.stages[s] == twice.stages[s] {
      assert once.stages[s].lets == twice.stages[s].lets;
      assert once.stages[s].accesses == twice.stages[s].accesses;
    }
  }

  // ---------- every place, and no other ----------

  predicate Occurs(x: Index, e: Index) {
    e == x || ((e.Add? || e.Mul?) && (Occurs(x, e.l) || Occurs(x, e.r)))
  }

  /** An expression that holds no `from` stays as it is. A replacement leaves no `from` anywhere, unless a new
      one comes about because `from` holds `into` or the other way round. */
  lemma {:induction false} ReplacedEverywhere(e: Index, from: Index, into: Index)
    ensures !Occurs(from, e) ==> Replace(e, from, into) == e
    ensures Occurs(from, e) ==> Occurs(into, Replace(e, from, into))
    ensures !Occurs(into, from) && !Occurs(from, into) ==> !Occurs(from, Replace(e, from, into))
    decreases e
  {
    if e != from && (e.Add? || e.Mul?) {
      ReplacedEverywhere(e.l, from, into);
      ReplacedEverywhere(e.r, from, into);
    }
  }

  /** A rule for a whole `let` or a whole read changes nothing else. */
  lemma WholeOnly(l: Let, e: Index, x: string, from: Index, into: Index)
    ensures LetBy(l, WholeRead(from, into)) == l && ReadBy(e, WholeLet(x, from, into)) == e
    ensures l.x != x || l.e != from ==> LetBy(l, WholeLet(x, from, into)) == l
    ensures e != from ==> ReadBy(e, WholeRead(from, into)) == e
  {}

  // ---------- agreement ----------

  /** Lane `lane` reads row `lane` of the region: each read of the original takes some column of
      that row, and the rewritten read takes the same cell of the transposed region. */
  ghost predicate ReadsRow(g: Region, layer: Layer, moved: Layer, lane: nat) {
    && |layer.stages| == |moved.stages|
    && forall s | 0 <= s < |layer.stages| ::
         && layer.stages[s].count == moved.stages[s].count
         && |layer.stages[s].accesses| == |moved.stages[s].accesses|
         && forall t, j | 0 <= t < layer.stages[s].count && 0 <= j < |layer.stages[s].accesses| ::
              SameCell(g, lane, Position(layer, lane, s, t, j), Position(moved, lane, s, t, j))
  }

  ghost predicate SameCell(g: Region, row: nat, before: nat, after: nat) {
    exists column: nat {:trigger column * g.rows} | column < g.columns ::
      before == g.offset + row * g.columns + column && after == g.offset + column * g.rows + row
  }

  lemma {:induction false} StageAgrees<W, A>(g: Region, layer: Layer, moved: Layer, words: nat -> W,
                                             transposed: nat -> W, lane: nat, s: nat, t: nat, step: Step<W, A>, acc: A)
    requires ReadsRow(g, layer, moved, lane) && s < |layer.stages| && t <= layer.stages[s].count
    requires forall before, after | SameCell(g, lane, before, after) :: transposed(after) == words(before)
    ensures RunStage(moved, transposed, lane, s, t, step, acc) == RunStage(layer, words, lane, s, t, step, acc)
    decreases layer.stages[s].count - t
  {
    hide Position, SameCell;
    if t < layer.stages[s].count {
      var n := |layer.stages[s].accesses|;
      assert seq(n, j requires 0 <= j < n => transposed(Position(moved, lane, s, t, j))) ==
             seq(n, j requires 0 <= j < n => words(Position(layer, lane, s, t, j)));
      StageAgrees(g, layer, moved, words, transposed, lane, s, t + 1, step, Turn(layer, words, lane, s, t, step, acc));
    }
  }

  /** Same weights in the same order, so the same result for any step. */
  lemma {:induction false} LayerAgrees<W, A>(g: Region, layer: Layer, moved: Layer, words: nat -> W,
                                             transposed: nat -> W, lane: nat, s: nat, step: Step<W, A>, acc: A)
    requires ReadsRow(g, layer, moved, lane) && s <= |layer.stages|
    requires forall before, after | SameCell(g, lane, before, after) :: transposed(after) == words(before)
    ensures Run(moved, transposed, lane, s, step, acc) == Run(layer, words, lane, s, step, acc)
    decreases |layer.stages| - s
  {
    hide SameCell, RunStage;
    if s < |layer.stages| {
      StageAgrees(g, layer, moved, words, transposed, lane, s, 0, step, acc);
      LayerAgrees(g, layer, moved, words, transposed, lane, s + 1, step, RunStage(layer, words, lane, s, 0, step, acc));
    }
  }

  // ---------- the shader's layers and the script's rules ----------

  const REGIONS: seq<Region> :=
    [Region(37129, 32, 32), Region(38185, 32, 32), Region(39241, 32, 64),
     Region(35865, 16, 64), Region(29640, 72, 80), Region(25920, 9, 72)]

  function Row(offset: nat, lane: string, width: nat): Index {
    Add(Num(offset), Mul(Var(lane), Num(width)))
  }

  function Plus(a: string, b: string): Index { Add(Var(a), Var(b)) }

  function PlusHalf(a: string, b: string): Index { Add(Add(Var(a), Num(32)), Var(b)) }

  function Strided(a: string, b: string, rows: nat): Index { Add(Var(a), Mul(Var(b), Num(rows))) }

  function StridedHalf(a: string, b: string, rows: nat): Index { Add(Var(a), Mul(Add(Num(32), Var(b)), Num(rows))) }

  /** A layer with its script rules, the region its weights lie in, and its number of lanes. */
  datatype Entry = Entry(layer: Layer, rules: seq<Rule>, region: nat, lanes: nat)

  /** `i[offset+lane*width+counter]` becomes `i[offset+counter*lanes+lane]`. */
  function Direct(region: nat, offset: nat, lane: string, lanes: nat, counter: string, width: nat): Entry {
    var read := Add(Row(offset, lane, width), Var(counter));
    Entry(Layer(lane, [Stage([], counter, width, [read])]),
          [Anywhere(read, Add(Add(Num(offset), Mul(Var(counter), Num(lanes))), Var(lane)))], region, lanes)
  }

  /** The chunked shader's bases are replaced as whole `let`s, the kernel's wherever the text stands. */
  function BaseRule(whole: bool, base: string, offset: nat, lane: string, width: nat): Rule {
    if whole then WholeLet(base, Row(offset, lane, width), Add(Num(offset), Var(lane)))
    else Anywhere(Row(offset, lane, width), Add(Num(offset), Var(lane)))
  }

  /** A base in a `let`, and the two halves of a row read in one turn at base and base+32. */
  function Halves(whole: bool, region: nat, offset: nat, base: string, lane: string, lanes: nat,
                  counter: string): Entry {
    Entry(Layer(lane, [Stage([Let(base, Row(offset, lane, 64))], counter, 32,
                             [Plus(base, counter), PlusHalf(base, counter)])]),
          [BaseRule(whole, base, offset, lane, 64),
           WholeRead(Plus(base, counter), Strided(base, counter, lanes)),
           WholeRead(PlusHalf(base, counter), StridedHalf(base, counter, lanes))], region, lanes)
  }

  const GATES: nat := 64

  function GateBase(start: Index): Index { Add(start, Num(GATES)) }

  function MovedGateBase(lane: string): Index {
    Add(Add(Num(29640), Var(lane)), Mul(Num(GATES), Num(72)))
  }

  /** The 80-wide rows: two halves and, at base+64, sixteen gate weights, with the rules in the
      script's order. In the kernel the first rule has already changed the second base. */
  function Hidden(whole: bool, base: string, lane: string, counter: string, extra: string, gate: string): Entry {
    var start := if whole then Row(29640, lane, 80) else Add(Num(29640), Var(lane));
    Entry(Layer(lane, [Stage([Let(base, Row(29640, lane, 80))], counter, 32,
                             [Plus(base, counter), PlusHalf(base, counter)]),
                       Stage([Let(extra, GateBase(Row(29640, lane, 80)))], gate, 16, [Plus(extra, gate)])]),
          [BaseRule(whole, base, 29640, lane, 80),
           WholeRead(Plus(base, counter), Strided(base, counter, 72)),
           WholeRead(PlusHalf(base, counter), StridedHalf(base, counter, 72)),
           WholeLet(extra, GateBase(start), MovedGateBase(lane)),
           WholeRead(Plus(extra, gate), Strided(extra, gate, 72))], 4, 72)
  }

  /** The layers of the chunked shader (first six) and of the single-chunk kernel. */
  function Entries(): seq<Entry> {
    [Direct(0, 37129, "Ba", 32, "Z", 32), Direct(1, 38185, "Ba", 32, "Z", 32),
     Halves(true, 2, 39241, "Tc", "k", 32, "la"), Halves(true, 3, 35865, "yd", "ra", 16, "U"),
     Hidden(true, "zd", "V", "W", "ue", "cb"), Direct(5, 25920, "sa", 9, "db", 72),
     Halves(false, 2, 39241, "weight", "k", 32, "channel"), Halves(false, 3, 35865, "weight", "gate", 16, "channel"),
     Hidden(false, "weight", "hidden", "channel", "extra", "gate"), Direct(5, 25920, "label", 9, "hidden", 72)]
  }

  // ---------- what the rules turn the expressions into ----------

  lemma Rules1(l: Let, e: Index, a: Rule)
    ensures RewriteLet(l, [a]) == LetBy(l, a) && RewriteRead(e, [a]) == ReadBy(e, a)
  {}

  lemma Rules3(l: Let, e: Index, a: Rule, b: Rule, c: Rule)
    ensures RewriteLet(l, [a, b, c]) == LetBy(LetBy(LetBy(l, a), b), c)
    ensures RewriteRead(e, [a, b, c]) == ReadBy(ReadBy(ReadBy(e, a), b), c)
  {
    hide LetBy, ReadBy;
    assert [a, b, c][1..] == [b, c] && [b, c][1..] == [c];
    Rules1(LetBy(LetBy(l, a), b), ReadBy(ReadBy(e, a), b), c);
  }

  lemma Rules5(l: Let, e: Index, a: Rule, b: Rule, c: Rule, d: Rule, f: Rule)
    ensures RewriteLet(l, [a, b, c, d, f]) == LetBy(LetBy(LetBy(LetBy(LetBy(l, a), b), c), d), f)
    ensures RewriteRead(e, [a, b, c, d, f]) == ReadBy(ReadBy(ReadBy(ReadBy(ReadBy(e, a), b), c), d), f)
  {
    hide LetBy, ReadBy;
    assert [a, b, c, d, f][1..] == [b, c, d, f] && [b, c, d, f][1..] == [c, d, f];
    Rules3(LetBy(LetBy(l, a), b), ReadBy(ReadBy(e, a), b), c, d, f);
  }

  /** The stages whose reads the script rewrites, as they read afterwards. */
  function MovedHalves(offset: nat, base: string, lane: string, lanes: nat, counter: string): Stage {
    Stage([Let(base, Add(Num(offset), Var(lane)))], counter, 32,
          [Strided(base, counter, lanes), StridedHalf(base, counter, lanes)])
  }

  function MovedGates(lane: string, extra: string, gate: string): Stage {
    Stage([Let(extra, MovedGateBase(lane))], gate, 16, [Strided(extra, gate, 72)])
  }

  lemma RewriteDirect(region: nat, offset: nat, lane: string, lanes: nat, counter: string, width: nat)
    ensures var e := Direct(region, offset, lane, lanes, counter, width);
            RewriteLayer(e.layer, e.rules) ==
            Layer(lane, [Stage([], counter, width, [Add(Add(Num(offset), Mul(Var(counter), Num(lanes))), Var(lane))])])
  {
    var e := Direct(region, offset, lane, lanes, counter, width);
    Rules1(Let("", Num(0)), e.layer.stages[0].accesses[0], e.rules[0]);
    assert RewriteStage(e.layer.stages[0], e.rules) ==
           Stage([], counter, width, [Add(Add(Num(offset), Mul(Var(counter), Num(lanes))), Var(lane))]);
  }

  /** The base rule moves the base and leaves the reads from any base alone. */
  lemma BaseMoved(whole: bool, base: string, offset: nat, lane: string, width: nat, any: string, counter: string)
    ensures var rule := BaseRule(whole, base, offset, lane, width);
            && LetBy(Let(base, Row(offset, lane, width)), rule) == Let(base, Add(Num(offset), Var(lane)))
            && ReadBy(Plus(any, counter), rule) == Plus(any, counter)
            && ReadBy(PlusHalf(any, counter), rule) == PlusHalf(any, counter)
  {
    var from, into := Row(offset, lane, width), Add(Num(offset), Var(lane));
    assert Replace(from, from, into) == into;
    assert Replace(Plus(any, counter), from, into) == Plus(any, counter);
    assert Replace(Add(Var(any), Num(32)), from, into) == Add(Var(any), Num(32));
    assert Replace(PlusHalf(any, counter), from, into) == PlusHalf(any, counter);
  }

  /** The two rules for the reads of the halves. */
  lemma ReadsMoved(base: string, counter: string, rows: nat, l: Let)
    ensures var a, b := WholeRead(Plus(base, counter), Strided(base, counter, rows)),
                        WholeRead(PlusHalf(base, counter), StridedHalf(base, counter, rows));
            && ReadBy(ReadBy(Plus(base, counter), a), b) == Strided(base, counter, rows)
            && ReadBy(ReadBy(PlusHalf(base, counter), a), b) == StridedHalf(base, counter, rows)
            && LetBy(LetBy(l, a), b) == l
  {}

  lemma RewriteHalves(whole: bool, region: nat, offset: nat, base: string, lane: string, lanes: nat, counter: string)
    ensures var e := Halves(whole, region, offset, base, lane, lanes, counter);
            RewriteLayer(e.layer, e.rules) == Layer(lane, [MovedHalves(offset, base, lane, lanes, counter)])
  {
    hide LetBy, ReadBy, RewriteLet, RewriteRead, Replace, BaseRule;
    var e := Halves(whole, region, offset, base, lane, lanes, counter);
    var r, stage := e.rules, e.layer.stages[0];
    Rules3(stage.lets[0], stage.accesses[0], r[0], r[1], r[2]);
    Rules3(stage.lets[0], stage.accesses[1], r[0], r[1], r[2]);
    BaseMoved(whole, base, offset, lane, 64, base, counter);
    ReadsMoved(base, counter, lanes, Let(base, Add(Num(offset), Var(lane))));
    assert RewriteStage(stage, r) == MovedHalves(offset, base, lane, lanes, counter);
  }

  /** The base of the gate weights, after all five rules of either shader. */
  lemma GateBaseMoved(whole: bool, base: string, lane: string, counter: string, extra: string, gate: string)
    requires extra != base
    ensures var e := Hidden(whole, base, lane, counter, extra, gate);
            RewriteLet(e.layer.stages[1].lets[0], e.rules) == Let(extra, MovedGateBase(lane))
  {
    hide RewriteLet;
    var e := Hidden(whole, base, lane, counter, extra, gate);
    var r, l := e.rules, e.layer.stages[1].lets[0];
    Rules5(l, Num(0), r[0], r[1], r[2], r[3], r[4]);
    var from, into := Row(29640, lane, 80), Add(Num(29640), Var(lane));
    assert Replace(from, from, into) == into;
    if whole {
      assert LetBy(l, r[0]) == l;
    } else {
      assert GateBase(from) != from && Replace(Num(GATES), from, into) == Num(GATES);
      assert Replace(GateBase(from), from, into) == GateBase(into);
    }
  }

  /** The rules for the gate weights leave the halves alone, and the other way round. */
  lemma GatesApart(base: string, lane: string, counter: string, extra: string, gate: string, start: Index)
    requires extra != base
    ensures var d, f := WholeLet(extra, GateBase(start), MovedGateBase(lane)),
            WholeRead(Plus(extra, gate), Strided(extra, gate, 72));
            && ReadBy(ReadBy(Strided(base, counter, 72), d), f) == Strided(base, counter, 72)
            && ReadBy(ReadBy(StridedHalf(base, counter, 72), d), f) == StridedHalf(base, counter, 72)
            && LetBy(LetBy(Let(base, Add(Num(29640), Var(lane))), d), f) == Let(base, Add(Num(29640), Var(lane)))
            && ReadBy(ReadBy(Plus(extra, gate), d), f) == Strided(extra, gate, 72)
    ensures var a, b := WholeRead(Plus(base, counter), Strided(base, counter, 72)),
                        WholeRead(PlusHalf(base, counter), StridedHalf(base, counter, 72));
            ReadBy(ReadBy(Plus(extra, gate), a), b) == Plus(extra, gate)
  {}

  lemma RewriteHidden(whole: bool, base: string, lane: string, counter: string, extra: string, gate: string)
    requires extra != base
    ensures var e := Hidden(whole, base, lane, counter, extra, gate);
            RewriteLayer(e.layer, e.rules) ==
            Layer(lane, [MovedHalves(29640, base, lane, 72, counter), MovedGates(lane, extra, gate)])
  {
    hide LetBy, ReadBy, RewriteLet, RewriteRead, Replace, BaseRule, GateBase, MovedGateBase;
    var e := Hidden(whole, base, lane, counter, extra, gate);
    var r, a, b := e.rules, e.layer.stages[0], e.layer.stages[1];
    var start := if whole then Row(29640, lane, 80) else Add(Num(29640), Var(lane));
    Rules5(a.lets[0], a.accesses[0], r[0], r[1], r[2], r[3], r[4]);
    Rules5(a.lets[0], a.accesses[1], r[0], r[1], r[2], r[3], r[4]);
    Rules5(b.lets[0], b.accesses[0], r[0], r[1], r[2], r[3], r[4]);
    BaseMoved(whole, base, 29640, lane, 80, base, counter);
    BaseMoved(whole, base, 29640, lane, 80, extra, gate);
    ReadsMoved(base, counter, 72, Let(base, Add(Num(29640), Var(lane))));
    GatesApart(base, lane, counter, extra, gate, start);
    GateBaseMoved(whole, base, lane, counter, extra, gate);
    assert RewriteStage(a, r) == MovedHalves(29640, base, lane, 72, counter);
    assert RewriteStage(b, r) == MovedGates(lane, extra, gate);
  }

  // ---------- each entry reads its own row ----------

  lemma CellHere(g: Region, row: nat, column: nat, before: nat, after: nat)
    requires column < g.columns
    requires before == g.offset + row * g.columns + column && after == g.offset + column * g.rows + row
    ensures SameCell(g, row, before, after)
  {}

  function TurnEnv(layer: Layer, lane: nat, s: nat, t: nat): Env
    requires s < |layer.stages|
  {
    map[layer.lane := lane][layer.stages[s].counter := t]
  }

  lemma PositionPlain(layer: Layer, lane: nat, s: nat, t: nat, j: nat)
    requires s < |layer.stages| && j < |layer.stages[s].accesses| && layer.stages[s].lets == []
    ensures Position(layer, lane, s, t, j) == Eval(layer.stages[s].accesses[j], TurnEnv(layer, lane, s, t))
  {
    hide Eval;
  }

  lemma PositionBound(layer: Layer, lane: nat, s: nat, t: nat, j: nat, l: Let)
    requires s < |layer.stages| && j < |layer.stages[s].accesses| && layer.stages[s].lets == [l]
    ensures var env := TurnEnv(layer, lane, s, t);
            Position(layer, lane, s, t, j) == Eval(layer.stages[s].accesses[j], env[l.x := Eval(l.e, env)])
  {
    hide Eval;
    var env := TurnEnv(layer, lane, s, t);
    assert [l][1..] == [];
    assert Bind([l], env) == env[l.x := Eval(l.e, env)];
  }

  lemma EvalRow(env: Env, offset: nat, lane: string, width: nat)
    requires lane in env
    ensures Eval(Row(offset, lane, width), env) == offset + env[lane] * width
  {
    assert Eval(Mul(Var(lane), Num(width)), env) == env[lane] * width;
  }

  lemma EvalSum(env: Env, l: Index, r: Index)
    ensures Eval(Add(l, r), env) == Eval(l, env) + Eval(r, env)
    ensures Eval(Mul(l, r), env) == Eval(l, env) * Eval(r, env)
  {}

  lemma EvalLeaves(env: Env)
    ensures forall x | x in env :: Eval(Var(x), env) == env[x]
    ensures forall n :: Eval(Num(n), env) == n
  {}

  lemma EvalHalves(env: Env, base: string, counter: string, rows: nat)
    requires base in env && counter in env
    ensures Eval(Plus(base, counter), env) == env[base] + env[counter]
    ensures Eval(PlusHalf(base, counter), env) == env[base] + 32 + env[counter]
    ensures Eval(Strided(base, counter, rows), env) == env[base] + env[counter] * rows
    ensures Eval(StridedHalf(base, counter, rows), env) == env[base] + (32 + env[counter]) * rows
  {
    hide Eval;
    EvalLeaves(env);
    var b, c, n := Var(base), Var(counter), Num(rows);
    EvalSum(env, b, c); EvalSum(env, b, Num(32)); EvalSum(env, Add(b, Num(32)), c);
    EvalSum(env, c, n); EvalSum(env, b, Mul(c, n));
    EvalSum(env, Num(32), c); EvalSum(env, Add(Num(32), c), n); EvalSum(env, b, Mul(Add(Num(32), c), n));
  }

  lemma DirectReads(region: nat, offset: nat, lane: string, lanes: nat, counter: string, width: nat, row: nat)
    requires lane != counter && row < lanes
    ensures var e := Direct(region, offset, lane, lanes, counter, width);
            ReadsRow(Region(offset, lanes, width), e.layer, RewriteLayer(e.layer, e.rules), row)
  {
    hide Eval, Position, SameCell, RewriteLayer;
    var e, g := Direct(region, offset, lane, lanes, counter, width), Region(offset, lanes, width);
    RewriteDirect(region, offset, lane, lanes, counter, width);
    var moved := RewriteLayer(e.layer, e.rules);
    forall t | 0 <= t < width
      ensures SameCell(g, row, Position(e.layer, row, 0, t, 0), Position(moved, row, 0, t, 0))
    {
      var env := TurnEnv(e.layer, row, 0, t);
      PositionPlain(e.layer, row, 0, t, 0); PositionPlain(moved, row, 0, t, 0);
      EvalLeaves(env); EvalRow(env, offset, lane, width); EvalRow(env, offset, counter, lanes);
      EvalSum(env, Row(offset, lane, width), Var(counter));
      EvalSum(env, Row(offset, counter, lanes), Var(lane));
      CellHere(g, row, t, Position(e.layer, row, 0, t, 0), Position(moved, row, 0, t, 0));
    }
  }

  lemma HalvesReads(whole: bool, region: nat, offset: nat, base: string, lane: string, lanes: nat, counter: string,
                    row: nat)
    requires base != lane && base != counter && lane != counter && row < lanes
    ensures var e := Halves(whole, region, offset, base, lane, lanes, counter);
            ReadsRow(Region(offset, lanes, 64), e.layer, RewriteLayer(e.layer, e.rules), row)
  {
    hide Position, SameCell, RewriteLayer;
    var e, g := Halves(whole, region, offset, base, lane, lanes, counter), Region(offset, lanes, 64);
    RewriteHalves(whole, region, offset, base, lane, lanes, counter);
    var moved := RewriteLayer(e.layer, e.rules);
    forall t, j | 0 <= t < 32 && 0 <= j < 2
      ensures SameCell(g, row, Position(e.layer, row, 0, t, j), Position(moved, row, 0, t, j))
    {
      HalvesCell(g, e.layer, moved, base, counter, row, t, j);
    }
  }

  /** One of the two reads of a turn, at base and at base + 32. */
  lemma HalvesCell(g: Region, layer: Layer, moved: Layer, base: string, counter: string, row: nat, t: nat, j: nat)
    requires |layer.stages| >= 1 && |moved.stages| >= 1 && layer.lane == moved.lane
    requires layer.stages[0] == Stage([Let(base, Row(g.offset, layer.lane, g.columns))], counter, 32,
                                      [Plus(base, counter), PlusHalf(base, counter)])
    requires moved.stages[0] == MovedHalves(g.offset, base, layer.lane, g.rows, counter)
    requires base != layer.lane && base != counter && layer.lane != counter && g.columns >= 64
    requires t < 32 && j < 2
    ensures SameCell(g, row, Position(layer, row, 0, t, j), Position(moved, row, 0, t, j))
  {
    hide Eval, Position, SameCell, Row, Plus, PlusHalf, Strided, StridedHalf;
    var env := TurnEnv(layer, row, 0, t);
    var before, after := layer.stages[0].lets[0], moved.stages[0].lets[0];
    PositionBound(layer, row, 0, t, j, before); PositionBound(moved, row, 0, t, j, after);
    EvalLeaves(env); EvalRow(env, g.offset, layer.lane, g.columns); EvalSum(env, Num(g.offset), Var(layer.lane));
    EvalHalves(env[base := g.offset + row * g.columns], base, counter, g.rows);
    EvalHalves(env[base := g.offset + row], base, counter, g.rows);
    CellHere(g, row, if j == 0 then t else 32 + t, Position(layer, row, 0, t, j), Position(moved, row, 0, t, j));
  }

  lemma HiddenReads(whole: bool, base: string, lane: string, counter: string, extra: string, gate: string, row: nat)
    requires base != lane && base != counter && lane != counter
    requires extra != lane && extra != gate && extra != base && gate != lane && row < 72
    ensures var e := Hidden(whole, base, lane, counter, extra, gate);
            ReadsRow(REGIONS[4], e.layer, RewriteLayer(e.layer, e.rules), row)
  {
    hide Position, SameCell, RewriteLayer, Eval;
    var e, g := Hidden(whole, base, lane, counter, extra, gate), REGIONS[4];
    RewriteHidden(whole, base, lane, counter, extra, gate);
    var moved := RewriteLayer(e.layer, e.rules);
    forall t, j | 0 <= t < 32 && 0 <= j < 2
      ensures SameCell(g, row, Position(e.layer, row, 0, t, j), Position(moved, row, 0, t, j))
    {
      HalvesCell(g, e.layer, moved, base, counter, row, t, j);
    }
    forall t | 0 <= t < 16
      ensures SameCell(g, row, Position(e.layer, row, 1, t, 0), Position(moved, row, 1, t, 0))
    {
      GateCell(e.layer, moved, extra, gate, row, t);
    }
  }

  lemma GateCell(layer: Layer, moved: Layer, extra: string, gate: string, row: nat, t: nat)
    requires |layer.stages| == |moved.stages| == 2 && layer.lane == moved.lane && row < 72 && t < 16
    requires layer.stages[1] == Stage([Let(extra, GateBase(Row(29640, layer.lane, 80)))], gate, 16, [Plus(extra, gate)])
    requires moved.stages[1] == MovedGates(layer.lane, extra, gate)
    requires extra != layer.lane && extra != gate && gate != layer.lane
    ensures SameCell(REGIONS[4], row, Position(layer, row, 1, t, 0), Position(moved, row, 1, t, 0))
  {
    hide Position, SameCell, Eval, Row, Plus, Strided;
    var env, g := TurnEnv(layer, row, 1, t), REGIONS[4];
    var before, after := layer.stages[1].lets[0], moved.stages[1].lets[0];
    PositionBound(layer, row, 1, t, 0, before); PositionBound(moved, row, 1, t, 0, after);
    EvalLeaves(env); EvalRow(env, 29640, layer.lane, 80); EvalSum(env, Row(29640, layer.lane, 80), Num(64));
    EvalSum(env, Num(29640), Var(layer.lane)); EvalSum(env, Num(64), Num(72));
    EvalSum(env, Add(Num(29640), Var(layer.lane)), Mul(Num(64), Num(72)));
    EvalHalves(env[extra := 29640 + row * 80 + 64], extra, gate, 72);
    EvalHalves(env[extra := 29640 + row + 64 * 72], extra, gate, 72);
    CellHere(g, row, 64 + t, Position(layer, row, 1, t, 0), Position(moved, row, 1, t, 0));
  }

  // ---------- the script's two outputs agree ----------

  lemma RegionsFit()
    ensures Disjoint(REGIONS) && InRange(REGIONS, 41321)
  {}

  lemma EntryReads(i: nat, row: nat)
    requires i < |Entries()| && row < Entries()[i].lanes
    ensures var e := Entries()[i];
            && e.region < |REGIONS| && e.lanes == REGIONS[e.region].rows
            && ReadsRow(REGIONS[e.region], e.layer, RewriteLayer(e.layer, e.rules), row)
  {
    hide ReadsRow, RewriteLayer;
    match i
    case 0 => DirectReads(0, 37129, "Ba", 32, "Z", 32, row);
    case 1 => DirectReads(1, 38185, "Ba", 32, "Z", 32, row);
    case 2 => HalvesReads(true, 2, 39241, "Tc", "k", 32, "la", row);
    case 3 => HalvesReads(true, 3, 35865, "yd", "ra", 16, "U", row);
    case 4 => HiddenReads(true, "zd", "V", "W", "ue", "cb", row);
    case 5 => DirectReads(5, 25920, "sa", 9, "db", 72, row);
    case 6 => HalvesReads(false, 2, 39241, "weight", "k", 32, "channel", row);
    case 7 => HalvesReads(false, 3, 35865, "weight", "gate", 16, "channel", row);
    case 8 => HiddenReads(false, "weight", "hidden", "channel", "extra", "gate", row);
    case _ => DirectReads(5, 25920, "label", 9, "hidden", 72, row);
  }

  /** Every dense layer, with its rewritten expressions on the transposed weights, computes what it
      computed with the original ones, whatever one accumulation step does. */
  lemma RewrittenLayersAgree<W(!new), A>(words: seq<W>, result: seq<W>, outside: W, i: nat, lane: nat,
                                         step: Step<W, A>, start: A)
    requires |words| == 41321 && Transposed(REGIONS, words, result)
    requires i < |Entries()| && lane < Entries()[i].lanes
    ensures var e := Entries()[i];
            var before := (p: nat) => if p < |words| then words[p] else outside;
            var after := (p: nat) => if p < |result| then result[p] else outside;
            Run(RewriteLayer(e.layer, e.rules), after, lane, 0, step, start) ==
              Run(e.layer, before, lane, 0, step, start)
  {
    hide ReadsRow, RewriteLayer, Run, Entries, Source, Disjoint;
    EntryReads(i, lane);
    RegionsFit();
    var e := Entries()[i];
    var g := REGIONS[e.region];
    var before := (p: nat) => if p < |words| then words[p] else outside;
    var after := (p: nat) => if p < |result| then result[p] else outside;
    forall b, a | SameCell(g, lane, b, a) ensures after(a) == before(b) {
      var column: nat :| column < g.columns && b == g.offset + lane * g.columns + column &&
          a == g.offset + column * g.rows + lane;
      SourceAt(REGIONS, e.region, lane, column);
    }
    LayerSame(g, e.layer, RewriteLayer(e.layer, e.rules), before, after, lane, step, start);
  }

  lemma LayerSame<W, A>(g: Region, layer: Layer, moved: Layer, words: nat -> W, transposed: nat -> W,
                        lane: nat, step: Step<W, A>, acc: A)
    requires ReadsRow(g, layer, moved, lane)
    requires forall before, after | SameCell(g, lane, before, after) :: transposed(after) == words(before)
    ensures Run(moved, transposed, lane, 0, step, acc) == Run(layer, words, lane, 0, step, acc)
  {
    LayerAgrees(g, layer, moved, words, transposed, lane, 0, step, acc);
  }

  /** Biases, embeddings and all other weights the shader reads with unchanged expressions. */
  lemma OtherWeightsStay<W>(words: seq<W>, result: seq<W>, p: nat)
    requires |words| == 41321 && Transposed(REGIONS, words, result)
    requires p < 25920 || 26568 <= p < 29640 || 35400 <= p < 35865 || 36889 <= p < 37129 || 38153 <= p < 38185
             || 39209 <= p < 39241 || 41289 <= p < 41321
    ensures result[p] == words[p]
  {
    SourceOutside(REGIONS, p);
  }
}
