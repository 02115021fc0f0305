/** The weight decoder of benchmarks/gpu-lexer/extract.py: one character per weight, scaled segment by
    segment, in exact arithmetic. */
module QuantizedWeights {
  import opened Slices

  /** `c - 71 if c >= 97 else ...` */
  function Code(ch: char): int {
    var c := ch as int;
    if c >= 97 then c - 71 else if c >= 65 then c - 65 else if c >= 48 then c + 4 else if c == 45 then 62 else 63
  }

  /** Odd codes are negative levels. */
  function Level(ch: char): int {
    var v := Code(ch);
    if v % 2 == 1 then -((v + 1) / 2) else v / 2
  }

  /** A segment ends before position `end` of the encoded text and has its own scale. */
  datatype Segment = Segment(end: nat, scale: real)

  function Weight(level: int, scale: real): real { level as real * scale }

  function Scaled(text: string, scale: real): (s: seq<real>)
    ensures |s| == |text| && forall i | 0 <= i < |text| :: s[i] == Weight(Level(text[i]), scale)
  {
    seq(|text|, i requires 0 <= i < |text| => Weight(Level(text[i]), scale))
  }

  function DecodeFrom(encoded: string, start: nat, segments: seq<Segment>): seq<real>
    decreases |segments|
  {
    if segments == [] then []
    else Scaled(Slice(encoded, start, segments[0].end), segments[0].scale)
         + DecodeFrom(encoded, segments[0].end, segments[1..])
  }

  /** The script's loop over the segments. */
  method Decode(encoded: string, segments: seq<Segment>) returns (weights: seq<real>)
    ensures weights == DecodeFrom(encoded, 0, segments)
  {
    hide Level, Weight, DecodeFrom, Slice, Scaled;
    weights := [];
    var start := 0;
    assert segments[0..] == segments;
    for k := 0 to |segments|
      invariant weights + DecodeFrom(encoded, start, segments[k..]) == DecodeFrom(encoded, 0, segments)
    {
      var end, scale := segments[k].end, segments[k].scale;
      var part := Slice(encoded, start, end);
      ghost var before := weights;
      FirstSegment(encoded, start, segments[k..]);
      for i := 0 to |part|
        invariant weights == before + Scaled(part, scale)[..i]
      {
        weights := weights + [Weight(Level(part[i]), scale)];
      }
      assert segments[k..][1..] == segments[k + 1..];
      start := end;
    }
    FirstSegment(encoded, start, segments[|segments|..]);
  }

  lemma FirstSegment(encoded: string, start: nat, segments: seq<Segment>)
    ensures segments == [] ==> DecodeFrom(encoded, start, segments) == []
    ensures segments != [] ==>
              DecodeFrom(encoded, start, segments) ==
              Scaled(Slice(encoded, start, segments[0].end), segments[0].scale)
              + DecodeFrom(encoded, segments[0].end, segments[1..])
  {}

  // ---------- the alphabet ----------

  /** A-Z, a-z, 0-9, '-' and one other character below '0'. */
  predicate InAlphabet(ch: char, other: char) {
    'A' <= ch <= 'Z' || 'a' <= ch <= 'z' || '0' <= ch <= '9' || ch == '-' || ch == other
  }

  predicate GoodOther(other: char) { other < '0' && other != '-' }

  /** The character for a level. */
  function Encode(level: int, other: char): char
    requires -32 <= level < 32
  {
    var v := if level < 0 then -2 * level - 1 else 2 * level;
    if v < 26 then (v + 65) as char
    else if v < 52 then (v + 71) as char
    else if v < 62 then (v - 4) as char
    else if v == 62 then '-'
    else other
  }

  /** Characters of the alphabet and levels -32..31 correspond one to one. */
  lemma AlphabetBijective(other: char)
    requires GoodOther(other)
    ensures forall level | -32 <= level < 32 ::
            InAlphabet(Encode(level, other), other) && Level(Encode(level, other)) == level
    ensures forall ch | InAlphabet(ch, other) :: -32 <= Level(ch) < 32 && Encode(Level(ch), other) == ch
  {
    forall ch | InAlphabet(ch, other) ensures -32 <= Level(ch) < 32 && Encode(Level(ch), other) == ch {
      var v := Code(ch);
      assert 0 <= v < 64;
    }
  }

  // ---------- round trip ----------

  datatype Tensor = Tensor(levels: seq<int>, scale: real)

  ghost predicate Quantized(tensors: seq<Tensor>) {
    forall i, j | 0 <= i < |tensors| && 0 <= j < |tensors[i].levels| :: -32 <= tensors[i].levels[j] < 32
  }

  ghost function TensorText(t: Tensor, other: char): string
    requires Quantized([t])
  {
    assert [t][0] == t;
    seq(|t.levels|, j requires 0 <= j < |t.levels| => Encode([t][0].levels[j], other))
  }

  lemma QuantizedParts(tensors: seq<Tensor>)
    requires Quantized(tensors) && tensors != []
    ensures Quantized([tensors[0]]) && Quantized(tensors[1..])
  {}

  ghost function Text(tensors: seq<Tensor>, other: char): string
    requires Quantized(tensors)
  {
    if tensors == [] then ""
    else
      QuantizedParts(tensors);
      TensorText(tensors[0], other) + Text(tensors[1..], other)
  }

  /** The table of ends and scales, for a text that starts at `start`. */
  function Table(tensors: seq<Tensor>, start: nat): seq<Segment> {
    if tensors == [] then []
    else [Segment(start + |tensors[0].levels|, tensors[0].scale)] + Table(tensors[1..], start + |tensors[0].levels|)
  }

  function TensorWeights(t: Tensor): seq<real> {
    seq(|t.levels|, j requires 0 <= j < |t.levels| => Weight(t.levels[j], t.scale))
  }

  function Weights(tensors: seq<Tensor>): seq<real> {
    if tensors == [] then [] else TensorWeights(tensors[0]) + Weights(tensors[1..])
  }

  lemma TensorDecoded(t: Tensor, other: char)
    requires Quantized([t]) && GoodOther(other)
    ensures |TensorText(t, other)| == |t.levels| && Scaled(TensorText(t, other), t.scale) == TensorWeights(t)
  {
    hide Level, Encode, Weight;
    assert [t][0] == t;
    AlphabetBijective(other);
    assert forall j | 0 <= j < |t.levels| :: Level(TensorText(t, other)[j]) == t.levels[j];
  }

  lemma SlicePart(before: string, part: string, rest: string)
    ensures Slice(before + part + rest, |before|, |before| + |part|) == part
  {}

  /** Decoding the encoding of any tensors gives every level times its own tensor's scale. */
  lemma {:induction false} DecodeEncoded(tensors: seq<Tensor>, other: char, before: string)
    requires Quantized(tensors) && GoodOther(other)
    ensures DecodeFrom(before + Text(tensors, other), |before|, Table(tensors, |before|)) == Weights(tensors)
    decreases |tensors|
  {
    hide Scaled, Slice, TensorText, TensorWeights, Quantized, DecodeFrom, Text, Table, Weights;
    TableStep(tensors, |before|);
    TextStep(tensors, other);
    FirstSegment(before + Text(tensors, other), |before|, Table(tensors, |before|));
    if tensors != [] {
      var t := tensors[0];
      var part, rest := TensorText(t, other), Text(tensors[1..], other);
      TensorDecoded(t, other);
      SlicePart(before, part, rest);
      assert before + (part + rest) == before + part + rest;
      DecodeEncoded(tensors[1..], other, before + part);
    }
  }

  lemma TableStep(tensors: seq<Tensor>, start: nat)
    ensures var table := Table(tensors, start);
            if tensors == [] then table == [] && Weights(tensors) == []
            else
              var end := start + |tensors[0].levels|;
              && table != [] && table[0] == Segment(end, tensors[0].scale) && table[1..] == Table(tensors[1..], end)
              && Weights(tensors) == TensorWeights(tensors[0]) + Weights(tensors[1..])
  {}

  lemma TextStep(tensors: seq<Tensor>, other: char)
    requires Quantized(tensors)
    ensures tensors != [] ==> Quantized([tensors[0]]) && Quantized(tensors[1..])
    ensures Text(tensors, other) ==
            if tensors == [] then "" else TensorText(tensors[0], other) + Text(tensors[1..], other)
  {
    hide TensorText, Quantized;
    if tensors != [] { QuantizedParts(tensors); }
  }

  /** What each character stands for, by its code: the letters, digits and '-' are the codes 0 to 62,
      everything else is 63; even codes are 0, 1, 2, ..., odd ones -1, -2, .... */
  lemma LevelSpelled(ch: char)
    ensures var c := ch as int;
            && (c >= 97 && c % 2 == 0 ==> 2 * Level(ch) == 70 - c)
            && (c >= 97 && c % 2 == 1 ==> 2 * Level(ch) == c - 71)
            && (65 <= c < 97 && c % 2 == 1 ==> 2 * Level(ch) == c - 65)
            && (65 <= c < 97 && c % 2 == 0 ==> 2 * Level(ch) == 64 - c)
            && (48 <= c < 65 && c % 2 == 0 ==> 2 * Level(ch) == c + 4)
            && (48 <= c < 65 && c % 2 == 1 ==> 2 * Level(ch) == -(c + 5))
            && (c == 45 ==> Level(ch) == 31)
            && (c < 48 && c != 45 ==> Level(ch) == -32)
  {
    EvenOrOdd(ch as int);
  }

  lemma EvenOrOdd(c: int)
    ensures (c - 71) % 2 == (c + 1) % 2 && (c - 65) % 2 == (c + 1) % 2 && (c + 4) % 2 == c % 2
    ensures (c + 1) % 2 == 1 - c % 2
  {}

  /** The segment a position belongs to: the first that ends behind it. */
  ghost predicate Owns(segments: seq<Segment>, k: nat, p: nat)
    requires k < |segments|
  {
    p < segments[k].end && forall i | 0 <= i < k :: segments[i].end <= p
  }

  /** With ascending ends the weight at every position of the text is the level of the character
      there times the scale of the segment it belongs to. */
  lemma {:induction false} WeightSpelled(encoded: string, start: nat, segments: seq<Segment>, k: nat, p: nat)
    requires forall i | 0 <= i < |segments| :: start <= segments[i].end
    requires forall i, j | 0 <= i < j < |segments| :: segments[i].end <= segments[j].end
    requires k < |segments| && start <= p < |encoded| && Owns(segments, k, p)
    ensures var weights := DecodeFrom(encoded, start, segments);
            p - start < |weights| && weights[p - start] == Level(encoded[p]) as real * segments[k].scale
    decreases |segments|
  {
    hide Level, DecodeFrom, Owns, Slice, Scaled;
    FirstSegment(encoded, start, segments);
    if k == 0 {
      OwnPart(encoded, start, segments, p);
    } else {
      PartBefore(encoded, start, segments, k, p);
      WeightSpelled(encoded, segments[0].end, segments[1..], k - 1, p);
    }
  }

  lemma OwnPart(encoded: string, start: nat, segments: seq<Segment>, p: nat)
    requires segments != [] && start <= p < |encoded| && Owns(segments, 0, p)
    ensures var part := Scaled(Slice(encoded, start, segments[0].end), segments[0].scale);
            p - start < |part| && part[p - start] == Level(encoded[p]) as real * segments[0].scale
  {
    hide Level;
  }

  lemma PartBefore(encoded: string, start: nat, segments: seq<Segment>, k: nat, p: nat)
    requires 0 < k < |segments| && start <= segments[0].end && p < |encoded| && Owns(segments, k, p)
    ensures segments[0].end <= p && Owns(segments[1..], k - 1, p)
    ensures |Scaled(Slice(encoded, start, segments[0].end), segments[0].scale)| == segments[0].end - start
  {
    hide Level;
  }

  // ---------- how many weights ----------

  function LastEnd(start: nat, segments: seq<Segment>): nat
    decreases |segments|
  {
    if segments == [] then start else LastEnd(segments[0].end, segments[1..])
  }

  /** A position, or the end of a text of length `n`. */
  function Within(position: nat, n: nat): nat {
    if position < n then position else n
  }

  /** No segment ends before the one in front of it, as far as the text reaches. */
  ghost predicate Ascends(n: nat, start: nat, segments: seq<Segment>)
    decreases |segments|
  {
    segments == [] || (Within(start, n) <= Within(segments[0].end, n) && Ascends(n, segments[0].end, segments[1..]))
  }

  /** For any text and any table the decoder gives at least as many weights as the last end says, and
      exactly as many if and only if the ends ascend. */
  lemma {:induction false} LengthIsLastEnd(encoded: string, start: nat, segments: seq<Segment>)
    ensures var n, got := |encoded|, Within(start, |encoded|) + |DecodeFrom(encoded, start, segments)|;
            && got >= Within(LastEnd(start, segments), n)
            && (got == Within(LastEnd(start, segments), n) <==> Ascends(n, start, segments))
    decreases |segments|
  {
    if segments != [] {
      LengthIsLastEnd(encoded, segments[0].end, segments[1..]);
    }
  }
}
