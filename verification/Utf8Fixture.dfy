/** The exact-size fixtures of benchmarks/gpu-lexer/make-sweep.py: a UTF-8 source is cut to a number of
    bytes, decoded without its damaged end, and padded with spaces. UTF-8 is that of RFC 3629. */
module Utf8Fixture {
  import opened Bytes

  predicate IsScalar(c: nat) { c < 0xd800 || 0xe000 <= c <= 0x10ffff }

  type Scalar = c: nat | IsScalar(c)

  /** Section 3 of RFC 3629. */
  function Encode(c: Scalar): (b: seq<byte>)
    ensures 1 <= |b| <= 4
  {
    var q1 := c / 64;
    var q2 := q1 / 64;
    var q3 := q2 / 64;
    assert IsScalar(c);
    assert q1 <= 17407 && q2 <= 271 && q3 <= 4;
    if c < 0x80 then [c]
    else if c < 0x800 then [0xc0 + q1, 0x80 + c % 64]
    else if c < 0x10000 then [0xe0 + q2, 0x80 + q1 % 64, 0x80 + c % 64]
    else [0xf0 + q3, 0x80 + q2 % 64, 0x80 + q1 % 64, 0x80 + c % 64]
  }

  function EncodeAll(text: seq<Scalar>): seq<byte> {
    if text == [] then [] else Encode(text[0]) + EncodeAll(text[1..])
  }

  predicate Tail(b: byte) { 0x80 <= b <= 0xbf }

  /** The length of the character at the front, by the syntax in section 4 of RFC 3629; 0 if there is none. */
  function FirstLength(b: seq<byte>): (n: nat)
    ensures n <= |b| && n <= 4
  {
    if b == [] then 0
    else if b[0] <= 0x7f then 1
    else if 0xc2 <= b[0] <= 0xdf && |b| >= 2 && Tail(b[1]) then 2
    else if 0xe0 <= b[0] <= 0xef && |b| >= 3 && Tail(b[1]) && Tail(b[2])
            && (b[0] == 0xe0 ==> b[1] >= 0xa0) && (b[0] == 0xed ==> b[1] <= 0x9f) then 3
    else if 0xf0 <= b[0] <= 0xf4 && |b| >= 4 && Tail(b[1]) && Tail(b[2]) && Tail(b[3])
            && (b[0] == 0xf0 ==> b[1] >= 0x90) && (b[0] == 0xf4 ==> b[1] <= 0x8f) then 4
    else 0
  }

  function First(b: seq<byte>): (c: Scalar)
    requires FirstLength(b) > 0
  {
    var n := FirstLength(b);
    if n == 1 then b[0]
    else if n == 2 then Digit(b[0] as int - 0xc0, b[1])
    else if n == 3 then Digit(Digit(b[0] as int - 0xe0, b[1]), b[2])
    else Digit(Digit(Digit(b[0] as int - 0xf0, b[1]), b[2]), b[3])
  }

  /** One more base-64 digit. */
  function Digit(high: int, tail: byte): int { high * 64 + (tail as int - 0x80) }

  /** `decode('utf-8', errors='ignore')`: bytes that start no character are dropped. Dropping them one
      by one is dropping them in the groups Python forms, whose later bytes start no character either. */
  function DecodeIgnore(b: seq<byte>): seq<Scalar> {
    if b == [] then []
    else if FirstLength(b) > 0 then [First(b)] + DecodeIgnore(b[FirstLength(b)..])
    else DecodeIgnore(b[1..])
  }

  predicate Valid(b: seq<byte>) {
    b == [] || (FirstLength(b) > 0 && Valid(b[FirstLength(b)..]))
  }

  // ---------- one character ----------

  lemma SplitDigit(high: int, tail: byte)
    requires Tail(tail) && high >= 0
    ensures Digit(high, tail) / 64 == high && 0x80 + Digit(high, tail) % 64 == tail as int
  {}

  lemma FirstEncoded(b: seq<byte>)
    requires FirstLength(b) > 0
    ensures Encode(First(b)) == b[..FirstLength(b)]
  {
    hide Digit;
    var n := FirstLength(b);
    if n == 2 {
      SplitDigit(b[0] as int - 0xc0, b[1]);
    } else if n == 3 {
      SplitDigit(b[0] as int - 0xe0, b[1]);
      SplitDigit(Digit(b[0] as int - 0xe0, b[1]), b[2]);
    } else if n == 4 {
      SplitDigit(b[0] as int - 0xf0, b[1]);
      SplitDigit(Digit(b[0] as int - 0xf0, b[1]), b[2]);
      SplitDigit(Digit(Digit(b[0] as int - 0xf0, b[1]), b[2]), b[3]);
    }
  }

  lemma EncodedFirst(c: Scalar, rest: seq<byte>)
    ensures FirstLength(Encode(c) + rest) == |Encode(c)| && First(Encode(c) + rest) == c
  {
    var b := Encode(c) + rest;
    assert IsScalar(c) && b[0] == Encode(c)[0];
    var q1 := c / 64;
    var q2 := q1 / 64;
    var q3 := q2 / 64;
    assert c == 64 * q1 + c % 64 && q1 == 64 * q2 + q1 % 64 && q2 == 64 * q3 + q2 % 64;
    if c >= 0x80 {
      assert b[1] == Encode(c)[1];
      if c >= 0x800 {
        assert b[2] == Encode(c)[2];
        if c >= 0x10000 { assert b[3] == Encode(c)[3]; }
      }
    }
  }

  // ---------- texts ----------

  lemma {:induction false} EncodedValid(text: seq<Scalar>)
    ensures Valid(EncodeAll(text)) && DecodeIgnore(EncodeAll(text)) == text
  {
    if text != [] {
      var rest := EncodeAll(text[1..]);
      EncodedFirst(text[0], rest);
      assert (Encode(text[0]) + rest)[|Encode(text[0])|..] == rest;
      EncodedValid(text[1..]);
    }
  }

  lemma {:induction false} ValidDecodes(b: seq<byte>)
    requires Valid(b)
    ensures EncodeAll(DecodeIgnore(b)) == b
  {
    if b != [] {
      FirstEncoded(b);
      ValidDecodes(b[FirstLength(b)..]);
      assert b == b[..FirstLength(b)] + b[FirstLength(b)..];
    }
  }

  lemma {:induction false} EncodeConcat(a: seq<Scalar>, b: seq<Scalar>)
    ensures EncodeAll(a + b) == EncodeAll(a) + EncodeAll(b)
  {
    if a == [] {
      assert a + b == b;
    } else {
      assert (a + b)[1..] == a[1..] + b;
      EncodeConcat(a[1..], b);
    }
  }

  lemma {:induction false} DecodedShorter(b: seq<byte>)
    ensures |EncodeAll(DecodeIgnore(b))| <= |b|
  {
    if b != [] {
      if FirstLength(b) > 0 {
        FirstEncoded(b);
        DecodedShorter(b[FirstLength(b)..]);
      } else {
        DecodedShorter(b[1..]);
      }
    }
  }

  // ---------- the fixture ----------

  function Cut(source: seq<byte>, size: nat): seq<byte> {
    if size <= |source| then source[..size] else source
  }

  function Spaces(n: nat): (s: seq<Scalar>)
    ensures |s| == n && forall i | 0 <= i < n :: s[i] == 32
  {
    seq(n, _ => 32)
  }

  datatype Row = Row(source: int, size: nat, padding: nat, bytes: seq<byte>)

  function Padding(source: seq<byte>, size: nat): nat {
    DecodedShorter(Cut(source, size));
    size - |EncodeAll(DecodeIgnore(Cut(source, size)))|
  }

  function Fixture(source: seq<byte>, size: nat): seq<byte> {
    EncodeAll(DecodeIgnore(Cut(source, size)) + Spaces(Padding(source, size)))
  }

  function Size(i: nat): nat {
    if i == 0 then 8 else 2 * Size(i - 1)
  }

  function RowOf(sources: seq<seq<byte>>, j: nat, size: nat): Row
    requires j < |sources|
  {
    Row(j, size, Padding(sources[j], size), Fixture(sources[j], size))
  }

  /** All sources cut to one size. */
  function SizeRows(sources: seq<seq<byte>>, size: nat): seq<Row> {
    seq(|sources|, j requires 0 <= j < |sources| => RowOf(sources, j, size))
  }

  /** The first `i` sizes. */
  function Rows(sources: seq<seq<byte>>, i: nat): seq<Row> {
    if i == 0 then [] else Rows(sources, i - 1) + SizeRows(sources, Size(i - 1))
  }

  /** The script's loops: the sizes 8 to 8192, and for each size all sources. */
  method MakeSweep(sources: seq<seq<byte>>) returns (rows: seq<Row>)
    ensures rows == Rows(sources, 11)
  {
    hide DecodeIgnore, EncodeAll;
    rows := [];
    var size := 8;
    for i := 0 to 11
      invariant size == Size(i) && rows == Rows(sources, i)
    {
      for name := 0 to |sources|
        invariant rows == Rows(sources, i) + SizeRows(sources, size)[..name]
      {
        var raw := Cut(sources[name], size);
        var text := DecodeIgnore(raw);
        DecodedShorter(raw);
        var padding := size - |EncodeAll(text)|;
        text := text + Spaces(padding);
        rows := rows + [Row(name, size, padding, EncodeAll(text))];
      }
      size := 2 * size;
    }
  }

  // ---------- what a fixture is ----------

  lemma {:induction false} SpacesEncoded(n: nat)
    ensures |EncodeAll(Spaces(n))| == n
  {
    if n > 0 {
      assert Spaces(n)[1..] == Spaces(n - 1);
      SpacesEncoded(n - 1);
    }
  }

  /** Whatever the source holds, the fixture is valid UTF-8 of exactly the size asked for. */
  lemma FixtureExact(source: seq<byte>, size: nat)
    ensures Valid(Fixture(source, size)) && |Fixture(source, size)| == size
  {
    var text, spaces := DecodeIgnore(Cut(source, size)), Spaces(Padding(source, size));
    EncodedValid(text + spaces);
    EncodeConcat(text, spaces);
    SpacesEncoded(Padding(source, size));
  }

  /** `k` is the longest front part of at most `size` bytes that ends between characters. */
  ghost predicate LongestWhole(source: seq<byte>, size: nat, k: nat) {
    && k <= |source| && k <= size && Valid(source[..k])
    && forall m | k < m <= size && m <= |source| :: !Valid(source[..m])
  }

  /** The beginning of a character that is cut off starts no character and contains none. */
  lemma CutCharacter(b: seq<byte>, size: nat)
    requires FirstLength(b) > size
    ensures DecodeIgnore(b[..size]) == [] && (size > 0 ==> !Valid(b[..size]))
  {
    var cut := b[..size];
    assert forall i | 0 <= i < size :: cut[i] == b[i];
    if size > 0 {
      assert FirstLength(cut) == 0;
      TailsDropped(cut[1..]);
    }
  }

  lemma {:induction false} TailsDropped(b: seq<byte>)
    requires forall i | 0 <= i < |b| :: Tail(b[i])
    ensures DecodeIgnore(b) == []
  {
    if b != [] { TailsDropped(b[1..]); }
  }

  /** The length of that front part. */
  function WholePart(source: seq<byte>, size: nat): (k: nat)
    ensures k <= size && k <= |source|
  {
    var n := FirstLength(source);
    if n == 0 || n > size then 0 else n + WholePart(source[n..], size - n)
  }

  lemma {:induction false} WholePartLongest(source: seq<byte>, size: nat)
    requires Valid(source)
    ensures LongestWhole(source, size, WholePart(source, size))
    ensures EncodeAll(DecodeIgnore(Cut(source, size))) == source[..WholePart(source, size)]
    ensures size <= |source| ==> size - WholePart(source, size) <= 3
    decreases |source|
  {
    hide LongestWhole, DecodeIgnore, EncodeAll, FirstLength, Valid, WholePart, Cut;
    var n := FirstLength(source);
    WholeStep(source, size);
    if source == [] {
      NothingLongest(size);
    } else if n > size {
      CutLongest(source, size);
    } else {
      var rest, k := source[n..], WholePart(source[n..], size - n);
      WholePartLongest(rest, size - n);
      FrontKept(source, size);
      LongestBehind(source, size, k);
      assert source[..n + k] == source[..n] + rest[..k];
    }
  }

  lemma WholeStep(source: seq<byte>, size: nat)
    requires Valid(source)
    ensures var n := FirstLength(source);
            && (source != [] ==> n > 0 && Valid(source[n..]))
            && WholePart(source, size) == if n == 0 || n > size then 0 else n + WholePart(source[n..], size - n)
  {
    hide FirstLength;
  }

  lemma NothingLongest(size: nat)
    ensures WholePart([], size) == 0 && LongestWhole([], size, 0) && EncodeAll(DecodeIgnore(Cut([], size))) == []
  {
    assert Cut([], size) == [];
  }

  lemma CutLongest(source: seq<byte>, size: nat)
    requires FirstLength(source) > size
    ensures LongestWhole(source, size, 0) && EncodeAll(DecodeIgnore(Cut(source, size))) == [] && size <= 3
  {
    CutCharacter(source, size);
    forall m | 0 < m <= size ensures !Valid(source[..m]) { CutCharacter(source, m); }
    assert DecodeIgnore(source[..size]) == [];
  }

  lemma LongestBehind(source: seq<byte>, size: nat, k: nat)
    requires 0 < FirstLength(source) <= size &&
             LongestWhole(source[FirstLength(source)..], size - FirstLength(source), k)
    ensures LongestWhole(source, size, FirstLength(source) + k)
  {
    hide FirstLength, Valid;
    var n := FirstLength(source);
    forall m | n <= m <= |source| ensures Valid(source[..m]) == Valid(source[n..][..m - n]) { FrontValid(source, m); }
  }

  lemma FirstLocal(b: seq<byte>, m: nat)
    requires 0 < FirstLength(b) <= m <= |b|
    ensures FirstLength(b[..m]) == FirstLength(b) && First(b[..m]) == First(b)
  {}

  lemma FrontValid(b: seq<byte>, m: nat)
    requires 0 < FirstLength(b) <= m <= |b|
    ensures Valid(b[..m]) == Valid(b[FirstLength(b)..][..m - FirstLength(b)])
  {
    FirstLocal(b, m);
    assert b[..m][FirstLength(b)..] == b[FirstLength(b)..][..m - FirstLength(b)];
  }

  lemma FrontKept(b: seq<byte>, size: nat)
    requires 0 < FirstLength(b) <= size
    ensures var n := FirstLength(b);
            EncodeAll(DecodeIgnore(Cut(b, size))) == b[..n] + EncodeAll(DecodeIgnore(Cut(b[n..], size - n)))
  {
    var n, cut := FirstLength(b), Cut(b, size);
    assert cut == b[..|cut|];
    FirstLocal(b, |cut|);
    FirstEncoded(b);
    assert cut[n..] == Cut(b[n..], size - n);
  }

  /** For a valid source the unpadded part is the longest whole-character front part that fits, and at
      most three spaces are added when the source is long enough. */
  lemma FixtureKeepsPrefix(source: seq<byte>, size: nat)
    requires Valid(source)
    ensures var k := WholePart(source, size);
            && LongestWhole(source, size, k)
            && Fixture(source, size) == source[..k] + EncodeAll(Spaces(size - k))
            && (size <= |source| ==> size - k <= 3)
  {
    WholePartLongest(source, size);
    EncodeConcat(DecodeIgnore(Cut(source, size)), Spaces(Padding(source, size)));
  }

  // ---------- in plain numbers ----------

  /** The characters are 0 to 1114111 without the 2048 surrogates. */
  lemma ScalarSpelled(c: nat)
    ensures IsScalar(c) <==> c <= 1114111 && c / 2048 != 27
  {}

  /** Section 3 of RFC 3629 by the value of the bytes: how many a character takes, which range each lies
      in, and that the bits behind the marks are the character's. */
  lemma EncodeSpelled(c: Scalar)
    ensures var b := Encode(c);
            if c < 128 then b == [c]
            else if c < 2048 then
              && |b| == 2 && 192 <= b[0] < 224 && 128 <= b[1] < 192
              && c == 64 * (b[0] as int - 192) + (b[1] as int - 128)
            else if c < 65536 then
              && |b| == 3 && 224 <= b[0] < 240 && 128 <= b[1] < 192 && 128 <= b[2] < 192
              && c == 4096 * (b[0] as int - 224) + 64 * (b[1] as int - 128) + (b[2] as int - 128)
            else
              && |b| == 4 && 240 <= b[0] < 248 && 128 <= b[1] < 192 && 128 <= b[2] < 192 && 128 <= b[3] < 192
              && c == 262144 * (b[0] as int - 240) + 4096 * (b[1] as int - 128) + 64 * (b[2] as int - 128)
                      + (b[3] as int - 128)
  {
    var q1 := c / 64;
    var q2 := q1 / 64;
    var q3 := q2 / 64;
    assert IsScalar(c);
    assert c == 64 * q1 + c % 64 && q1 == 64 * q2 + q1 % 64 && q2 == 64 * q3 + q2 % 64;
  }

  lemma {:induction false} TextKept(text: seq<Scalar>, rest: seq<byte>)
    ensures DecodeIgnore(EncodeAll(text) + rest) == text + DecodeIgnore(rest)
  {
    if text == [] {
      assert EncodeAll(text) + rest == rest;
    } else {
      var behind := EncodeAll(text[1..]) + rest;
      assert EncodeAll(text) + rest == Encode(text[0]) + behind;
      EncodedFirst(text[0], behind);
      assert (Encode(text[0]) + behind)[|Encode(text[0])|..] == behind;
      TextKept(text[1..], rest);
    }
  }

  /** A byte that can start no character is dropped, and what stands around it is read as if it were
      not there. */
  lemma StrayDropped(text: seq<Scalar>, stray: byte, rest: seq<byte>)
    requires 128 <= stray < 194 || stray >= 245
    ensures DecodeIgnore(EncodeAll(text) + [stray] + rest) == text + DecodeIgnore(rest)
  {
    hide EncodeAll;
    var b := [stray] + rest;
    TextKept(text, b);
    assert EncodeAll(text) + [stray] + rest == EncodeAll(text) + b;
    assert FirstLength(b) == 0 && b[1..] == rest;
  }

  /** So is the front of a character whose later bytes are missing, whatever starts behind it. */
  lemma FrontDropped(text: seq<Scalar>, c: Scalar, m: nat, rest: seq<byte>)
    requires 0 < m < |Encode(c)| && (rest == [] || rest[0] < 128 || rest[0] >= 192)
    ensures DecodeIgnore(EncodeAll(text) + Encode(c)[..m] + rest) == text + DecodeIgnore(rest)
  {
    hide EncodeAll, DecodeIgnore;
    var b := Encode(c)[..m] + rest;
    TextKept(text, b);
    assert EncodeAll(text) + Encode(c)[..m] + rest == EncodeAll(text) + b;
    FrontStops(c, m, rest);
    FirstDropped(b);
    assert b[1..] == Encode(c)[1..m] + rest;
    TailsSkipped(Encode(c)[1..m], rest);
  }

  lemma FirstDropped(b: seq<byte>)
    requires b != [] && FirstLength(b) == 0
    ensures DecodeIgnore(b) == DecodeIgnore(b[1..])
  {}

  lemma FrontStops(c: Scalar, m: nat, rest: seq<byte>)
    requires 0 < m < |Encode(c)| && (rest == [] || rest[0] < 128 || rest[0] >= 192)
    ensures FirstLength(Encode(c)[..m] + rest) == 0
    ensures forall i | 1 <= i < m :: Tail(Encode(c)[i])
  {
    var b := Encode(c)[..m] + rest;
    EncodeSpelled(c);
    assert b[0] == Encode(c)[0];
    if |b| > m { assert b[m] == rest[0]; }
  }

  lemma {:induction false} TailsSkipped(tails: seq<byte>, rest: seq<byte>)
    requires forall i | 0 <= i < |tails| :: Tail(tails[i])
    ensures DecodeIgnore(tails + rest) == DecodeIgnore(rest)
  {
    if tails == [] {
      assert tails + rest == rest;
    } else {
      assert (tails + rest)[1..] == tails[1..] + rest;
      TailsSkipped(tails[1..], rest);
    }
  }

  lemma {:induction false} SpaceBytes(n: nat, k: nat)
    requires k < n
    ensures |EncodeAll(Spaces(n))| == n && EncodeAll(Spaces(n))[k] == 32
  {
    SpacesEncoded(n);
    assert Spaces(n)[1..] == Spaces(n - 1);
    assert EncodeAll(Spaces(n)) == [32] + EncodeAll(Spaces(n - 1));
    if k > 0 { SpaceBytes(n - 1, k - 1); }
  }

  /** For any source: what can be decoded of the first `size` bytes, encoded again, and spaces. */
  lemma FixtureSpelled(source: seq<byte>, size: nat)
    ensures var kept := EncodeAll(DecodeIgnore(if size <= |source| then source[..size] else source));
            && |kept| + Padding(source, size) == size && |Fixture(source, size)| == size
            && Fixture(source, size)[..|kept|] == kept
            && forall k | |kept| <= k < size :: Fixture(source, size)[k] == 32
  {
    hide DecodeIgnore;
    var text, n := DecodeIgnore(Cut(source, size)), Padding(source, size);
    var kept := EncodeAll(text);
    DecodedShorter(Cut(source, size));
    EncodeConcat(text, Spaces(n));
    SpacesEncoded(n);
    forall k | |kept| <= k < size ensures Fixture(source, size)[k] == 32 { SpaceBytes(n, k - |kept|); }
  }

  lemma {:induction false} RowsPlace(sources: seq<seq<byte>>, n: nat, i: nat, j: nat)
    requires i < n && j < |sources|
    ensures |Rows(sources, n)| == n * |sources| && i * |sources| + j < n * |sources|
    ensures Rows(sources, n)[i * |sources| + j] == RowOf(sources, j, Size(i))
    decreases n
  {
    hide RowOf, Size;
    var before := Rows(sources, n - 1);
    RowsLength(sources, n - 1);
    assert n * |sources| == (n - 1) * |sources| + |sources|;
    if i < n - 1 {
      RowsPlace(sources, n - 1, i, j);
    }
  }

  lemma {:induction false} RowsLength(sources: seq<seq<byte>>, n: nat)
    ensures |Rows(sources, n)| == n * |sources|
  {
    hide RowOf, Size;
    if n > 0 {
      RowsLength(sources, n - 1);
      assert n * |sources| == (n - 1) * |sources| + |sources|;
    }
  }

  lemma SizeSpelled(i: nat)
    requires i < 11
    ensures Size(i) == [8, 16, 32, 64, 128, 256, 512, 1024, 2048, 4096, 8192][i]
  {
    assert Size(5) == 256;
  }

  /** The sweep row by row: eleven sizes, for each size every source in order, valid UTF-8 of that many
      bytes of which the padding is spaces, and in front of them the longest whole-character front part
      of a valid source. */
  lemma RowsSpelled(sources: seq<seq<byte>>, i: nat, j: nat)
    requires i < 11 && j < |sources|
    ensures |Rows(sources, 11)| == 11 * |sources| && i * |sources| + j < 11 * |sources|
    ensures var row := Rows(sources, 11)[i * |sources| + j];
            && row.source == j && row.size == [8, 16, 32, 64, 128, 256, 512, 1024, 2048, 4096, 8192][i]
            && |row.bytes| == row.size && Valid(row.bytes) && row.padding <= row.size
            && (forall k | row.size - row.padding <= k < row.size :: row.bytes[k] == 32)
            && (Valid(sources[j]) ==>
                  var kept := row.size - row.padding;
                  && kept <= |sources[j]| && row.bytes[..kept] == sources[j][..kept] && Valid(sources[j][..kept])
                  && forall m | kept < m <= row.size && m <= |sources[j]| :: !Valid(sources[j][..m]))
  {
    hide Rows, Valid, Fixture, Padding, Size, DecodeIgnore, EncodeAll;
    RowsPlace(sources, 11, i, j);
    RowsLength(sources, 11);
    SizeSpelled(i);
    var size := Size(i);
    FixtureExact(sources[j], size);
    FixtureSpelled(sources[j], size);
    if Valid(sources[j]) { KeptPrefix(sources[j], size); }
  }

  lemma KeptPrefix(source: seq<byte>, size: nat)
    requires Valid(source)
    ensures var kept := size - Padding(source, size);
            && 0 <= kept <= |source| && |Fixture(source, size)| == size && kept <= size
            && Fixture(source, size)[..kept] == source[..kept] && Valid(source[..kept])
            && forall m | kept < m <= size && m <= |source| :: !Valid(source[..m])
  {
    hide Valid, DecodeIgnore, EncodeAll, Fixture, WholePart, Cut;
    WholePartLongest(source, size);
    FixtureSpelled(source, size);
    CutPlain(source, size);
  }

  lemma CutPlain(source: seq<byte>, size: nat)
    ensures Cut(source, size) == if size <= |source| then source[..size] else source
    ensures Padding(source, size) == size - |EncodeAll(DecodeIgnore(Cut(source, size)))|
  {}
}
