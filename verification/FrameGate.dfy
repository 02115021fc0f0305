/** The frame gate of scripts/test-client-frame-budget.py: order statistics of measurements and the
    verdict on one measured case, in exact arithmetic. */
module FrameGate {
  import opened Outcomes

  /** A measurement as it stands in the report. */
  datatype Reading = Missing | Ms(v: real)

  /** One frame; `continuing` is missing when the report holds no boolean there. */
  datatype Frame = Frame(at: Reading, completedAt: Reading, cpuMs: Reading, continuing: Option<bool>)

  datatype Case = Case(name: string, frames: seq<Frame>)

  datatype Definition = Definition(budget: real, target: real)

  datatype Unverified = InvalidMeasurements | TooFewFrames | OutOfOrder | CompletionBeforeCpu | NoContinuity |
    NoInterval

  datatype Distribution = Distribution(count: nat, p50: real, p95: real, p99: real, max: real)

  datatype Report = Report(name: string, index: nat, firstFrame: real, cpu: Distribution, whole: Distribution,
                           intervals: Distribution, fps: real, overBudget: nat, slow: nat, passed: bool)

  // ---------- order statistics ----------

  function Insert(x: real, s: seq<real>): seq<real> {
    if s == [] || x <= s[0] then [x] + s else [s[0]] + Insert(x, s[1..])
  }

  function Sort(s: seq<real>): seq<real> {
    if s == [] then [] else Insert(s[0], Sort(s[1..]))
  }

  ghost predicate Ascending(s: seq<real>) {
    forall i, j | 0 <= i <= j < |s| :: s[i] <= s[j]
  }

  predicate Valid(readings: seq<Reading>) {
    readings != [] && forall i | 0 <= i < |readings| :: readings[i].Ms? && readings[i].v >= 0.0
  }

  function Numbers(readings: seq<Reading>): (s: seq<real>)
    requires Valid(readings)
    ensures |s| == |readings| && forall i | 0 <= i < |s| :: s[i] == readings[i].v
  {
    seq(|readings|, i requires 0 <= i < |readings| => readings[i].v)
  }

  /** The statistics of non-empty numbers. */
  function Statistics(s: seq<real>): Distribution
    requires s != []
  {
    SortLength(s);
    var n, sorted := |s|, Sort(s);
    Distribution(n, sorted[n / 2], sorted[n * 95 / 100], sorted[n * 99 / 100], sorted[n - 1])
  }

  function Distribute(readings: seq<Reading>): Result<Distribution, Unverified> {
    if Valid(readings) then Success(Statistics(Numbers(readings))) else Failure(InvalidMeasurements)
  }

  lemma {:induction false} InsertLength(x: real, s: seq<real>)
    ensures |Insert(x, s)| == |s| + 1 && multiset(Insert(x, s)) == multiset(s) + multiset{x}
  {
    if s != [] && x > s[0] {
      InsertLength(x, s[1..]);
      assert s == [s[0]] + s[1..];
    }
  }

  lemma {:induction false} SortLength(s: seq<real>)
    ensures |Sort(s)| == |s| && multiset(Sort(s)) == multiset(s)
  {
    if s != [] {
      SortLength(s[1..]);
      InsertLength(s[0], Sort(s[1..]));
      assert s == [s[0]] + s[1..];
    }
  }

  lemma {:induction false} InsertBound(x: real, s: seq<real>, low: real)
    requires low <= x && forall i | 0 <= i < |s| :: low <= s[i]
    ensures forall i | 0 <= i < |Insert(x, s)| :: low <= Insert(x, s)[i]
  {
    if s != [] && x > s[0] { InsertBound(x, s[1..], low); }
  }

  lemma AscendsBehind(low: real, s: seq<real>)
    requires Ascending(s) && forall i | 0 <= i < |s| :: low <= s[i]
    ensures Ascending([low] + s)
  {
    var all := [low] + s;
    forall i, j | 0 <= i <= j < |all| ensures all[i] <= all[j] {
      if i > 0 { assert all[i] == s[i - 1] && all[j] == s[j - 1]; }
    }
  }

  lemma {:induction false} InsertAscends(x: real, s: seq<real>)
    requires Ascending(s)
    ensures Ascending(Insert(x, s))
  {
    if s == [] || x <= s[0] {
      AscendsBehind(x, s);
    } else {
      InsertAscends(x, s[1..]);
      InsertBound(x, s[1..], s[0]);
      AscendsBehind(s[0], Insert(x, s[1..]));
    }
  }

  lemma {:induction false} SortAscends(s: seq<real>)
    ensures Ascending(Sort(s))
  {
    if s != [] {
      SortAscends(s[1..]);
      InsertAscends(s[0], Sort(s[1..]));
    }
  }

  // ---------- counting ----------

  /** How many values lie above `limit`, or at it if `atLimit`. */
  function CountOver(s: seq<real>, limit: real, atLimit: bool): nat {
    if s == [] then 0
    else (if s[0] > limit || (atLimit && s[0] == limit) then 1 else 0) + CountOver(s[1..], limit, atLimit)
  }

  lemma {:induction false} CountInsert(x: real, s: seq<real>, limit: real, atLimit: bool)
    ensures CountOver(Insert(x, s), limit, atLimit) == CountOver([x] + s, limit, atLimit)
  {
    assert ([x] + s)[1..] == s;
    if s != [] && x > s[0] {
      var rest := Insert(x, s[1..]);
      CountInsert(x, s[1..], limit, atLimit);
      assert ([s[0]] + rest)[1..] == rest && ([x] + s[1..])[1..] == s[1..];
    }
  }

  lemma {:induction false} CountSorted(s: seq<real>, limit: real, atLimit: bool)
    ensures CountOver(Sort(s), limit, atLimit) == CountOver(s, limit, atLimit)
  {
    if s != [] {
      CountSorted(s[1..], limit, atLimit);
      CountInsert(s[0], Sort(s[1..]), limit, atLimit);
      assert ([s[0]] + Sort(s[1..]))[1..] == Sort(s[1..]);
    }
  }

  /** No value of an ascending list up to index `k` counts if the one at `k` does not. */
  lemma {:induction false} CountAbove(s: seq<real>, k: nat, limit: real, atLimit: bool)
    requires Ascending(s) && k < |s| && (s[k] < limit || (s[k] == limit && !atLimit))
    ensures CountOver(s, limit, atLimit) <= |s| - 1 - k
    decreases k
  {
    if k > 0 {
      assert s[0] <= s[k];
      CountAbove(s[1..], k - 1, limit, atLimit);
    } else {
      CountAtMost(s[1..], limit, atLimit);
    }
  }

  lemma {:induction false} CountAtMost(s: seq<real>, limit: real, atLimit: bool)
    ensures CountOver(s, limit, atLimit) <= |s|
    ensures CountOver(s, limit, atLimit) == 0 <==>
            forall i | 0 <= i < |s| :: s[i] < limit || (s[i] == limit && !atLimit)
  {
    if s != [] {
      CountAtMost(s[1..], limit, atLimit);
      if CountOver(s, limit, atLimit) == 0 {
        assert forall i | 1 <= i < |s| :: s[i] == s[1..][i - 1];
      } else if CountOver(s[1..], limit, atLimit) != 0 {
        var i :| 0 <= i < |s[1..]| && !(s[1..][i] < limit || (s[1..][i] == limit && !atLimit));
        assert s[i + 1] == s[1..][i];
      }
    }
  }

  /** The percentiles are samples in order, the maximum bounds all samples, and at most
      n-1-floor(0.95n) samples exceed the 95th percentile. */
  lemma PercentileLaws(s: seq<real>)
    requires s != []
    ensures var d := Statistics(s);
            && d.p50 in s && d.p95 in s && d.p99 in s && d.max in s
            && d.p50 <= d.p95 <= d.p99 <= d.max
            && (forall x | x in s :: x <= d.max)
            && CountOver(s, d.p95, false) <= |s| - 1 - |s| * 95 / 100
  {
    SortLength(s);
    SortAscends(s);
    var sorted, n := Sort(s), |s|;
    forall i | 0 <= i < n ensures sorted[i] in s {
      assert sorted[i] in multiset(sorted);
    }
    forall x | x in s ensures x <= sorted[n - 1] {
      assert x in multiset(sorted);
      var i :| 0 <= i < n && sorted[i] == x;
    }
    CountSorted(s, sorted[n * 95 / 100], false);
    CountAbove(sorted, n * 95 / 100, sorted[n * 95 / 100], false);
  }

  /** A 95th percentile below the budget bounds the frames that are not below it. */
  lemma PercentileBoundsOverBudget(s: seq<real>, budget: real)
    requires s != [] && Statistics(s).p95 < budget
    ensures CountOver(s, budget, true) <= |s| - 1 - |s| * 95 / 100
  {
    SortLength(s);
    SortAscends(s);
    CountSorted(s, budget, true);
    CountAbove(Sort(s), |s| * 95 / 100, budget, true);
  }

  ghost predicate AllBelow(s: seq<real>, limit: real) {
    forall i | 0 <= i < |s| :: s[i] < limit
  }

  lemma MaxBelow(s: seq<real>, limit: real)
    requires s != []
    ensures Statistics(s).max < limit <==> AllBelow(s, limit)
  {
    PercentileLaws(s);
    var max := Statistics(s).max;
    var k :| 0 <= k < |s| && s[k] == max;
    assert forall i | 0 <= i < |s| :: s[i] in s;
  }

  // ---------- one case ----------

  function Starts(rows: seq<Frame>): seq<Reading> {
    seq(|rows|, i requires 0 <= i < |rows| => rows[i].at)
  }

  function Completions(rows: seq<Frame>): seq<Reading> {
    seq(|rows|, i requires 0 <= i < |rows| => rows[i].completedAt)
  }

  function Cpu(rows: seq<Frame>): seq<Reading> { seq(|rows|, i requires 0 <= i < |rows| => rows[i].cpuMs) }

  function Whole(starts: seq<real>, completed: seq<real>): (w: seq<real>)
    requires |starts| == |completed|
    ensures |w| == |starts|
  {
    seq(|starts|, i requires 0 <= i < |starts| => completed[i] - starts[i])
  }

  /** Differences of neighbouring completions whose first frame is marked `continuing` (or, with
      `wanted` false, is not). */
  function Gaps(rows: seq<Frame>, completed: seq<real>, wanted: bool): seq<real>
    requires |rows| == |completed|
  {
    if |rows| < 2 then []
    else
      var rest := Gaps(rows[1..], completed[1..], wanted);
      if (rows[0].continuing == Some(true)) == wanted then [completed[1] - completed[0]] + rest else rest
  }

  function Sum(s: seq<real>): real {
    if s == [] then 0.0 else s[0] + Sum(s[1..])
  }

  function Measured(s: seq<real>): seq<Reading> { seq(|s|, i requires 0 <= i < |s| => Ms(s[i])) }

  /** The body of the loop over the cases, check by check. */
  function Evaluate(c: Case, index: nat, def: Definition): Result<Report, Unverified>
    requires def.target > 0.0
  {
    var rows := c.frames;
    if |rows| < 2 then Failure(TooFewFrames) else
    if Distribute(Starts(rows)).Failure? then Failure(InvalidMeasurements) else
    if Distribute(Completions(rows)).Failure? then Failure(InvalidMeasurements) else
    var starts, completed := Numbers(Starts(rows)), Numbers(Completions(rows));
    if (exists i | 1 <= i < |starts| :: starts[i] <= starts[i - 1])
       || (exists i | 1 <= i < |completed| :: completed[i] < completed[i - 1]) then Failure(OutOfOrder) else
    var cpu := Distribute(Cpu(rows));
    if cpu.Failure? then Failure(cpu.error) else
    var wholes := Whole(starts, completed);
    var whole := Distribute(Measured(wholes));
    if whole.Failure? then Failure(whole.error) else
    if exists i | 0 <= i < |rows| :: Numbers(Cpu(rows))[i] > wholes[i] + 0.001 then Failure(CompletionBeforeCpu) else
    if exists i | 0 <= i < |rows| :: rows[i].continuing.None? then Failure(NoContinuity) else
    var gaps := Gaps(rows, completed, true);
    var intervals := Distribute(Measured(gaps));
    if intervals.Failure? then Failure(intervals.error) else
    if Sum(gaps) <= 0.0 then Failure(NoInterval) else
    var fps := |gaps| as real * 1000.0 / Sum(gaps);
    var cadence := 1000.0 / def.target;
    Success(Report(c.name, index, wholes[0], cpu.value, whole.value, intervals.value, fps,
                   CountOver(wholes, def.budget, true), CountOver(gaps, cadence, true),
                   whole.value.max < def.budget && fps > def.target && intervals.value.max < cadence))
  }

  /** Case `i` fails with `e`, and no case before it fails. */
  ghost predicate FirstFailure(cases: seq<Case>, i: nat, def: Definition, e: Unverified)
    requires def.target > 0.0
  {
    && i < |cases| && Evaluate(cases[i], i, def) == Failure(e)
    && forall j | 0 <= j < i :: Evaluate(cases[j], j, def).Success?
  }

  /** The loop over the cases: results so far, or the first case that could not be verified. */
  method EvaluateAll(cases: seq<Case>, def: Definition) returns (r: Result<seq<Report>, Unverified>)
    requires def.target > 0.0
    ensures match r
            case Success(reports) =>
              |reports| == |cases| && forall i | 0 <= i < |cases| :: Evaluate(cases[i], i, def) == Success(reports[i])
            case Failure(e) => exists i: nat :: FirstFailure(cases, i, def, e)
  {
    hide Evaluate;
    var results: seq<Report> := [];
    for index := 0 to |cases|
      invariant |results| == index
      invariant forall i | 0 <= i < index :: Evaluate(cases[i], i, def) == Success(results[i])
    {
      var result := Evaluate(cases[index], index, def);
      if result.Failure? {
        assert FirstFailure(cases, index, def, result.error);
        return Failure(result.error);
      }
      results := results + [result.value];
    }
    return Success(results);
  }

  // ---------- what the verdict means ----------

  lemma {:induction false} SumBelow(s: seq<real>, limit: real)
    requires s != [] && forall i | 0 <= i < |s| :: s[i] < limit
    ensures Sum(s) < |s| as real * limit
  {
    if |s| == 1 {
      assert Sum(s[1..]) == 0.0;
    } else {
      SumBelow(s[1..], limit);
      assert |s| as real * limit == (|s| - 1) as real * limit + limit;
    }
  }

  lemma Quotient(a: real, b: real, t: real)
    requires b > 0.0 && b * t < a
    ensures a / b > t
  {
    var q := a / b;
    assert q * b == a;
    if q <= t { Scaled(q, t, b); }
  }

  lemma Scaled(a: real, b: real, k: real)
    requires a <= b && k > 0.0
    ensures a * k <= b * k
    ensures a < b ==> a * k < b * k
  {}

  lemma Rate(n: real, sum: real, cadence: real, target: real)
    requires cadence * target == 1000.0 && target > 0.0 && 0.0 < sum < n * cadence
    ensures n * 1000.0 / sum > target
  {
    Scaled(sum, n * cadence, target);
    Regroup(n, cadence, target);
    Quotient(n * 1000.0, sum, target);
  }

  lemma Regroup(a: real, b: real, c: real)
    ensures a * b * c == a * (b * c)
  {}

  /** Intervals below the cadence already mean more frames per second than the target. */
  lemma GapsForceRate(gaps: seq<real>, target: real)
    requires target > 0.0 && gaps != [] && Sum(gaps) > 0.0 && AllBelow(gaps, 1000.0 / target)
    ensures |gaps| as real * 1000.0 / Sum(gaps) > target
  {
    hide Sum;
    var cadence := 1000.0 / target;
    CadenceTimes(target);
    SumBelow(gaps, cadence);
    Rate(|gaps| as real, Sum(gaps), cadence, target);
  }

  lemma CadenceTimes(target: real)
    requires target > 0.0
    ensures 1000.0 / target * target == 1000.0
  {}

  lemma NoneCounted(s: seq<real>, limit: real)
    ensures CountOver(s, limit, true) == 0 <==> AllBelow(s, limit)
  {
    CountAtMost(s, limit, true);
  }

  lemma NumbersMeasured(s: seq<real>)
    ensures Valid(Measured(s)) ==> Numbers(Measured(s)) == s
  {}

  /** A case passes exactly when no whole frame reaches the budget and no continuing interval
      reaches the cadence; the frame-rate test never decides. */
  lemma VerdictMeans(c: Case, index: nat, def: Definition)
    requires def.target > 0.0 && Evaluate(c, index, def).Success?
    ensures var report := Evaluate(c, index, def).value;
            var completed := Numbers(Completions(c.frames));
            var wholes, gaps := Whole(Numbers(Starts(c.frames)), completed), Gaps(c.frames, completed, true);
            && (report.passed <==> AllBelow(wholes, def.budget) && AllBelow(gaps, 1000.0 / def.target))
            && (report.passed <==> report.overBudget == 0 && report.slow == 0)
  {
    hide Statistics, AllBelow, Sum, Gaps, CountOver;
    var completed := Numbers(Completions(c.frames));
    var wholes, gaps := Whole(Numbers(Starts(c.frames)), completed), Gaps(c.frames, completed, true);
    var cadence := 1000.0 / def.target;
    NumbersMeasured(wholes);
    NumbersMeasured(gaps);
    MaxBelow(wholes, def.budget);
    MaxBelow(gaps, cadence);
    NoneCounted(wholes, def.budget);
    NoneCounted(gaps, cadence);
    if AllBelow(gaps, cadence) { GapsForceRate(gaps, def.target); }
  }

  /** No time is lost: continuing and idle gaps together span the completions. */
  lemma {:induction false} GapsSpan(rows: seq<Frame>, completed: seq<real>)
    requires |rows| == |completed| >= 1
    ensures Sum(Gaps(rows, completed, true)) + Sum(Gaps(rows, completed, false)) ==
            completed[|completed| - 1] - completed[0]
    decreases |rows|
  {
    if |rows| >= 2 {
      GapsSpan(rows[1..], completed[1..]);
      var wanted := rows[0].continuing == Some(true);
      var rest := Gaps(rows[1..], completed[1..], wanted);
      assert ([completed[1] - completed[0]] + rest)[1..] == rest;
    }
  }

  // ---------- in terms of the report ----------

  /** The statistics are places of the samples in ascending order. */
  lemma StatisticsSpelled(s: seq<real>)
    requires s != []
    ensures var d := Statistics(s);
            exists t: seq<real> ::
              && multiset(t) == multiset(s) && |t| == |s| && (forall i, j | 0 <= i <= j < |t| :: t[i] <= t[j])
              && d == Distribution(|s|, t[|s| / 2], t[|s| * 95 / 100], t[|s| * 99 / 100], t[|s| - 1])
  {
    SortLength(s);
    SortAscends(s);
    var t := Sort(s);
    assert multiset(t) == multiset(s) && |t| == |s|;
  }

  /** Everything the gate demands of a case. */
  ghost predicate Verifiable(rows: seq<Frame>) {
    && |rows| >= 2
    && (forall i | 0 <= i < |rows| ::
         && rows[i].at.Ms? && rows[i].at.v >= 0.0 && rows[i].completedAt.Ms? && rows[i].completedAt.v >= 0.0
         && rows[i].cpuMs.Ms? && rows[i].cpuMs.v >= 0.0 && rows[i].continuing.Some?
         && rows[i].completedAt.v >= rows[i].at.v && rows[i].cpuMs.v <= rows[i].completedAt.v - rows[i].at.v + 0.001)
    && (forall i | 1 <= i < |rows| ::
         rows[i].at.v > rows[i - 1].at.v && rows[i].completedAt.v >= rows[i - 1].completedAt.v)
    && (exists i :: 0 <= i < |rows| - 1 && rows[i].continuing == Some(true)
                    && rows[i + 1].completedAt.v > rows[i].completedAt.v)
  }

  /** The places from `first` on are those of the continuing frames, in order, each with its interval. */
  ghost predicate Placed(rows: seq<Frame>, completed: seq<real>, first: nat, gaps: seq<real>, places: seq<nat>) {
    && |places| == |gaps| && |rows| == |completed|
    && (forall k | 0 <= k < |places| :: first <= places[k] < |rows| - 1 && rows[places[k]].continuing == Some(true))
    && (forall k | 0 <= k < |places| :: gaps[k] == completed[places[k] + 1] - completed[places[k]])
    && (forall k, l | 0 <= k < l < |places| :: places[k] < places[l])
    && (forall i: nat | first <= i < |rows| - 1 && rows[i].continuing == Some(true) :: i in places)
  }

  lemma PlacedNext(rows: seq<Frame>, completed: seq<real>, first: nat, gaps: seq<real>, places: seq<nat>)
    requires first + 1 < |rows| && Placed(rows, completed, first + 1, gaps, places)
    ensures if rows[first].continuing == Some(true)
            then Placed(rows, completed, first, [completed[first + 1] - completed[first]] + gaps, [first] + places)
            else Placed(rows, completed, first, gaps, places)
  {}

  /** The intervals are the differences behind the continuing frames. */
  lemma {:induction false} GapsSpelled(rows: seq<Frame>, completed: seq<real>, first: nat) returns (places: seq<nat>)
    requires |rows| == |completed| && first <= |rows|
    ensures Placed(rows, completed, first, Gaps(rows[first..], completed[first..], true), places)
    decreases |rows| - first
  {
    hide Placed;
    var r, c := rows[first..], completed[first..];
    if |r| < 2 {
      places := [];
      NonePlaced(rows, completed, first);
    } else {
      places := GapsSpelled(rows, completed, first + 1);
      assert r[1..] == rows[first + 1..] && c[1..] == completed[first + 1..];
      PlacedNext(rows, completed, first, Gaps(r[1..], c[1..], true), places);
      if rows[first].continuing == Some(true) { places := [first] + places; }
    }
  }

  lemma NonePlaced(rows: seq<Frame>, completed: seq<real>, first: nat)
    requires |rows| == |completed| && first + 1 >= |rows|
    ensures Placed(rows, completed, first, [], [])
  {}

  lemma {:induction false} SumPositive(s: seq<real>)
    requires forall i | 0 <= i < |s| :: s[i] >= 0.0
    ensures Sum(s) >= 0.0 && (Sum(s) > 0.0 <==> exists i :: 0 <= i < |s| && s[i] > 0.0)
  {
    if s != [] {
      SumPositive(s[1..]);
      if s[0] > 0.0 {
      } else if Sum(s[1..]) > 0.0 {
        var i :| 0 <= i < |s[1..]| && s[1..][i] > 0.0;
        assert s[i + 1] > 0.0;
      } else {
        assert forall i | 1 <= i < |s| :: s[i] == s[1..][i - 1];
      }
    }
  }

  /** Some interval took time exactly when some continuing frame was completed before its successor. */
  lemma GapsPositive(rows: seq<Frame>, completed: seq<real>)
    requires |rows| == |completed| && forall i | 1 <= i < |rows| :: completed[i] >= completed[i - 1]
    ensures var gaps := Gaps(rows, completed, true);
            && (forall i | 0 <= i < |gaps| :: gaps[i] >= 0.0)
            && ((gaps != [] && Sum(gaps) > 0.0) <==>
                exists i :: 0 <= i < |rows| - 1 && rows[i].continuing == Some(true) && completed[i + 1] > completed[i])
  {
    hide Gaps, Placed, Sum;
    var gaps := Gaps(rows, completed, true);
    assert rows[0..] == rows && completed[0..] == completed;
    var places := GapsSpelled(rows, completed, 0);
    PlacedPositive(rows, completed, gaps, places);
    SumPositive(gaps);
  }

  lemma PlacedPositive(rows: seq<Frame>, completed: seq<real>, gaps: seq<real>, places: seq<nat>)
    requires |rows| == |completed| && Placed(rows, completed, 0, gaps, places)
    requires forall i | 1 <= i < |rows| :: completed[i] >= completed[i - 1]
    ensures forall i | 0 <= i < |gaps| :: gaps[i] >= 0.0
    ensures (exists k :: 0 <= k < |gaps| && gaps[k] > 0.0) <==>
            exists i :: 0 <= i < |rows| - 1 && rows[i].continuing == Some(true) && completed[i + 1] > completed[i]
  {
    hide Placed;
    forall k | 0 <= k < |gaps| ensures gaps[k] >= 0.0 { GapAt(rows, completed, gaps, places, k); }
    if k :| 0 <= k < |gaps| && gaps[k] > 0.0 {
      GapAt(rows, completed, gaps, places, k);
      assert completed[places[k] + 1] > completed[places[k]];
    }
    if i :| 0 <= i < |rows| - 1 && rows[i].continuing == Some(true) && completed[i + 1] > completed[i] {
      var k := GapFor(rows, completed, gaps, places, i);
      assert gaps[k] > 0.0;
    }
  }

  lemma GapAt(rows: seq<Frame>, completed: seq<real>, gaps: seq<real>, places: seq<nat>, k: nat)
    requires Placed(rows, completed, 0, gaps, places) && k < |gaps|
    requires forall i | 1 <= i < |rows| :: completed[i] >= completed[i - 1]
    ensures |places| == |gaps| && places[k] + 1 < |rows| && rows[places[k]].continuing == Some(true)
    ensures gaps[k] == completed[places[k] + 1] - completed[places[k]] >= 0.0
  {
    var n := places[k];
    assert completed[n + 1] >= completed[n + 1 - 1];
  }

  lemma GapFor(rows: seq<Frame>, completed: seq<real>, gaps: seq<real>, places: seq<nat>, i: nat) returns (k: nat)
    requires Placed(rows, completed, 0, gaps, places)
    requires i + 1 < |rows| && rows[i].continuing == Some(true)
    ensures k < |gaps| && gaps[k] == completed[i + 1] - completed[i]
  {
    k :| 0 <= k < |places| && places[k] == i;
  }

  /** How values over a limit are counted. */
  lemma {:induction false} CountSpelled(a: seq<real>, b: seq<real>, x: real, limit: real, atLimit: bool)
    ensures CountOver(a + b, limit, atLimit) == CountOver(a, limit, atLimit) + CountOver(b, limit, atLimit)
    ensures CountOver([x], limit, true) == (if x >= limit then 1 else 0)
    ensures CountOver([x], limit, false) == (if x > limit then 1 else 0)
  {
    if a == [] {
      assert a + b == b;
    } else {
      assert (a + b)[1..] == a[1..] + b;
      CountSpelled(a[1..], b, x, limit, atLimit);
    }
  }

  /** The gate reports on a case exactly when it meets every demand, and what the report holds. */
  lemma EvaluateSpelled(c: Case, index: nat, def: Definition)
    requires def.target > 0.0
    ensures Evaluate(c, index, def).Success? <==> Verifiable(c.frames)
    ensures Verifiable(c.frames) ==>
              var r := Evaluate(c, index, def).value;
              var rows := c.frames;
              var completed := seq(|rows|, i requires 0 <= i < |rows| => rows[i].completedAt.v);
              var wholes := seq(|rows|, i requires 0 <= i < |rows| => rows[i].completedAt.v - rows[i].at.v);
              var gaps := Gaps(rows, completed, true);
              && r.name == c.name && r.index == index && r.firstFrame == rows[0].completedAt.v - rows[0].at.v
              && r.cpu == Statistics(seq(|rows|, i requires 0 <= i < |rows| => rows[i].cpuMs.v))
              && r.whole == Statistics(wholes)
              && gaps != [] && Sum(gaps) > 0.0
              && r.intervals == Statistics(gaps) && r.fps == |gaps| as real * 1000.0 / Sum(gaps)
              && r.overBudget == CountOver(wholes, def.budget, true)
              && r.slow == CountOver(gaps, 1000.0 / def.target, true)
  {
    hide Statistics, Gaps, Sum, CountOver;
    var rows := c.frames;
    if |rows| >= 2 {
      ReadingsSpelled(rows);
      if Valid(Starts(rows)) && Valid(Completions(rows)) && Valid(Cpu(rows)) {
        EvaluateMeasured(c, index, def);
      }
    }
  }

  lemma ReadingsSpelled(rows: seq<Frame>)
    requires rows != []
    ensures Valid(Starts(rows)) <==> forall i | 0 <= i < |rows| :: rows[i].at.Ms? && rows[i].at.v >= 0.0
    ensures Valid(Completions(rows)) <==>
            forall i | 0 <= i < |rows| :: rows[i].completedAt.Ms? && rows[i].completedAt.v >= 0.0
    ensures Valid(Cpu(rows)) <==> forall i | 0 <= i < |rows| :: rows[i].cpuMs.Ms? && rows[i].cpuMs.v >= 0.0
  {
    assert forall i | 0 <= i < |rows| ::
      Starts(rows)[i] == rows[i].at && Completions(rows)[i] == rows[i].completedAt && Cpu(rows)[i] == rows[i].cpuMs;
  }

  /** The columns of a case whose readings are all numbers. */
  datatype Columns = Columns(starts: seq<real>, completed: seq<real>, cpu: seq<real>, wholes: seq<real>)

  ghost predicate Reads(rows: seq<Frame>, k: Columns) {
    && |k.starts| == |k.completed| == |k.cpu| == |k.wholes| == |rows|
    && forall i | 0 <= i < |rows| ::
         && rows[i].at == Ms(k.starts[i]) && rows[i].completedAt == Ms(k.completed[i]) && rows[i].cpuMs == Ms(k.cpu[i])
         && k.wholes[i] == k.completed[i] - k.starts[i]
  }

  ghost predicate Passable(rows: seq<Frame>, k: Columns)
    requires Reads(rows, k)
  {
    var gaps := Gaps(rows, k.completed, true);
    && (forall i | 1 <= i < |rows| :: k.starts[i] > k.starts[i - 1] && k.completed[i] >= k.completed[i - 1])
    && (forall i | 0 <= i < |rows| :: k.wholes[i] >= 0.0 && k.cpu[i] <= k.wholes[i] + 0.001)
    && (forall i | 0 <= i < |rows| :: rows[i].continuing.Some?)
    && gaps != [] && (forall i | 0 <= i < |gaps| :: gaps[i] >= 0.0) && Sum(gaps) > 0.0
  }

  lemma EvaluateMeasured(c: Case, index: nat, def: Definition)
    requires def.target > 0.0 && |c.frames| >= 2
    requires Valid(Starts(c.frames)) && Valid(Completions(c.frames)) && Valid(Cpu(c.frames))
    requires forall i | 0 <= i < |c.frames| ::
               && c.frames[i].at.Ms? && c.frames[i].at.v >= 0.0 && c.frames[i].completedAt.Ms?
               && c.frames[i].completedAt.v >= 0.0 && c.frames[i].cpuMs.Ms? && c.frames[i].cpuMs.v >= 0.0
    ensures Evaluate(c, index, def).Success? <==> Verifiable(c.frames)
    ensures Verifiable(c.frames) ==>
              var r := Evaluate(c, index, def).value;
              var rows := c.frames;
              var completed := seq(|rows|, i requires 0 <= i < |rows| => rows[i].completedAt.v);
              var wholes := seq(|rows|, i requires 0 <= i < |rows| => rows[i].completedAt.v - rows[i].at.v);
              var gaps := Gaps(rows, completed, true);
              && r.name == c.name && r.index == index && r.firstFrame == rows[0].completedAt.v - rows[0].at.v
              && r.cpu == Statistics(seq(|rows|, i requires 0 <= i < |rows| => rows[i].cpuMs.v))
              && r.whole == Statistics(wholes)
              && gaps != [] && Sum(gaps) > 0.0
              && r.intervals == Statistics(gaps) && r.fps == |gaps| as real * 1000.0 / Sum(gaps)
              && r.overBudget == CountOver(wholes, def.budget, true)
              && r.slow == CountOver(gaps, 1000.0 / def.target, true)
  {
    hide Statistics, Gaps, Sum, CountOver, Evaluate, Valid, Passable, Verifiable;
    var rows := c.frames;
    var k := Columns(Numbers(Starts(rows)), seq(|rows|, i requires 0 <= i < |rows| => rows[i].completedAt.v),
                     seq(|rows|, i requires 0 <= i < |rows| => rows[i].cpuMs.v),
                     seq(|rows|, i requires 0 <= i < |rows| => rows[i].completedAt.v - rows[i].at.v));
    assert Reads(rows, k);
    EvaluatePassable(c, index, def, k);
    PassableMeans(rows, k);
    if Verifiable(rows) { PassableReport(c, index, def, k); }
  }

  lemma ColumnsRead(rows: seq<Frame>, k: Columns)
    requires Reads(rows, k) && Valid(Starts(rows)) && Valid(Completions(rows)) && Valid(Cpu(rows))
    ensures Numbers(Starts(rows)) == k.starts && Numbers(Completions(rows)) == k.completed
    ensures Numbers(Cpu(rows)) == k.cpu && Whole(k.starts, k.completed) == k.wholes
  {
    hide Valid;
    assert forall i | 0 <= i < |rows| ::
      Starts(rows)[i] == rows[i].at && Completions(rows)[i] == rows[i].completedAt && Cpu(rows)[i] == rows[i].cpuMs;
  }

  lemma MeasuredValid(s: seq<real>)
    ensures Valid(Measured(s)) <==> s != [] && forall i | 0 <= i < |s| :: s[i] >= 0.0
    ensures Valid(Measured(s)) ==> Numbers(Measured(s)) == s
  {
    assert forall i | 0 <= i < |s| :: Measured(s)[i] == Ms(s[i]);
  }

  lemma EvaluatePassable(c: Case, index: nat, def: Definition, k: Columns)
    requires def.target > 0.0 && |c.frames| >= 2 && Reads(c.frames, k)
    requires Valid(Starts(c.frames)) && Valid(Completions(c.frames)) && Valid(Cpu(c.frames))
    ensures Evaluate(c, index, def).Success? <==> Passable(c.frames, k)
  {
    hide Statistics, Gaps, Sum, CountOver, Valid, Numbers, Whole, Measured, Starts, Completions, Cpu, Reads;
    ColumnLengths(c.frames, k);
    ColumnsRead(c.frames, k);
    MeasuredValid(k.wholes);
    MeasuredValid(Gaps(c.frames, k.completed, true));
  }

  lemma ColumnLengths(rows: seq<Frame>, k: Columns)
    requires Reads(rows, k)
    ensures |k.starts| == |k.completed| == |k.cpu| == |k.wholes| == |rows|
  {}

  lemma PassableReport(c: Case, index: nat, def: Definition, k: Columns)
    requires def.target > 0.0 && |c.frames| >= 2 && Reads(c.frames, k) && Passable(c.frames, k)
    requires Valid(Starts(c.frames)) && Valid(Completions(c.frames)) && Valid(Cpu(c.frames))
    requires Evaluate(c, index, def).Success?
    ensures var r, gaps := Evaluate(c, index, def).value, Gaps(c.frames, k.completed, true);
            && r.name == c.name && r.index == index && r.firstFrame == k.wholes[0]
            && r.cpu == Statistics(k.cpu) && r.whole == Statistics(k.wholes)
            && gaps != [] && Sum(gaps) > 0.0
            && r.intervals == Statistics(gaps) && r.fps == |gaps| as real * 1000.0 / Sum(gaps)
            && r.overBudget == CountOver(k.wholes, def.budget, true)
            && r.slow == CountOver(gaps, 1000.0 / def.target, true)
  {
    hide Statistics, Gaps, Sum, CountOver, Valid, Numbers, Whole, Measured, Starts, Completions, Cpu, Reads;
    ColumnLengths(c.frames, k);
    ColumnsRead(c.frames, k);
    MeasuredValid(k.wholes);
    MeasuredValid(Gaps(c.frames, k.completed, true));
  }

  lemma PassableMeans(rows: seq<Frame>, k: Columns)
    requires |rows| >= 2 && Reads(rows, k)
    requires forall i | 0 <= i < |rows| :: k.starts[i] >= 0.0 && k.completed[i] >= 0.0 && k.cpu[i] >= 0.0
    ensures Passable(rows, k) <==> Verifiable(rows)
  {
    hide Gaps, Sum;
    if forall i | 1 <= i < |rows| :: k.completed[i] >= k.completed[i - 1] { GapsPositive(rows, k.completed); }
  }

  // ---------- which problem is reported ----------

  ghost predicate BadTimes(rows: seq<Frame>) {
    exists i | 0 <= i < |rows| ::
      rows[i].at.Missing? || rows[i].completedAt.Missing? || rows[i].at.v < 0.0 || rows[i].completedAt.v < 0.0
  }

  ghost predicate BadOrder(rows: seq<Frame>)
    requires !BadTimes(rows)
  {
    exists i | 1 <= i < |rows| ::
      rows[i].at.v <= rows[i - 1].at.v || rows[i].completedAt.v < rows[i - 1].completedAt.v
  }

  ghost predicate BadCpu(rows: seq<Frame>) {
    exists i | 0 <= i < |rows| :: rows[i].cpuMs.Missing? || rows[i].cpuMs.v < 0.0
  }

  /** No frame with a successor continues. */
  ghost predicate Idle(rows: seq<Frame>) {
    forall i | 0 <= i < |rows| - 1 :: rows[i].continuing != Some(true)
  }

  /** No frame that continues is followed by a later completion. */
  ghost predicate Still(rows: seq<Frame>)
    requires forall i | 0 <= i < |rows| :: rows[i].completedAt.Ms?
  {
    forall i | 0 <= i < |rows| - 1 && rows[i].continuing == Some(true) ::
      rows[i + 1].completedAt.v == rows[i].completedAt.v
  }

  /** What a case without a report lacks, by the first of the gate's checks that it fails. */
  lemma ProblemSpelled(c: Case, index: nat, def: Definition)
    requires def.target > 0.0
    ensures var rows, r := c.frames, Evaluate(c, index, def);
            if |rows| < 2 then r == Failure(TooFewFrames)
            else if BadTimes(rows) then r == Failure(InvalidMeasurements)
            else if BadOrder(rows) then r == Failure(OutOfOrder)
            else if BadCpu(rows) then r == Failure(InvalidMeasurements)
            else if exists i | 0 <= i < |rows| :: rows[i].completedAt.v < rows[i].at.v
            then r == Failure(InvalidMeasurements)
            else if exists i | 0 <= i < |rows| :: rows[i].cpuMs.v > rows[i].completedAt.v - rows[i].at.v + 0.001
            then r == Failure(CompletionBeforeCpu)
            else if exists i | 0 <= i < |rows| :: rows[i].continuing == None then r == Failure(NoContinuity)
            else if Idle(rows) then r == Failure(InvalidMeasurements)
            else if Still(rows) then r == Failure(NoInterval)
            else r.Success?
  {
    hide Valid, Numbers, Evaluate, BadOrder, BadTimes, BadCpu, Still, Idle;
    var rows := c.frames;
    if |rows| >= 2 {
      if BadTimes(rows) {
        TimesBad(c, index, def);
      } else {
        TimesRead(rows);
        if BadOrder(rows) {
          OrderBad(c, index, def);
        } else if BadCpu(rows) {
          CpuBad(c, index, def);
        } else {
          ReadBad(c, index, def);
        }
      }
    }
    if |rows| < 2 { TooFew(c, index, def); }
  }

  lemma TooFew(c: Case, index: nat, def: Definition)
    requires def.target > 0.0 && |c.frames| < 2
    ensures Evaluate(c, index, def) == Failure(TooFewFrames)
  {}

  lemma TimesBad(c: Case, index: nat, def: Definition)
    requires def.target > 0.0 && |c.frames| >= 2 && BadTimes(c.frames)
    ensures Evaluate(c, index, def) == Failure(InvalidMeasurements)
  {
    hide Statistics, Gaps, Sum, CountOver, Valid;
    ReadingsSpelled(c.frames);
  }

  lemma TimesRead(rows: seq<Frame>)
    requires |rows| >= 2 && !BadTimes(rows)
    ensures forall i | 0 <= i < |rows| :: rows[i].at.Ms? && rows[i].completedAt.Ms?
    ensures Valid(Starts(rows)) && Valid(Completions(rows))
    ensures |Numbers(Starts(rows))| == |Numbers(Completions(rows))| == |rows|
    ensures forall i | 0 <= i < |rows| ::
              Numbers(Starts(rows))[i] == rows[i].at.v && Numbers(Completions(rows))[i] == rows[i].completedAt.v
  {
    ReadingsSpelled(rows);
  }

  lemma OrderStep(c: Case, index: nat, def: Definition)
    requires def.target > 0.0 && |c.frames| >= 2 && Valid(Starts(c.frames)) && Valid(Completions(c.frames))
    ensures var starts, completed := Numbers(Starts(c.frames)), Numbers(Completions(c.frames));
            (exists i | 1 <= i < |starts| :: starts[i] <= starts[i - 1])
            || (exists i | 1 <= i < |completed| :: completed[i] < completed[i - 1]) ==>
              Evaluate(c, index, def) == Failure(OutOfOrder)
  {
    hide Statistics, Gaps, Sum, CountOver, Valid, Numbers, Starts, Completions;
  }

  lemma OrderBad(c: Case, index: nat, def: Definition)
    requires def.target > 0.0 && |c.frames| >= 2 && !BadTimes(c.frames) && BadOrder(c.frames)
    ensures Evaluate(c, index, def) == Failure(OutOfOrder)
  {
    hide Evaluate, Valid, Numbers, Starts, Completions;
    TimesRead(c.frames);
    var i :| 1 <= i < |c.frames| &&
        (c.frames[i].at.v <= c.frames[i - 1].at.v || c.frames[i].completedAt.v < c.frames[i - 1].completedAt.v);
    var starts, completed := Numbers(Starts(c.frames)), Numbers(Completions(c.frames));
    assert starts[i] <= starts[i - 1] || completed[i] < completed[i - 1];
    OrderStep(c, index, def);
  }

  lemma Ordered(rows: seq<Frame>)
    requires |rows| >= 2 && !BadTimes(rows) && !BadOrder(rows)
    ensures Valid(Starts(rows)) && Valid(Completions(rows))
    ensures var starts, completed := Numbers(Starts(rows)), Numbers(Completions(rows));
            && |starts| == |completed| == |rows|
            && forall i | 1 <= i < |rows| :: starts[i] > starts[i - 1] && completed[i] >= completed[i - 1]
  {
    hide Valid, Numbers, Starts, Completions;
    TimesRead(rows);
  }

  lemma CpuBad(c: Case, index: nat, def: Definition)
    requires def.target > 0.0 && |c.frames| >= 2 && !BadTimes(c.frames) && !BadOrder(c.frames) && BadCpu(c.frames)
    ensures Evaluate(c, index, def) == Failure(InvalidMeasurements)
  {
    hide Statistics, Gaps, Sum, CountOver, Valid, Numbers, Starts, Completions;
    Ordered(c.frames);
    ReadingsSpelled(c.frames);
  }

  /** All readings are there and in order: the problem is one of the later checks, or there is a report. */
  lemma ReadBad(c: Case, index: nat, def: Definition)
    requires def.target > 0.0 && |c.frames| >= 2
    requires !BadTimes(c.frames) && !BadOrder(c.frames) && !BadCpu(c.frames)
    ensures var rows, r := c.frames, Evaluate(c, index, def);
            if exists i | 0 <= i < |rows| :: rows[i].completedAt.v < rows[i].at.v
            then r == Failure(InvalidMeasurements)
            else if exists i | 0 <= i < |rows| :: rows[i].cpuMs.v > rows[i].completedAt.v - rows[i].at.v + 0.001
            then r == Failure(CompletionBeforeCpu)
            else if exists i | 0 <= i < |rows| :: rows[i].continuing == None then r == Failure(NoContinuity)
            else if Idle(rows) then r == Failure(InvalidMeasurements)
            else if Still(rows) then r == Failure(NoInterval)
            else r.Success?
  {
    hide Evaluate, Gaps, Sum, BadTimes, BadOrder, BadCpu, Reads, Starts, Completions, Cpu, Numbers, Valid, Whole, Still,
         Idle;
    var rows := c.frames;
    var k := ColumnsOf(rows);
    LaterChecks(c, index, def, k);
    GapsInRows(rows, k);
  }

  lemma ColumnsOf(rows: seq<Frame>) returns (k: Columns)
    requires |rows| >= 2 && !BadTimes(rows) && !BadCpu(rows)
    ensures Reads(rows, k) && |k.wholes| == |k.cpu| == |rows|
    ensures forall i | 0 <= i < |rows| ::
              && rows[i].at.Ms? && rows[i].completedAt.Ms? && rows[i].cpuMs.Ms?
              && k.wholes[i] == rows[i].completedAt.v - rows[i].at.v && k.cpu[i] == rows[i].cpuMs.v
  {
    hide Valid;
    ReadingsSpelled(rows);
    k := Columns(Numbers(Starts(rows)), Numbers(Completions(rows)), Numbers(Cpu(rows)),
                 Whole(Numbers(Starts(rows)), Numbers(Completions(rows))));
  }

  /** The continuing gaps of ordered rows. */
  lemma GapsInRows(rows: seq<Frame>, k: Columns)
    requires |rows| >= 2 && Reads(rows, k) && !BadTimes(rows) && !BadOrder(rows)
    requires forall i | 0 <= i < |rows| :: rows[i].completedAt.Ms?
    ensures |k.completed| == |rows|
    ensures var gaps := Gaps(rows, k.completed, true);
            && (gaps == [] <==> Idle(rows)) && (forall i | 0 <= i < |gaps| :: gaps[i] >= 0.0)
            && (Sum(gaps) <= 0.0 <==> Still(rows))
  {
    hide Gaps, Sum;
    assert forall i | 0 <= i < |rows| :: rows[i].completedAt.v == k.completed[i];
    GapsOf(rows, k.completed);
  }

  lemma LaterChecks(c: Case, index: nat, def: Definition, k: Columns)
    requires def.target > 0.0 && |c.frames| >= 2 && Reads(c.frames, k)
    requires !BadTimes(c.frames) && !BadOrder(c.frames) && !BadCpu(c.frames)
    ensures var r, gaps := Evaluate(c, index, def), Gaps(c.frames, k.completed, true);
            if exists i | 0 <= i < |c.frames| :: k.wholes[i] < 0.0 then r == Failure(InvalidMeasurements)
            else if exists i | 0 <= i < |c.frames| :: k.cpu[i] > k.wholes[i] + 0.001
            then r == Failure(CompletionBeforeCpu)
            else if exists i | 0 <= i < |c.frames| :: c.frames[i].continuing.None? then r == Failure(NoContinuity)
            else if gaps == [] || exists i | 0 <= i < |gaps| :: gaps[i] < 0.0 then r == Failure(InvalidMeasurements)
            else if Sum(gaps) <= 0.0 then r == Failure(NoInterval)
            else r.Success?
  {
    hide Statistics, Gaps, Sum, CountOver, Valid, Numbers, Whole, Measured, Starts, Completions, Cpu;
    AllValid(c.frames);
    Ordered(c.frames);
    ColumnsRead(c.frames, k);
    MeasuredValid(k.wholes);
    MeasuredValid(Gaps(c.frames, k.completed, true));
  }

  lemma AllValid(rows: seq<Frame>)
    requires |rows| >= 2 && !BadTimes(rows) && !BadCpu(rows)
    ensures Valid(Starts(rows)) && Valid(Completions(rows)) && Valid(Cpu(rows))
  {
    ReadingsSpelled(rows);
  }

  /** The continuing gaps are missing, or add up to nothing, exactly when no frame continues, or none of
      those that do leads to a later completion. */
  lemma {:induction false} GapsOf(rows: seq<Frame>, completed: seq<real>)
    requires |rows| == |completed| >= 1 && forall i | 1 <= i < |rows| :: completed[i] >= completed[i - 1]
    ensures var gaps := Gaps(rows, completed, true);
            && (gaps == [] <==> forall i | 0 <= i < |rows| - 1 :: rows[i].continuing != Some(true))
            && (forall i | 0 <= i < |gaps| :: gaps[i] >= 0.0) && Sum(gaps) >= 0.0
            && (Sum(gaps) == 0.0 <==>
                forall i | 0 <= i < |rows| - 1 && rows[i].continuing == Some(true) ::
                  completed[i + 1] == completed[i])
    decreases |rows|
  {
    if |rows| >= 2 {
      GapsOf(rows[1..], completed[1..]);
      GapsMore(rows, completed);
    }
  }

  lemma GapsMore(rows: seq<Frame>, completed: seq<real>)
    requires |rows| == |completed| >= 2
    ensures forall i | 0 <= i < |rows[1..]| - 1 ::
              rows[1..][i] == rows[i + 1] && completed[1..][i] == completed[i + 1]
    ensures var rest := Gaps(rows[1..], completed[1..], true);
            Gaps(rows, completed, true) ==
            if rows[0].continuing == Some(true) then [completed[1] - completed[0]] + rest else rest
  {}
}
