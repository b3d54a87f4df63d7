/** The OpenTSDB put lines one export cycle produces (opentsdb.go,
    openTSDB): one block of lines per registry entry, chosen by the
    metric's variant, every line of the form
      put <prefix>.<name>.<suffix> <now> <value> host=<short> <tags>\n */
module PutLines {
  import opened Text

  const MinInt64: int := -0x8000_0000_0000_0000
  const MaxInt64: int := 0x7fff_ffff_ffff_ffff

  /** Go's int64. */
  type Int64 = x: int | MinInt64 <= x <= MaxInt64

  /** Go's int64 division x / y: truncates toward zero, and the one
      overflowing quotient MinInt64 / -1 wraps back to MinInt64.
      Division by zero panics, hence the precondition. */
  function Quotient(x: Int64, y: Int64): (q: Int64)
    requires y != 0
    ensures x == MinInt64 && y == -1 ==> q == MinInt64
    ensures !(x == MinInt64 && y == -1) ==>
              var rem := x - q * y;
              -Abs(y) < rem < Abs(y) && (rem == 0 || (rem < 0) == (x < 0))
  {
    if x == MinInt64 && y == -1 then MinInt64
    else
      TruncatedDivision(x, y);
      var q := TruncDiv(x, y);
      assert Abs(q) <= Abs(x) <= -MinInt64;
      q
  }

  /** Division truncating toward zero, on unbounded integers. */
  function TruncDiv(x: int, y: int): int
    requires y != 0
  {
    if (x < 0) == (y < 0) then Abs(x) / Abs(y) else -(Abs(x) / Abs(y))
  }

  /** The remainder left by truncating division is smaller than the divisor
      and takes the dividend's sign; the quotient is no larger than the
      dividend, and as large only for a divisor of 1 or -1. */
  lemma TruncatedDivision(x: int, y: int)
    requires y != 0
    ensures var q := TruncDiv(x, y); var rem := x - q * y;
            -Abs(y) < rem < Abs(y) && (rem == 0 || (rem < 0) == (x < 0)) &&
            Abs(q) <= Abs(x) && (Abs(q) == Abs(x) && x != 0 ==> Abs(y) == 1)
  {
    var a, b := Abs(x), Abs(y);
    NatDivision(a, b);
    var n, r := a / b, a % b;
    var q := TruncDiv(x, y);
    if (x < 0) == (y < 0) {
      assert q == n;
      ProductSign(n, y, b);
      assert q * y == (if y < 0 then -(n * b) else n * b);
    } else {
      assert q == -n;
      ProductSign(-n, y, b);
      NegatedProduct(n, b);
      assert q * y == (if y < 0 then n * b else -(n * b));
    }
    assert a == n * b + r && 0 <= r < b;
    var rem := x - q * y;
    assert rem == (if x < 0 then -r else r);
    assert -b < rem < b;
    assert Abs(q) == n <= a;
  }

  /** A product with a factor of known magnitude b. */
  lemma ProductSign(m: int, y: int, b: int)
    requires b == Abs(y)
    ensures m * y == (if y < 0 then -(m * b) else m * b)
  {
    if y < 0 {
      assert y == -b;
    }
  }

  lemma NegatedProduct(n: int, b: int)
    ensures (-n) * b == -(n * b)
  {
  }

  function Abs(x: int): int { if x < 0 then -x else x }

  lemma {:induction false} MulAtLeast(q: nat, b: nat)
    requires b >= 1
    ensures q * b >= q
    ensures q * b == q ==> q == 0 || b == 1
  {
    if b > 1 {
      MulAtLeast(q, b - 1);
      assert q * b == q * (b - 1) + q;
    }
  }

  /** Natural-number division: quotient and remainder, and the quotient
      is at most the dividend (equal only for a zero dividend or divisor 1). */
  lemma NatDivision(a: nat, b: nat)
    requires b > 0
    ensures a == (a / b) * b + a % b && 0 <= a % b < b
    ensures 0 <= a / b <= a && (a / b == a ==> a == 0 || b == 1)
  {
    MulAtLeast(a / b, b);
  }

  /** A reading as printed: integer fields with %d, floating fields as the
      text the source's %f or %.2f produces for them. */
  datatype Value = Int(n: Int64) | Float(text: string)

  datatype HistogramSnapshot = HistogramSnapshot(
    count: Int64, min: Int64, max: Int64, mean: string, stdDev: string,
    p50: string, p75: string, p95: string, p99: string, p999: string)

  datatype MeterSnapshot = MeterSnapshot(
    count: Int64, rate1: string, rate5: string, rate15: string, rateMean: string)

  /** A timer's snapshot. min and max are raw nanosecond counts; the
      floating fields mean .. p999 are given as the text of the value
      already divided by the duration unit, the rates undivided. */
  datatype TimerSnapshot = TimerSnapshot(
    count: Int64, min: Int64, max: Int64, mean: string, stdDev: string,
    p50: string, p75: string, p95: string, p99: string, p999: string,
    rate1: string, rate5: string, rate15: string, rateMean: string)

  /** The registry's metric variants; Unknown stands for any other value
      the registry may hold. */
  datatype Metric =
    | Counter(count: Int64)
    | Gauge(gauge: Int64)
    | GaugeFloat64(reading: string)
    | Histogram(histogram: HistogramSnapshot)
    | Meter(meter: MeterSnapshot)
    | Timer(timer: TimerSnapshot)
    | Unknown

  /** What every line written for one registry entry shares: the
      configured prefix, the metric's name, the cycle's timestamp, the
      short hostname and the tag string. */
  datatype Head = Head(prefix: string, name: string, now: Int64, host: string, tags: string)

  datatype PutLine = PutLine(
    prefix: string, name: string, suffix: string, timestamp: Int64,
    value: Value, host: string, tags: string)

  function Put(h: Head, suffix: string, v: Value): PutLine
  {
    PutLine(h.prefix, h.name, suffix, h.now, v, h.host, h.tags)
  }

  function ValueText(v: Value): string
  {
    match v
    case Int(n) => DecimalString(n)
    case Float(text) => text
  }

  /** The text fmt.Fprintf writes for one put line. */
  function Render(l: PutLine): string
  {
    "put " + l.prefix + "." + l.name + "." + l.suffix + " " + DecimalString(l.timestamp)
    + " " + ValueText(l.value) + " host=" + l.host + " " + l.tags + "\n"
  }

  function RenderAll(ls: seq<PutLine>): seq<string>
  {
    seq(|ls|, i requires 0 <= i < |ls| => Render(ls[i]))
  }

  const HistogramSuffixes: seq<string> := ["count", "min", "max", "mean", "std-dev",
    "50-percentile", "75-percentile", "95-percentile", "99-percentile", "999-percentile"]
  const MeterSuffixes: seq<string> := ["count", "one-minute", "five-minute", "fifteen-minute", "mean"]
  const TimerRateSuffixes: seq<string> := ["one-minute", "five-minute", "fifteen-minute", "mean-rate"]

  /** The suffixes each variant reports, in the order they are written. */
  function SuffixesOf(m: Metric): seq<string>
  {
    match m
    case Counter(_) => ["count"]
    case Gauge(_) => ["value"]
    case GaugeFloat64(_) => ["value"]
    case Histogram(_) => HistogramSuffixes
    case Meter(_) => MeterSuffixes
    case Timer(_) => HistogramSuffixes + TimerRateSuffixes
    case Unknown => []
  }

  /** Number of lines each variant writes. */
  function LineCount(m: Metric): nat
  {
    match m
    case Counter(_) => 1
    case Gauge(_) => 1
    case GaugeFloat64(_) => 1
    case Histogram(_) => 10
    case Meter(_) => 5
    case Timer(_) => 14
    case Unknown => 0
  }

  /** The lines written for one registry entry, in the order of the
      source's Fprintf calls; every line carries the entry's head. Timer
      min and max are divided by the duration unit with int64 division;
      nothing is written for an unknown variant. */
  function Block(h: Head, m: Metric, du: Int64): seq<PutLine>
    requires m.Timer? ==> du != 0
  {
    match m
    case Counter(n) => [Put(h, "count", Int(n))]
    case Gauge(n) => [Put(h, "value", Int(n))]
    case GaugeFloat64(f) => [Put(h, "value", Float(f))]
    case Histogram(s) => HistogramLines(h, s)
    case Meter(s) => MeterLines(h, s)
    case Timer(t) => TimerLines(h, t, du)
    case Unknown => []
  }

  /** Every variant writes its fixed number of lines, with its suffixes in
      their fixed order, all under the entry's head; counters and gauges
      report their reading as is. */
  lemma BlockShape(h: Head, m: Metric, du: Int64)
    requires m.Timer? ==> du != 0
    ensures var b := Block(h, m, du);
            |b| == LineCount(m) == |SuffixesOf(m)| &&
            (forall i :: 0 <= i < |b| ==> b[i].suffix == SuffixesOf(m)[i] && Shares(b[i], h)) &&
            (m.Counter? ==> b[0].value == Int(m.count)) &&
            (m.Gauge? ==> b[0].value == Int(m.gauge)) &&
            (m.GaugeFloat64? ==> b[0].value == Float(m.reading))
  {
  }

  /** The line carries the head's prefix, name, timestamp, host and tags. */
  predicate Shares(l: PutLine, h: Head)
  {
    l.prefix == h.prefix && l.name == h.name && l.timestamp == h.now && l.host == h.host && l.tags == h.tags
  }

  /** The seven floating lines a histogram and a timer share: mean,
      standard deviation and the five percentiles, each with its own
      reading. */
  function StatLines(h: Head, mean: string, stdDev: string, p50: string, p75: string, p95: string, p99: string, p999: string)
    : seq<PutLine>
  {
    [Put(h, "mean", Float(mean)), Put(h, "std-dev", Float(stdDev)),
     Put(h, "50-percentile", Float(p50)), Put(h, "75-percentile", Float(p75)),
     Put(h, "95-percentile", Float(p95)), Put(h, "99-percentile", Float(p99)),
     Put(h, "999-percentile", Float(p999))]
  }

  /** Ten lines: count, min and max as integers, then mean, standard
      deviation and the five percentiles, each from its own field. */
  function HistogramLines(h: Head, s: HistogramSnapshot): (b: seq<PutLine>)
    ensures |b| == |HistogramSuffixes|
    ensures forall i :: 0 <= i < |b| ==> b[i].suffix == HistogramSuffixes[i] && Shares(b[i], h)
    ensures b[..3] == [Put(h, "count", Int(s.count)), Put(h, "min", Int(s.min)), Put(h, "max", Int(s.max))]
    ensures b[3..] == StatLines(h, s.mean, s.stdDev, s.p50, s.p75, s.p95, s.p99, s.p999)
  {
    [Put(h, "count", Int(s.count)), Put(h, "min", Int(s.min)), Put(h, "max", Int(s.max))]
    + StatLines(h, s.mean, s.stdDev, s.p50, s.p75, s.p95, s.p99, s.p999)
  }

  /** Five lines: the count as an integer, then the four rates. */
  function MeterLines(h: Head, s: MeterSnapshot): (b: seq<PutLine>)
    ensures |b| == |MeterSuffixes|
    ensures forall i :: 0 <= i < |b| ==> b[i].suffix == MeterSuffixes[i] && Shares(b[i], h)
    ensures b[0].value == Int(s.count)
    ensures b[1..] == [Put(h, "one-minute", Float(s.rate1)), Put(h, "five-minute", Float(s.rate5)),
                       Put(h, "fifteen-minute", Float(s.rate15)), Put(h, "mean", Float(s.rateMean))]
  {
    [Put(h, "count", Int(s.count)), Put(h, "one-minute", Float(s.rate1)), Put(h, "five-minute", Float(s.rate5)),
     Put(h, "fifteen-minute", Float(s.rate15)), Put(h, "mean", Float(s.rateMean))]
  }

  /** Fourteen lines: the histogram's ten, with min and max divided by the
      duration unit and the floating readings as given (already divided),
      followed by the four rates, which are not divided. */
  function TimerLines(h: Head, t: TimerSnapshot, du: Int64): (b: seq<PutLine>)
    requires du != 0
    ensures |b| == |HistogramSuffixes + TimerRateSuffixes|
    ensures forall i :: 0 <= i < |b| ==> b[i].suffix == (HistogramSuffixes + TimerRateSuffixes)[i] && Shares(b[i], h)
    ensures b[..3] == [Put(h, "count", Int(t.count)), Put(h, "min", Int(Quotient(t.min, du))),
                       Put(h, "max", Int(Quotient(t.max, du)))]
    ensures b[3..10] == StatLines(h, t.mean, t.stdDev, t.p50, t.p75, t.p95, t.p99, t.p999)
    ensures b[10..] == [Put(h, "one-minute", Float(t.rate1)), Put(h, "five-minute", Float(t.rate5)),
                        Put(h, "fifteen-minute", Float(t.rate15)), Put(h, "mean-rate", Float(t.rateMean))]
  {
    var b := [Put(h, "count", Int(t.count)), Put(h, "min", Int(Quotient(t.min, du))), Put(h, "max", Int(Quotient(t.max, du)))]
             + StatLines(h, t.mean, t.stdDev, t.p50, t.p75, t.p95, t.p99, t.p999);
    b + [Put(h, "one-minute", Float(t.rate1)), Put(h, "five-minute", Float(t.rate5)),
         Put(h, "fifteen-minute", Float(t.rate15)), Put(h, "mean-rate", Float(t.rateMean))]
  }

  /** A timer reported in milliseconds: min 5,000,000 ns prints as 5. */
  lemma MillisecondTimerExample(h: Head, t: TimerSnapshot)
    requires t.min == 5_000_000 && t.max == 7_999_999
    ensures TimerLines(h, t, 1_000_000)[1].value == Int(5)
    ensures TimerLines(h, t, 1_000_000)[2].value == Int(7)
  {
  }

  /** A registry entry: a metric under its name. */
  datatype Entry = Entry(name: string, metric: Metric)

  /** Timer lines divide by the duration unit, so with a Timer present the
      unit must not be zero. */
  predicate TimersDivisible(entries: seq<Entry>, du: Int64)
  {
    forall i :: 0 <= i < |entries| ==> entries[i].metric.Timer? ==> du != 0
  }

  function TotalLines(entries: seq<Entry>): nat
  {
    if entries == [] then 0 else TotalLines(entries[..|entries| - 1]) + LineCount(entries[|entries| - 1].metric)
  }

  /** The lines of one registry entry within a cycle. A Timer under a zero
      unit makes the source panic at its first division; no line of it is
      written here, and the operations that run a connected cycle rule the case out. */
  function EntryLines(prefix: string, e: Entry, now: Int64, host: string, tags: string, du: Int64): seq<PutLine>
  {
    if e.metric.Timer? && du == 0 then [] else Block(Head(prefix, e.name, now, host, tags), e.metric, du)
  }

  /** All lines of one cycle: the entries' blocks in iteration order. */
  function CycleLines(prefix: string, entries: seq<Entry>, now: Int64, host: string, tags: string, du: Int64)
    : seq<PutLine>
  {
    if entries == [] then []
    else
      CycleLines(prefix, entries[..|entries| - 1], now, host, tags, du)
      + EntryLines(prefix, entries[|entries| - 1], now, host, tags, du)
  }

  /** A cycle writes the sum of its entries' line counts, and every line
      carries the cycle's prefix, timestamp, host and tag string. */
  lemma {:induction false} CycleLinesShape(prefix: string, entries: seq<Entry>, now: Int64, host: string, tags: string, du: Int64)
    requires TimersDivisible(entries, du)
    ensures var r := CycleLines(prefix, entries, now, host, tags, du);
            |r| == TotalLines(entries) &&
            forall i :: 0 <= i < |r| ==>
              r[i].prefix == prefix && r[i].timestamp == now && r[i].host == host && r[i].tags == tags
  {
    if entries != [] {
      var init, last := entries[..|entries| - 1], entries[|entries| - 1];
      assert TimersDivisible(init, du) by {
        forall i | 0 <= i < |init| ensures init[i].metric.Timer? ==> du != 0 {
          assert init[i] == entries[i];
        }
      }
      CycleLinesShape(prefix, init, now, host, tags, du);
      BlockShape(Head(prefix, last.name, now, host, tags), last.metric, du);
    }
  }

  /** The lines of a cycle over two runs of entries are the lines of the
      first run followed by those of the second: blocks keep the
      registry's iteration order. */
  lemma {:induction false} CycleLinesSplit(prefix: string, es1: seq<Entry>, es2: seq<Entry>, now: Int64, host: string, tags: string, du: Int64)
    ensures CycleLines(prefix, es1 + es2, now, host, tags, du)
            == CycleLines(prefix, es1, now, host, tags, du) + CycleLines(prefix, es2, now, host, tags, du)
  {
    if es2 == [] {
      assert es1 + es2 == es1;
    } else {
      var init, last := es2[..|es2| - 1], es2[|es2| - 1];
      assert (es1 + es2)[..|es1 + es2| - 1] == es1 + init;
      assert (es1 + es2)[|es1 + es2| - 1] == last;
      var a, b := CycleLines(prefix, es1, now, host, tags, du), CycleLines(prefix, init, now, host, tags, du);
      var l := EntryLines(prefix, last, now, host, tags, du);
      assert CycleLines(prefix, es1 + es2, now, host, tags, du) == CycleLines(prefix, es1 + init, now, host, tags, du) + l;
      CycleLinesSplit(prefix, es1, init, now, host, tags, du);
      AppendAssociative(a, b, l);
    }
  }

  /** A timer's first ten lines are exactly a histogram's, for the
      snapshot whose min and max are the timer's divided by the unit. */
  lemma TimerExtendsHistogram(h: Head, t: TimerSnapshot, du: Int64)
    requires du != 0
    ensures TimerLines(h, t, du)[..10] == HistogramLines(h, HistogramSnapshot(
              t.count, Quotient(t.min, du), Quotient(t.max, du), t.mean, t.stdDev,
              t.p50, t.p75, t.p95, t.p99, t.p999))
  {
  }

  /** No line breaks in a field. */
  predicate OneLine(s: string) { '\n' !in s }

  predicate FieldsOneLine(l: PutLine)
  {
    OneLine(l.prefix) && OneLine(l.name) && OneLine(l.suffix) && OneLine(l.host) &&
    OneLine(l.tags) && (l.value.Float? ==> OneLine(l.value.text))
  }

  /** A rendered put line starts with "put " and ends with its only
      newline, as long as none of its fields holds a newline. */
  lemma RenderShape(l: PutLine)
    requires FieldsOneLine(l)
    ensures var r := Render(l);
            r[..4] == "put " && r[|r| - 1] == '\n' && CountChar(r, '\n') == 1
  {
    var body := "put " + l.prefix + "." + l.name + "." + l.suffix + " " + DecimalString(l.timestamp)
      + " " + ValueText(l.value) + " host=" + l.host + " " + l.tags;
    assert Render(l) == body + "\n";
    assert OneLine(DecimalString(l.timestamp));
    assert OneLine(ValueText(l.value)) by {
      if l.value.Int? { assert OneLine(DecimalString(l.value.n)); }
    }
    assert OneLine(body);
    CountCharAbsent(body, '\n');
    CountCharAppend(body, "\n", '\n');
  }

  function Concat(ss: seq<string>): string
  {
    if ss == [] then "" else Concat(ss[..|ss| - 1]) + ss[|ss| - 1]
  }

  /** The byte stream of a run of put lines holds exactly one newline per
      line, so the collector reads back as many lines as were written. */
  lemma {:induction false} StreamLineCount(ls: seq<PutLine>)
    requires forall i :: 0 <= i < |ls| ==> FieldsOneLine(ls[i])
    ensures CountChar(Concat(RenderAll(ls)), '\n') == |ls|
  {
    if ls != [] {
      var init := ls[..|ls| - 1];
      assert RenderAll(ls)[..|ls| - 1] == RenderAll(init);
      StreamLineCount(init);
      RenderShape(ls[|ls| - 1]);
      CountCharAppend(Concat(RenderAll(init)), Render(ls[|ls| - 1]), '\n');
    }
  }
}
