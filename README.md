# OpenTSDB exporter of go-metrics, modelled in Dafny

This project models the OpenTSDB exporter of the go-metrics library (`opentsdb.go`). On every flush tick the exporter does the following:

- It looks up the machine's short hostname. The name is cut at its first `.` unless the name starts with it, and cached process-wide.
- It takes one Unix timestamp.
- It dials the collector. On a failed dial it returns the error.
- It renders the configured tags into one string.
- It writes zero or more `put <prefix>.<name>.<suffix> <now> <value> host=<short> <tags>` lines per registry entry (none for an unknown variant) into a buffered writer, flushing after every entry.

The scheduler logs the error of a failed cycle and waits for the next tick.

There are five modules:

- `Text`:
  - `strings.Index` for a one-character needle;
  - `strings.Join`;
  - `%d` for integers, with a parser that reads it back.
- `Hostname`:
  - the cut at the first dot;
  - the cache as a function of the calls made so far.
- `Tags`:
  - the tag string;
  - the method holding the source's append loop.
- `PutLines`:
  - the metric variants;
  - one put line and its rendering;
  - the block of lines each variant writes;
  - all lines of a cycle;
  - Go's truncating `int64` division for timer min and max.
- `Exporter`:
  - the configuration;
  - a class `Exporter` holding the hostname cache, the buffered writer's pending lines and the lines already on the wire;
  - the methods for one cycle, the per-entry write and flush, and a finite run of ticks;
  - the functions and lemmas that specify them.

Three behaviours of the code are worth stating plainly:

- **Leading blanks in the tag string.** The slice of tag tokens is created holding `len(Tags)` empty strings, and the tokens are appended after them (`opentsdb.go:72-76`). So with n tags the joined string starts with n blanks, although the configuration's own comment speaks of tags "in form of key=value" (`opentsdb.go:23`). `Tags.TagStringShape` states this, and `Tags.TagStringExample` shows it for two tags.
- **An empty cache is filled again.** The cache is recomputed on every call while it holds `""` (`opentsdb.go:51`). So an OS hostname of `""` leaves the cache open, and `Hostname.CacheFirstNonEmpty` states when it becomes fixed.
- **The hostname is looked up before the dial.** A cycle whose dial fails has still filled the cache (`opentsdb.go:63-69`).

Environment inputs are passed as parameters:

- the OS hostname;
- the clock's Unix time;
- whether the dial succeeds;
- the registry's entries in its iteration order;
- the runtime's enumeration order of the tag map.

A floating-point reading appears as the text `%f` or `%.2f` would print for it.

## Model

| member | source | states |
|---|---|---|
| Text.IndexOf | opentsdb.go:53 | -1 exactly when the character is absent; otherwise the index of its first occurrence |
| Text.DecimalString | opentsdb.go:82 | `%d` text: non-empty, a leading '-' exactly for negative numbers, digits otherwise, and no leading zero |
| Text.Join | opentsdb.go:76 | `strings.Join`: the parts with the separator between neighbours |
| Text.DecimalRoundTrip | opentsdb.go:82 | the `%d` text of every integer reads back as that integer |
| Hostname.ShortName | opentsdb.go:53-57 | a prefix of the host; empty only for an empty host; the whole host when there is no dot or the dot is first; otherwise the part before the first dot, which holds no dot |
| Hostname.CachedHost | opentsdb.go:50-60 | one getShortHostname call: the cache when it is non-empty, otherwise the short form of the OS hostname |
| Hostname.ShortNameIdempotent | opentsdb.go:53-57 | cutting a short name again changes nothing |
| Hostname.CacheWriteOnce | opentsdb.go:50-60 | once the cache is non-empty, no later sequence of calls changes it |
| Hostname.CacheStaysEmpty | opentsdb.go:50-60 | while the OS reports "" as its hostname, the cache stays empty |
| Hostname.CacheFirstNonEmpty | opentsdb.go:50-60 | starting from an empty cache, it ends as the short form of the first non-empty OS hostname, whatever comes after |
| Tags.Tokens | opentsdb.go:73-74 | one `key=value` token per enumerated key, in enumeration order |
| Tags.TagString | opentsdb.go:72-76 | the tag string: `len(Tags)` empty strings followed by the tokens, joined with single spaces |
| Tags.RenderTags | opentsdb.go:72-76 | the append loop produces exactly the blanks-then-tokens string joined by spaces |
| Tags.EnumerationLength | opentsdb.go:72-73 | an enumeration of the map's keys has one entry per tag |
| Tags.JoinAfterBlanks | opentsdb.go:72-76 | joining n empty strings before non-empty tokens gives n spaces before the joined tokens |
| Tags.TagStringShape | opentsdb.go:72-76 | "" without tags; otherwise one leading space per tag, then the tokens joined by single spaces, with every key in exactly its own token |
| Tags.TagStringExample | opentsdb.go:72-76 | two tags render as two blanks followed by `env=prod dc=eu` |
| PutLines.Quotient | opentsdb.go:111-112 | Go's int64 `/`: the remainder is smaller than the divisor and has the dividend's sign; `MinInt64 / -1` wraps to `MinInt64` |
| PutLines.TruncatedDivision | opentsdb.go:111-112 | truncating division leaves a remainder with the dividend's sign and never grows the magnitude |
| PutLines.Render | opentsdb.go:82-123 | the text of the Fprintf format: `put <prefix>.<name>.<suffix> <now> <value> host=<short> <tags>` and a newline, integers by `%d` |
| PutLines.Block | opentsdb.go:80-124 | the type switch: each variant's lines in the order of its Fprintf calls, none for an unknown variant |
| PutLines.BlockShape | opentsdb.go:80-124 | each variant writes its fixed number of lines (1, 1, 1, 10, 5, 14, 0), with its suffixes in order, under the entry's head; counter and gauge values are passed through unchanged |
| PutLines.HistogramLines | opentsdb.go:87-99 | ten lines count..999-percentile: count, min and max as integers, then mean, std-dev and the five percentiles, each from its own field |
| PutLines.MeterLines | opentsdb.go:100-106 | five lines; the count, then the four rates with their own suffixes |
| PutLines.TimerLines | opentsdb.go:107-123 | fourteen lines: count, then min and max divided by the unit with int64 division; mean, std-dev and the five percentiles each from its own (already divided) field; the four rate lines not divided |
| PutLines.TimerExtendsHistogram | opentsdb.go:107-123 | a timer's first ten lines are the histogram block of the snapshot with min and max divided by the unit |
| PutLines.MillisecondTimerExample | opentsdb.go:111-112 | with a unit of 1,000,000, min 5,000,000 prints 5 and max 7,999,999 prints 7 |
| PutLines.CycleLinesShape | opentsdb.go:64-126 | a cycle writes the sum of its entries' line counts, and every line has the cycle's prefix, timestamp, host and tag string |
| PutLines.CycleLinesSplit | opentsdb.go:79-126 | the lines of a cycle are the blocks of its entries in registry order |
| PutLines.RenderShape | opentsdb.go:82-123 | a rendered line starts with "put " and ends with its only newline, provided no field holds one |
| PutLines.StreamLineCount | opentsdb.go:82-125 | the stream of rendered lines holds exactly one newline per put line |
| Exporter.DefaultConfig | opentsdb.go:29-38 | OpenTSDB's configuration: the given prefix and tags, with durations in nanoseconds |
| Exporter.DefaultConfigKeepsTimerExtremes | opentsdb.go:29-38 | under OpenTSDB's nanosecond unit, timer min and max are written undivided |
| Exporter.FailureLogCounts | opentsdb.go:43-47 | one log entry per refused dial, each the reason of one refused tick |
| Exporter.CachedRunUsesOneHost | opentsdb.go:50-60 | with a filled cache, every cycle of a run reports that one host, whatever the OS reports |
| Exporter.RunTextSnoc | opentsdb.go:43-46 | one more tick appends that tick's cycle text, under the host the cache holds after its lookup |
| Exporter.CacheSnoc | opentsdb.go:63 | every tick makes exactly one hostname lookup |
| Exporter.EmittedSnoc | opentsdb.go:79-126 | one more registry entry appends exactly that entry's rendered lines |
| Exporter.Exporter.constructor | opentsdb.go:13 | the cache starts empty and nothing has been written |
| Exporter.Exporter.GetShortHostname | opentsdb.go:50-60 | returns and stores the cached value; it computes the short name only while the cache is empty |
| Exporter.Exporter.Write | opentsdb.go:82-123 | the Fprintf calls append exactly the given lines to the buffered writer |
| Exporter.Exporter.Flush | opentsdb.go:125 | everything buffered reaches the wire, and the buffer empties |
| Exporter.Exporter.Cycle | opentsdb.go:62-128 | the cache is updated before the dial; a refused dial returns its error with nothing written; otherwise the cycle returns no error and the wire gains exactly the cycle's lines, nothing left buffered |
| Exporter.Exporter.WriteEntries | opentsdb.go:79-126 | after the Each loop, the wire holds all entries' lines in registry order, and the buffer is empty |
| Exporter.Exporter.WriteEntry | opentsdb.go:80-125 | one entry's lines are written and flushed, unknown variants included (no lines, still flushed) |
| Exporter.Exporter.Run | opentsdb.go:42-48 | over a run of ticks: the log is one entry per refused dial, the cache is as the calls left it, the wire is the run's text; it starts and ends with an empty buffer, as each cycle's writer is its own |
| Exporter.Exporter.OnTick | opentsdb.go:43-46 | one tick runs one cycle and logs its error, if any; it starts and ends with an empty buffer |

## Left out

- TCP dialing, `conn.Close` and the `bufio` writer internals are not modelled. The dial is an input outcome, and the writer is a sequence of pending lines moved to the wire on flush.
- Write errors on the connection are not modelled. `Fprintf` and `Flush` errors are ignored by the source.
- The `time.Tick` loop never ends. It is modelled as a finite sequence of ticks, and `log.Println` as appending to a log sequence.
- `time.Now().Unix()` and `os.Hostname()` are parameters. The error `os.Hostname` returns is ignored, as in the source.
- Floating-point formatting and the float divisions `Mean()/du`, `StdDev()/du` and `ps[i]/du` are not modelled. Readings are opaque text, and timer mean, std-dev and percentiles are given already divided.
- `int64(float64(DurationUnit))` is taken as exact. For units beyond 2^53 the float round trip could change the divisor; no time unit comes near that.
- The metric types, their snapshots and percentile computations, and the order of `Registry.Each` are not modelled; the entries arrive as an input sequence of variant values.
- The type switch over overlapping interfaces is not modelled. A value is taken to match exactly one variant, or none (`Unknown`).
- Go's map iteration order is not modelled. It is an input sequence that enumerates every key exactly once.
- Hostnames are sequences of characters, where Go indexes bytes. For ASCII hostnames the two agree.
- A zero duration unit with a Timer in the registry makes a connected cycle panic. The panic comes when `Each` reaches that timer's first division (`opentsdb.go:111`), after the earlier entries have been flushed. The model does not capture this partial output or the panic. `Cycle` and the tick operations require a non-zero unit in that case only when the dial succeeds; a refused dial returns its error whatever the unit. `PutLines.EntryLines` writes nothing for such a timer.
- Concurrency is not modelled. The source's unsynchronised access to the global cache from several exporters is out of scope.
- PutLines.BlockShape: states values only for the single-line variants. The values of the multi-line variants are stated by the contracts of PutLines.HistogramLines, PutLines.MeterLines and PutLines.TimerLines.
