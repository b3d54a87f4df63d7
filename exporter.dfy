/** The export adapter itself (opentsdb.go): the process-wide short
    hostname cache, the buffered writer flushed after every registry
    entry, one export cycle (openTSDB) and the scheduler loop that runs a
    cycle per tick and logs its errors (OpenTSDBWithConfig). */
module Exporter {
  import opened Text
  import opened Hostname
  import opened Tags
  import opened PutLines

  /** time.Nanosecond, the duration unit OpenTSDB configures. */
  const Nanosecond: Int64 := 1

  /** What an export cycle reads of OpenTSDBConfig. The address, the
      registry handle and the flush interval are not fields of the model:
      the dial outcome, the registry's entries and the ticks are given to
      the operations instead. */
  datatype Config = Config(prefix: string, durationUnit: Int64, tags: map<string, string>)

  /** OpenTSDB: the given prefix and tags, durations in nanoseconds. */
  function DefaultConfig(prefix: string, tags: map<string, string>): Config
  {
    Config(prefix, Nanosecond, tags)
  }

  /** Under the default configuration a timer's min and max lines carry
      its raw nanosecond values. */
  lemma DefaultConfigKeepsTimerExtremes(prefix: string, tags: map<string, string>, h: Head, t: TimerSnapshot)
    ensures var b := TimerLines(h, t, DefaultConfig(prefix, tags).durationUnit);
            b[1].value == Int(t.min) && b[2].value == Int(t.max)
  {
  }

  /** Outcome of net.DialTCP. */
  datatype Dial = Connected | Refused(reason: string)

  /** What openTSDB returns: nil, or the dial error. */
  datatype Outcome = Done | Failed(reason: string)

  /** The text one successful cycle puts on the wire, line by line. */
  function CycleText(c: Config, host: string, now: Int64, entries: seq<Entry>, tagOrder: seq<string>): seq<string>
    requires EnumeratesKeys(tagOrder, c.tags)
  {
    Emitted(c.prefix, entries, now, host, TagString(c.tags, tagOrder), c.durationUnit)
  }

  /** What the environment supplies to one tick: the OS hostname, the
      clock, the dial outcome, the registry's entries in its iteration
      order and the runtime's order for the tag map. */
  datatype Tick = Tick(osHostname: string, now: Int64, dial: Dial, entries: seq<Entry>, tagOrder: seq<string>)

  /** What a tick's cycle relies on once its dial succeeds: the tag order
      enumerates the configured tags, and no timer is divided by a zero
      unit. A refused dial returns before tags or timers are touched. */
  predicate TickFits(c: Config, t: Tick)
  {
    t.dial.Connected? ==> EnumeratesKeys(t.tagOrder, c.tags) && TimersDivisible(t.entries, c.durationUnit)
  }

  predicate TicksFit(c: Config, ticks: seq<Tick>)
  {
    forall i :: 0 <= i < |ticks| ==> TickFits(c, ticks[i])
  }

  /** The OS hostnames the ticks report, one lookup per tick. */
  function Hostnames(ticks: seq<Tick>): seq<string>
  {
    seq(|ticks|, i requires 0 <= i < |ticks| => ticks[i].osHostname)
  }

  /** The log of a run of ticks: one entry per refused dial, in order. */
  function FailureLog(ticks: seq<Tick>): seq<string>
  {
    if ticks == [] then []
    else
      var last := ticks[|ticks| - 1];
      FailureLog(ticks[..|ticks| - 1]) + (if last.dial.Refused? then [last.dial.reason] else [])
  }

  /** Number of ticks whose dial was refused. */
  function Refusals(ticks: seq<Tick>): nat
  {
    if ticks == [] then 0 else (if ticks[0].dial.Refused? then 1 else 0) + Refusals(ticks[1..])
  }

  /** Exactly one log entry per refused dial, and every one of them is the
      reason of some refused tick: no tick's error stops the run. */
  lemma {:induction false} FailureLogCounts(ticks: seq<Tick>)
    ensures |FailureLog(ticks)| == Refusals(ticks)
    ensures forall k :: 0 <= k < |FailureLog(ticks)| ==>
              exists j :: 0 <= j < |ticks| && ticks[j].dial == Refused(FailureLog(ticks)[k])
  {
    if ticks != [] {
      var init, last := ticks[..|ticks| - 1], ticks[|ticks| - 1];
      FailureLogCounts(init);
      RefusalsSnoc(init, last);
      assert ticks == init + [last];
      forall k | 0 <= k < |FailureLog(ticks)|
        ensures exists j :: 0 <= j < |ticks| && ticks[j].dial == Refused(FailureLog(ticks)[k])
      {
        if k < |FailureLog(init)| {
          var j :| 0 <= j < |init| && init[j].dial == Refused(FailureLog(init)[k]);
          assert ticks[j] == init[j];
        } else {
          assert ticks[|ticks| - 1].dial == Refused(FailureLog(ticks)[k]);
        }
      }
    }
  }

  lemma {:induction false} RefusalsSnoc(ticks: seq<Tick>, t: Tick)
    ensures Refusals(ticks + [t]) == Refusals(ticks) + (if t.dial.Refused? then 1 else 0)
  {
    if ticks == [] {
      assert [] + [t] == [t];
    } else {
      assert (ticks + [t])[1..] == ticks[1..] + [t];
      RefusalsSnoc(ticks[1..], t);
    }
  }

  /** What one tick puts on the wire: its cycle's text when the dial
      succeeds, nothing otherwise. */
  function TickText(c: Config, host: string, t: Tick): seq<string>
    requires TickFits(c, t)
  {
    if t.dial.Connected? then CycleText(c, host, t.now, t.entries, t.tagOrder) else []
  }

  /** The text a run of ticks puts on the wire, starting from the given
      cache: each tick's text, with the host the cache holds at that tick. */
  function RunText(c: Config, cache: string, ticks: seq<Tick>): seq<string>
    requires TicksFit(c, ticks)
  {
    if ticks == [] then []
    else
      var init, last := ticks[..|ticks| - 1], ticks[|ticks| - 1];
      RunText(c, cache, init) + TickText(c, CachedHost(CacheAfter(cache, Hostnames(init)), last.osHostname), last)
  }

  /** Every tick's text with one fixed host. */
  function FixedHostText(c: Config, host: string, ticks: seq<Tick>): seq<string>
    requires TicksFit(c, ticks)
  {
    if ticks == [] then []
    else
      var init := ticks[..|ticks| - 1];
      FixedHostText(c, host, init) + TickText(c, host, ticks[|ticks| - 1])
  }

  /** Once the cache holds a name, every later cycle reports that name,
      whatever the OS says its hostname is. */
  lemma {:induction false} CachedRunUsesOneHost(c: Config, cache: string, ticks: seq<Tick>)
    requires TicksFit(c, ticks) && cache != ""
    ensures RunText(c, cache, ticks) == FixedHostText(c, cache, ticks)
  {
    if ticks != [] {
      var init := ticks[..|ticks| - 1];
      TicksFitPrefix(c, ticks, |ticks| - 1);
      CacheWriteOnce(cache, Hostnames(init));
      CachedRunUsesOneHost(c, cache, init);
    }
  }

  lemma TicksFitPrefix(c: Config, ticks: seq<Tick>, n: nat)
    requires TicksFit(c, ticks) && n <= |ticks|
    ensures TicksFit(c, ticks[..n])
  {
    var pre := ticks[..n];
    forall j | 0 <= j < n
      ensures TickFits(c, pre[j])
    {
      assert pre[j] == ticks[j];
    }
  }

  /** One more tick appends that tick's text, with the host the cache
      holds after the tick's own hostname lookup. */
  lemma RunTextSnoc(c: Config, cache: string, ticks: seq<Tick>, i: nat)
    requires TicksFit(c, ticks) && i < |ticks|
    ensures TicksFit(c, ticks[..i]) && TicksFit(c, ticks[..i + 1])
    ensures RunText(c, cache, ticks[..i + 1])
            == RunText(c, cache, ticks[..i])
               + TickText(c, CachedHost(CacheAfter(cache, Hostnames(ticks[..i])), ticks[i].osHostname), ticks[i])
  {
    TicksFitPrefix(c, ticks, i);
    TicksFitPrefix(c, ticks, i + 1);
    assert ticks[..i + 1][..i] == ticks[..i];
  }

  /** One more tick makes one more hostname lookup. */
  lemma CacheSnoc(cache: string, ticks: seq<Tick>, i: nat)
    requires i < |ticks|
    ensures CacheAfter(cache, Hostnames(ticks[..i + 1]))
            == CachedHost(CacheAfter(cache, Hostnames(ticks[..i])), ticks[i].osHostname)
  {
    assert Hostnames(ticks[..i + 1]) == Hostnames(ticks[..i]) + [ticks[i].osHostname];
    CacheAfterAppend(cache, Hostnames(ticks[..i]), ticks[i].osHostname);
  }

  /** One more tick logs its dial error, if any. */
  lemma FailureLogSnoc(ticks: seq<Tick>, i: nat)
    requires i < |ticks|
    ensures FailureLog(ticks[..i + 1])
            == FailureLog(ticks[..i]) + (if ticks[i].dial.Refused? then [ticks[i].dial.reason] else [])
  {
    assert ticks[..i + 1][..i] == ticks[..i];
  }

  /** One more call after a series of calls. */
  lemma {:induction false} CacheAfterAppend(cache: string, hs: seq<string>, h: string)
    ensures CacheAfter(cache, hs + [h]) == CachedHost(CacheAfter(cache, hs), h)
    decreases |hs|
  {
    if hs == [] {
      assert hs + [h] == [h];
    } else {
      assert (hs + [h])[1..] == hs[1..] + [h];
      CacheAfterAppend(CachedHost(cache, hs[0]), hs[1..], h);
    }
  }

  /** The rendered lines of a cycle over the given entries. */
  function Emitted(prefix: string, entries: seq<Entry>, now: Int64, host: string, tags: string, du: Int64): seq<string>
  {
    RenderAll(CycleLines(prefix, entries, now, host, tags, du))
  }

  /** Emitting one more entry appends exactly that entry's rendered lines. */
  lemma EmittedSnoc(prefix: string, entries: seq<Entry>, i: nat, now: Int64, host: string, tags: string, du: Int64)
    requires i < |entries|
    ensures Emitted(prefix, entries[..i + 1], now, host, tags, du)
            == Emitted(prefix, entries[..i], now, host, tags, du)
               + RenderAll(EntryLines(prefix, entries[i], now, host, tags, du))
  {
    assert entries[..i + 1][..i] == entries[..i];
    RenderAllAppend(CycleLines(prefix, entries[..i], now, host, tags, du),
                    EntryLines(prefix, entries[i], now, host, tags, du));
  }

  class Exporter {
    /** The package-level short hostname cache; "" while unset. */
    var shortHostName: string
    /** Every line that has reached the collector. */
    var wire: seq<string>
    /** Lines written to the buffered writer and not yet flushed. */
    var buffered: seq<string>

    constructor ()
      ensures shortHostName == "" && wire == [] && buffered == []
    {
      shortHostName := "";
      wire := [];
      buffered := [];
    }

    /** getShortHostname: compute and store the short name only while the
        cache is empty; return the cache. */
    method GetShortHostname(osHostname: string) returns (r: string)
      modifies this`shortHostName
      ensures r == shortHostName == CachedHost(old(shortHostName), osHostname)
      ensures old(shortHostName) != "" ==> r == old(shortHostName)
    {
      if shortHostName == "" {
        var index := IndexOf(osHostname, '.');
        if index > 0 {
          shortHostName := osHostname[..index];
        } else {
          shortHostName := osHostname;
        }
      }
      r := shortHostName;
    }

    /** The Fprintf calls for one registry entry, into the buffer. */
    method Write(lines: seq<string>)
      modifies this`buffered
      ensures buffered == old(buffered) + lines
    {
      buffered := buffered + lines;
    }

    /** w.Flush: everything buffered goes onto the wire. */
    method Flush()
      modifies this`buffered, this`wire
      ensures wire == old(wire) + old(buffered) && buffered == []
    {
      wire := wire + buffered;
      buffered := [];
    }

    /** One export cycle (openTSDB). The hostname cache is consulted (and
        filled) before dialing; a refused dial returns its error with
        nothing written. Otherwise every entry's block is written and
        flushed in iteration order, and the cycle returns no error. */
    method Cycle(c: Config, osHostname: string, now: Int64, dial: Dial, entries: seq<Entry>, tagOrder: seq<string>)
      returns (result: Outcome)
      requires dial.Connected? ==> EnumeratesKeys(tagOrder, c.tags) && TimersDivisible(entries, c.durationUnit)
      modifies this
      ensures shortHostName == CachedHost(old(shortHostName), osHostname)
      ensures dial.Refused? ==> result == Failed(dial.reason) && wire == old(wire) && buffered == old(buffered)
      ensures dial.Connected? ==>
                result == Done && buffered == [] &&
                wire == old(wire) + Emitted(c.prefix, entries, now, shortHostName, TagString(c.tags, tagOrder), c.durationUnit)
    {
      var host := GetShortHostname(osHostname);
      if dial.Refused? {
        return Failed(dial.reason);
      }
      var tags := RenderTags(c.tags, tagOrder);
      buffered := [];
      WriteEntries(c.prefix, entries, now, host, tags, c.durationUnit);
      return Done;
    }

    /** The Registry.Each callback over all entries: each entry's block is
        written to the buffered writer, which is flushed after every entry. */
    method WriteEntries(prefix: string, entries: seq<Entry>, now: Int64, host: string, tags: string, du: Int64)
      requires TimersDivisible(entries, du)
      requires buffered == []
      modifies this`buffered, this`wire
      ensures buffered == []
      ensures wire == old(wire) + Emitted(prefix, entries, now, host, tags, du)
    {
      for i := 0 to |entries|
        invariant buffered == []
        invariant wire == old(wire) + Emitted(prefix, entries[..i], now, host, tags, du)
      {
        EmittedSnoc(prefix, entries, i, now, host, tags, du);
        ghost var done := Emitted(prefix, entries[..i], now, host, tags, du);
        WriteEntry(prefix, entries[i], now, host, tags, du);
        AppendAssociative(old(wire), done, RenderAll(EntryLines(prefix, entries[i], now, host, tags, du)));
      }
      assert entries[..|entries|] == entries;
    }

    /** One call of the Registry.Each callback: the entry's lines go to the
        buffered writer, which is then flushed. */
    method WriteEntry(prefix: string, e: Entry, now: Int64, host: string, tags: string, du: Int64)
      requires e.metric.Timer? ==> du != 0
      requires buffered == []
      modifies this`buffered, this`wire
      ensures buffered == []
      ensures wire == old(wire) + RenderAll(EntryLines(prefix, e, now, host, tags, du))
    {
      Write(RenderAll(Block(Head(prefix, e.name, now, host, tags), e.metric, du)));
      Flush();
    }

    /** The scheduler (OpenTSDBWithConfig) over a finite run of ticks: one
        cycle per tick; a cycle's error is logged and the next tick still
        runs. */
    method Run(c: Config, ticks: seq<Tick>) returns (log: seq<string>)
      requires TicksFit(c, ticks)
      requires buffered == []
      modifies this
      ensures log == FailureLog(ticks)
      ensures buffered == []
      ensures shortHostName == CacheAfter(old(shortHostName), Hostnames(ticks))
      ensures wire == old(wire) + RunText(c, old(shortHostName), ticks)
    {
      log := [];
      for i := 0 to |ticks|
        invariant TicksFit(c, ticks[..i])
        invariant log == FailureLog(ticks[..i])
        invariant buffered == []
        invariant shortHostName == CacheAfter(old(shortHostName), Hostnames(ticks[..i]))
        invariant wire == old(wire) + RunText(c, old(shortHostName), ticks[..i])
      {
        RunTextSnoc(c, old(shortHostName), ticks, i);
        CacheSnoc(old(shortHostName), ticks, i);
        FailureLogSnoc(ticks, i);
        ghost var done := RunText(c, old(shortHostName), ticks[..i]);
        log := OnTick(c, ticks[i], log);
        AppendAssociative(old(wire), done, TickText(c, shortHostName, ticks[i]));
      }
      assert ticks[..|ticks|] == ticks;
    }

    /** One tick of the scheduler: run a cycle, and log its error if any. */
    method OnTick(c: Config, t: Tick, log: seq<string>) returns (log': seq<string>)
      requires TickFits(c, t)
      requires buffered == []
      modifies this
      ensures shortHostName == CachedHost(old(shortHostName), t.osHostname)
      ensures buffered == []
      ensures wire == old(wire) + TickText(c, shortHostName, t)
      ensures log' == log + (if t.dial.Refused? then [t.dial.reason] else [])
    {
      var err := Cycle(c, t.osHostname, t.now, t.dial, t.entries, t.tagOrder);
      log' := log;
      if err.Failed? {
        log' := log' + [err.reason];
      }
    }
  }

  lemma RenderAllAppend(a: seq<PutLine>, b: seq<PutLine>)
    ensures RenderAll(a + b) == RenderAll(a) + RenderAll(b)
  {
  }
}
