/** The speed test's trailing window: an in-place queue against the whole sample history. */
module SpeedWindow {
  import opened Bytes

  datatype Sample = Sample(ms: int, bytes: int)

  const WINDOW_MS := 800
  const EMIT_MS := 80

  function Mbps(bytes: int, ms: int): real
    requires ms != 0
  {
    (bytes as real * 8.0 / 1000000.0) / (ms as real / 1000.0)
  }

  lemma MbpsInUnits(bytes: int, ms: int)
    requires ms != 0
    ensures Mbps(bytes, ms) * ms as real * 1000.0 == bytes as real * 8.0
  {
    var p, q := bytes as real * 8.0 / 1000000.0, ms as real / 1000.0;
    assert (p / q) * q == p;
  }

  /** Rate from the first to the last sample of a window; 0 when no time has passed. */
  function RateOf(w: seq<Sample>): real
    requires w != []
  {
    var first, last := w[0], w[|w| - 1];
    if last.ms - first.ms <= 0 then 0.0 else Mbps(last.bytes - first.bytes, last.ms - first.ms)
  }

  /** What the dropping loop leaves of a window whose last sample is the newest. */
  function Trimmed(w: seq<Sample>): seq<Sample> {
    if |w| > 2 && w[|w| - 1].ms - w[0].ms > WINDOW_MS then Trimmed(w[1..]) else w
  }

  class RateWindow {
    var samples: seq<Sample>

    constructor ()
      ensures samples == []
    {
      samples := [];
    }

    /** _windowRate. */
    method Add(ms: int, bytes: int) returns (rate: real)
      modifies this
      ensures samples == Trimmed(old(samples) + [Sample(ms, bytes)])
      ensures samples != [] && rate == RateOf(samples)
      // In units: bytes times 8 are bits, milliseconds a thousandth of a second, and the rate is in
      // millions of bits per second.
      ensures samples[|samples| - 1] == Sample(ms, bytes)
      ensures var dt, db := ms - samples[0].ms, bytes - samples[0].bytes;
        if dt > 0 then rate * dt as real * 1000.0 == db as real * 8.0 else rate == 0.0
    {
      samples := samples + [Sample(ms, bytes)];
      while |samples| > 2 && ms - samples[0].ms > WINDOW_MS
        invariant samples != [] && samples[|samples| - 1] == Sample(ms, bytes)
        invariant Trimmed(samples) == Trimmed(old(samples) + [Sample(ms, bytes)])
        decreases |samples|
      {
        samples := samples[1..];
      }
      var dt := ms - samples[0].ms;
      var db := bytes - samples[0].bytes;
      if dt <= 0 { return 0.0; }
      MbpsInUnits(db, dt);
      return (db as real * 8.0 / 1000000.0) / (dt as real / 1000.0);
    }
  }

  // ---- the window as a function of the history ----

  /** What successive calls leave, sample by sample. */
  function Windowed(h: seq<Sample>): seq<Sample> {
    if h == [] then [] else Trimmed(Windowed(h[..|h| - 1]) + [h[|h| - 1]])
  }

  predicate Recent(h: seq<Sample>, i: nat)
    requires i < |h|
  {
    h[|h| - 1].ms - h[i].ms <= WINDOW_MS
  }

  /** The first sample from `i` on that is at most 800 ms older than the newest. */
  function FirstRecent(h: seq<Sample>, i: nat): (k: nat)
    requires i < |h|
    ensures i <= k < |h| && Recent(h, k)
    ensures forall j :: i <= j < k ==> !Recent(h, j)
    decreases |h| - i
  {
    if Recent(h, i) then i else FirstRecent(h, i + 1)
  }

  /** Where the window starts: at the first recent sample, but never past the last two. */
  function Start(h: seq<Sample>): (k: nat)
    ensures k <= |h|
  {
    if |h| <= 2 then 0 else
    var k := FirstRecent(h, 0);
    if k <= |h| - 2 then k else |h| - 2
  }

  predicate Monotone(h: seq<Sample>) {
    forall i, j :: 0 <= i <= j < |h| ==> h[i].ms <= h[j].ms
  }

  lemma {:induction false} TrimmedFrom(h: seq<Sample>, i: nat)
    requires h != [] && i <= Start(h)
    ensures Trimmed(h[i..]) == h[Start(h)..]
    decreases |h| - i
  {
    if i < Start(h) {
      assert !Recent(h, i);
      assert h[i..][1..] == h[i + 1..];
      TrimmedFrom(h, i + 1);
    }
  }

  /** A new sample never brings a dropped one back. */
  lemma StartAdvances(h: seq<Sample>)
    requires Monotone(h) && h != []
    ensures Start(h[..|h| - 1]) <= Start(h)
  {
    var front := h[..|h| - 1];
    if |front| > 2 {
      assert front[|front| - 1].ms <= h[|h| - 1].ms;
      assert forall j :: 0 <= j < |front| && !Recent(front, j) ==> !Recent(h, j);
    }
  }

  lemma TailAppended(front: seq<Sample>, last: Sample, k: nat)
    requires k <= |front|
    ensures front[k..] + [last] == (front + [last])[k..]
  {
  }

  /** In milliseconds: what is kept, beyond the last two samples, is at most 800 old, and what is
      dropped is older. */
  lemma StartInMilliseconds(h: seq<Sample>, i: nat)
    requires Monotone(h) && i < |h|
    ensures if i < Start(h) then h[|h| - 1].ms - h[i].ms > 800 && i < |h| - 2
            else h[|h| - 1].ms - h[i].ms <= 800 || i >= |h| - 2
  {
    assert i < Start(h) ==> !Recent(h, i);
    if |h| > 2 && i >= Start(h) && i < |h| - 2 { assert Recent(h, Start(h)); }
  }

  /** The in-place window is, at every moment, the part of the whole history from `Start` on:
      the longest suffix no older than 800 ms, or the last two samples if that is shorter. */
  lemma {:induction false} WindowIsSuffix(h: seq<Sample>)
    requires Monotone(h)
    ensures Windowed(h) == h[Start(h)..]
    ensures forall i :: Start(h) <= i < |h| && |h| - Start(h) > 2 ==> Recent(h, i)
    ensures forall i :: 0 <= i < Start(h) ==> !Recent(h, i)
  {
    if h != [] {
      var front, last := h[..|h| - 1], h[|h| - 1];
      WindowIsSuffix(front);
      StartAdvances(h);
      TailAppended(front, last, Start(front));
      assert front + [last] == h;
      TrimmedFrom(h, Start(front));
    }
  }

  // ---- gated samples ----

  /** Consecutive samples at least 80 ms apart, and byte counts that never fall. */
  predicate Gated(h: seq<Sample>) {
    forall j, i :: 0 <= j < |h| && 0 <= i < j && j == i + 1 ==> h[j].ms - h[i].ms >= EMIT_MS && h[j].bytes >= h[i].bytes
  }

  lemma {:induction false} Spaced(h: seq<Sample>, i: nat, j: nat)
    requires Gated(h) && i <= j < |h|
    ensures h[j].ms - h[i].ms >= EMIT_MS * (j - i)
    decreases j - i
  {
    if i < j {
      Spaced(h, i, j - 1);
    }
  }

  lemma GatedIsMonotone(h: seq<Sample>)
    requires Gated(h)
    ensures Monotone(h)
  {
    forall i, j | 0 <= i <= j < |h| ensures h[i].ms <= h[j].ms {
      Spaced(h, i, j);
    }
  }

  /** With the 80 ms gate the window never holds more than 11 samples. */
  lemma WindowIsSmall(h: seq<Sample>)
    requires Gated(h)
    ensures |Windowed(h)| <= 11
  {
    GatedIsMonotone(h);
    WindowIsSuffix(h);
    if |h| - Start(h) > 2 {
      assert Recent(h, Start(h));
      Spaced(h, Start(h), |h| - 1);
    }
  }

  // ---- the rate ----

  function IntervalRate(w: seq<Sample>, i: nat): real
    requires i + 1 < |w| && w[i + 1].ms > w[i].ms
  {
    Mbps(w[i + 1].bytes - w[i].bytes, w[i + 1].ms - w[i].ms)
  }

  predicate Increasing(w: seq<Sample>) {
    forall i, j :: 0 <= i < j < |w| ==> w[i].ms < w[j].ms
  }

  lemma QuotientLe(p: real, q: real, r: real)
    requires q > 0.0
    ensures p / q <= r <==> p <= r * q
    ensures r <= p / q <==> r * q <= p
  {
    assert (p / q) * q == p;
    if p / q <= r { assert (p / q) * q <= r * q; } else { assert (p / q) * q > r * q; }
    if r <= p / q { assert r * q <= (p / q) * q; } else { assert r * q > (p / q) * q; }
  }

  /** A bound on two rates bounds the rate over both intervals. */
  lemma Mediant(a: int, s: int, b: int, t: int, low: real, high: real)
    requires s > 0 && t > 0
    requires low <= Mbps(a, s) <= high && low <= Mbps(b, t) <= high
    ensures low <= Mbps(a + b, s + t) <= high
  {
    var p, q := a as real * 8.0 / 1000000.0, s as real / 1000.0;
    var u, v := b as real * 8.0 / 1000000.0, t as real / 1000.0;
    QuotientLe(p, q, low);
    QuotientLe(p, q, high);
    QuotientLe(u, v, low);
    QuotientLe(u, v, high);
    assert low * (q + v) == low * q + low * v && high * (q + v) == high * q + high * v;
    QuotientLe(p + u, q + v, low);
    QuotientLe(p + u, q + v, high);
    assert (a + b) as real * 8.0 / 1000000.0 == p + u && (s + t) as real / 1000.0 == q + v;
  }

  lemma {:induction false} RateBounded(w: seq<Sample>, low: real, high: real)
    requires |w| >= 2 && Increasing(w)
    requires forall i :: 0 <= i < |w| - 1 ==> low <= IntervalRate(w, i) <= high
    ensures low <= RateOf(w) <= high
  {
    var n := |w| - 1;
    if n == 1 {
      assert low <= IntervalRate(w, 0) <= high;
    } else {
      var front := w[..n];
      forall i | 0 <= i < |front| - 1 ensures low <= IntervalRate(front, i) <= high {
        assert IntervalRate(front, i) == IntervalRate(w, i);
      }
      RateBounded(front, low, high);
      assert low <= IntervalRate(w, n - 1) <= high;
      Mediant(w[n - 1].bytes - w[0].bytes, w[n - 1].ms - w[0].ms,
              w[n].bytes - w[n - 1].bytes, w[n].ms - w[n - 1].ms, low, high);
    }
  }

  /** The slowest interval, when `up` is false, or the fastest. */
  function Extreme(w: seq<Sample>, n: nat, up: bool): (k: nat)
    requires 1 <= n < |w| && Increasing(w)
    ensures k < n
    ensures forall i :: 0 <= i < n ==>
      if up then IntervalRate(w, i) <= IntervalRate(w, k) else IntervalRate(w, k) <= IntervalRate(w, i)
  {
    if n == 1 then 0
    else
      var k := Extreme(w, n - 1, up);
      if (if up then IntervalRate(w, n - 1) > IntervalRate(w, k) else IntervalRate(w, n - 1) < IntervalRate(w, k))
      then n - 1 else k
  }

  ghost predicate BetweenIntervals(w: seq<Sample>)
    requires |w| >= 2 && Increasing(w)
  {
    exists i, j :: 0 <= i < |w| - 1 && 0 <= j < |w| - 1 && IntervalRate(w, i) <= RateOf(w) <= IntervalRate(w, j)
  }

  lemma RateBetween(w: seq<Sample>)
    requires |w| >= 2 && Increasing(w)
    ensures BetweenIntervals(w)
  {
    var i, j := Extreme(w, |w| - 1, false), Extreme(w, |w| - 1, true);
    RateBounded(w, IntervalRate(w, i), IntervalRate(w, j));
  }

  lemma GatedWindow(h: seq<Sample>)
    requires Gated(h) && h != []
    ensures var w := Windowed(h); w == h[Start(h)..] && Increasing(w) && |w| >= if |h| == 1 then 1 else 2
  {
    GatedIsMonotone(h);
    WindowIsSuffix(h);
    var w := Windowed(h);
    forall i, j | 0 <= i < j < |w| ensures w[i].ms < w[j].ms {
      Spaced(h, Start(h) + i, Start(h) + j);
    }
  }

  /** From the second gated sample on, the reported rate lies between the slowest and the fastest
      interval inside the window; only the first sample reports 0 for want of elapsed time. */
  lemma ReportedRate(h: seq<Sample>)
    requires Gated(h) && h != []
    ensures var w := Windowed(h);
      && w != [] && (w[|w| - 1].ms - w[0].ms <= 0 <==> |h| == 1)
      && (|h| >= 2 ==> |w| >= 2 && Increasing(w) && BetweenIntervals(w))
  {
    GatedWindow(h);
    if |h| >= 2 {
      RateBetween(Windowed(h));
    }
  }

  /** So many bits in every second up to then. */
  predicate OnLine(bytes: int, ms: int, bitsPerSecond: real) {
    bytes as real * 8.0 * 1000.0 == bitsPerSecond * ms as real
  }

  predicate Steady(h: seq<Sample>, bitsPerSecond: real) {
    forall i :: 0 <= i < |h| ==> OnLine(h[i].bytes, h[i].ms, bitsPerSecond)
  }

  lemma SteadyDifference(a: Sample, b: Sample, bitsPerSecond: real)
    requires a.ms < b.ms && OnLine(a.bytes, a.ms, bitsPerSecond) && OnLine(b.bytes, b.ms, bitsPerSecond)
    ensures Mbps(b.bytes - a.bytes, b.ms - a.ms) == bitsPerSecond / 1000000.0
  {
    var db, dt := b.bytes - a.bytes, b.ms - a.ms;
    var rate := Mbps(db, dt);
    MbpsInUnits(db, dt);
    assert bitsPerSecond * b.ms as real - bitsPerSecond * a.ms as real == bitsPerSecond * dt as real;
    assert (rate * 1000000.0 - bitsPerSecond) * dt as real == 0.0;
  }

  lemma SteadyWindow(w: seq<Sample>, bitsPerSecond: real)
    requires |w| >= 2 && w[0].ms < w[|w| - 1].ms && Steady(w, bitsPerSecond)
    ensures RateOf(w) == bitsPerSecond / 1000000.0
  {
    SteadyDifference(w[0], w[|w| - 1], bitsPerSecond);
  }

  /** A history of constant speed is reported at that speed, from the second reading on. */
  lemma SteadyRate(h: seq<Sample>, bitsPerSecond: real)
    requires Gated(h) && |h| >= 2 && Steady(h, bitsPerSecond)
    ensures Windowed(h) != [] && RateOf(Windowed(h)) == bitsPerSecond / 1000000.0
  {
    GatedWindow(h);
    SteadySuffix(h, Start(h), bitsPerSecond);
    SteadyWindow(Windowed(h), bitsPerSecond);
  }

  lemma SteadySuffix(h: seq<Sample>, k: nat, bitsPerSecond: real)
    requires Steady(h, bitsPerSecond) && k <= |h|
    ensures Steady(h[k..], bitsPerSecond) && Steady(h[..k], bitsPerSecond)
  {
  }

  // ---- the loops that feed it ----

  /** Duration.inMilliseconds of a difference in microseconds. */
  function InMilliseconds(us: int): (ms: int)
    ensures if us >= 0 then 1000 * ms <= us < 1000 * ms + 1000 else 1000 * ms - 1000 < us <= 1000 * ms
  {
    if us >= 0 then us / 1000 else -(-us / 1000)
  }

  // The state of one direction of the test: its clock, its gate and its window.
  class Meter {
    const start: int
    var lastEmit: int
    const window: RateWindow
    ghost var history: seq<Sample>

    ghost predicate Valid()
      reads this, window
    {
      && Gated(history) && window.samples == Windowed(history) && lastEmit >= start
      && (history == [] ==> lastEmit == start)
      && (history != [] ==> history[|history| - 1].ms == InMilliseconds(lastEmit - start))
    }

    constructor (now: int)
      ensures Valid() && history == [] && fresh(window) && start == now
    {
      start, lastEmit, history := now, now, [];
      window := new RateWindow();
    }

    /** After each chunk: report only when 80 ms have passed on the wall clock since the last
        report, whatever that clock did in between. */
    method Progress(now: int, bytes: int) returns (reading: Option<real>)
      requires Valid() && (history != [] ==> history[|history| - 1].bytes <= bytes)
      modifies this`lastEmit, this`history, window
      ensures Valid()
      ensures reading.Some? <==> InMilliseconds(now - old(lastEmit)) >= EMIT_MS
      ensures old(lastEmit) <= now ==> (reading.Some? <==> now - old(lastEmit) >= 80000)
      ensures lastEmit == if reading.Some? then now else old(lastEmit)
      ensures reading.None? ==> history == old(history)
      ensures reading.Some? ==>
        && history == old(history) + [Sample(InMilliseconds(now - start), bytes)]
        && Windowed(history) != [] && reading.value == RateOf(Windowed(history))
    {
      if InMilliseconds(now - lastEmit) < EMIT_MS { return None; }
      Accepted(history, start, lastEmit, now, bytes);
      ghost var longer := history + [Sample(InMilliseconds(now - start), bytes)];
      lastEmit := now;
      var rate := window.Add(InMilliseconds(now - start), bytes);
      assert window.samples == Windowed(longer);
      history := longer;
      return Some(rate);
    }
  }

  lemma WindowAppended(h: seq<Sample>, s: Sample)
    ensures Windowed(h + [s]) == Trimmed(Windowed(h) + [s])
  {
    assert (h + [s])[..|h|] == h;
  }

  lemma GatedAppended(h: seq<Sample>, s: Sample)
    requires Gated(h) && (h != [] ==> s.ms - h[|h| - 1].ms >= EMIT_MS && s.bytes >= h[|h| - 1].bytes)
    ensures Gated(h + [s])
  {
  }

  /** A sample that passes the gate keeps the history gated. */
  lemma Accepted(h: seq<Sample>, start: int, last: int, now: int, bytes: int)
    requires Gated(h) && start <= last && InMilliseconds(now - last) >= EMIT_MS
    requires h != [] ==> h[|h| - 1].ms == InMilliseconds(last - start) && h[|h| - 1].bytes <= bytes
    ensures var s := Sample(InMilliseconds(now - start), bytes);
      now >= start && Gated(h + [s]) && Windowed(h + [s]) == Trimmed(Windowed(h) + [s])
  {
    var s := Sample(InMilliseconds(now - start), bytes);
    GateSpaces(now - start, last - start);
    WindowAppended(h, s);
    GatedAppended(h, s);
  }

  lemma GateSpaces(now: int, last: int)
    requires last >= 0 && InMilliseconds(now - last) >= EMIT_MS
    ensures now >= 0 && InMilliseconds(now) - InMilliseconds(last) >= EMIT_MS
  {
  }

  function Received(chunks: seq<(nat, int)>): nat {
    if chunks == [] then 0 else Received(chunks[..|chunks| - 1]) + chunks[|chunks| - 1].0
  }

  predicate Opens(now: int, last: int) { InMilliseconds(now - last) >= EMIT_MS }

  function LastEmit(start: int, chunks: seq<(nat, int)>): int {
    if chunks == [] then start
    else
      var last, now := LastEmit(start, chunks[..|chunks| - 1]), chunks[|chunks| - 1].1;
      if Opens(now, last) then now else last
  }

  /** The samples the gate lets through, for a list of chunk lengths and arrival times. */
  function Samples(start: int, chunks: seq<(nat, int)>): seq<Sample> {
    if chunks == [] then []
    else
      var front, now := chunks[..|chunks| - 1], chunks[|chunks| - 1].1;
      Samples(start, front) +
      if Opens(now, LastEmit(start, front))
      then [Sample(InMilliseconds(now - start), Received(chunks))] else []
  }

  /** One report: the rate of the window that the history up to it determines. */
  predicate ReportOk(reading: real, h: seq<Sample>) {
    Windowed(h) != [] && reading == RateOf(Windowed(h))
  }

  ghost predicate Reports(readings: seq<real>, h: seq<Sample>) {
    && Gated(h) && |readings| == |h|
    && forall i :: 0 <= i < |h| ==> ReportOk(readings[i], h[..i + 1])
  }

  lemma ReportsExtend(readings: seq<real>, h: seq<Sample>, rate: real, h': seq<Sample>)
    requires Reports(readings, h) && |h'| == |h| + 1 && h'[..|h|] == h && Gated(h')
    requires ReportOk(rate, h')
    ensures Reports(readings + [rate], h')
  {
    forall i | 0 <= i < |h'| ensures ReportOk((readings + [rate])[i], h'[..i + 1]) {
      if i < |h| { assert h'[..i + 1] == h[..i + 1]; } else { assert h'[..i + 1] == h'; }
    }
  }

  predicate BytesUpTo(h: seq<Sample>, bytes: int) { h != [] ==> h[|h| - 1].bytes <= bytes }

  /** The meter has seen exactly these chunks. */
  ghost predicate Tracks(meter: Meter, chunks: seq<(nat, int)>, readings: seq<real>)
    reads meter, meter.window
  {
    && meter.Valid() && meter.history == Samples(meter.start, chunks)
    && meter.lastEmit == LastEmit(meter.start, chunks)
    && Reports(readings, meter.history) && BytesUpTo(meter.history, Received(chunks))
  }

  /** The tail of both loops: pass the gate and, if it opens, yield one more reading. */
  method Measure(meter: Meter, ghost chunks: seq<(nat, int)>, length: nat, now: int, total: int, readings: seq<real>)
      returns (out: seq<real>)
    requires Tracks(meter, chunks, readings) && total == Received(chunks) + length
    modifies meter, meter.window
    ensures Tracks(meter, chunks + [(length, now)], out)
  {
    ghost var before := meter.history;
    assert (chunks + [(length, now)])[..|chunks|] == chunks;
    var reading := meter.Progress(now, total);
    if reading.None? { return readings; }
    ReportsExtend(readings, before, reading.value, meter.history);
    return readings + [reading.value];
  }

  /** The bytes received so far grow in proportion to the time, at every chunk. */
  predicate SteadyChunks(start: int, chunks: seq<(nat, int)>, bitsPerSecond: real) {
    forall i :: 0 <= i < |chunks| ==> ChunkOnLine(start, chunks, i, bitsPerSecond)
  }

  predicate ChunkOnLine(start: int, chunks: seq<(nat, int)>, i: nat, bitsPerSecond: real)
    requires i < |chunks|
  {
    OnLine(Received(chunks[..i + 1]), InMilliseconds(chunks[i].1 - start), bitsPerSecond)
  }

  predicate ReportsSpeed(readings: seq<real>, bitsPerSecond: real) {
    && (readings != [] ==> readings[0] == 0.0)
    && forall i :: 1 <= i < |readings| ==> readings[i] == bitsPerSecond / 1000000.0
  }

  lemma {:induction false} SteadySamples(start: int, chunks: seq<(nat, int)>, bitsPerSecond: real)
    requires SteadyChunks(start, chunks, bitsPerSecond)
    ensures Steady(Samples(start, chunks), bitsPerSecond)
  {
    if chunks != [] {
      var front := chunks[..|chunks| - 1];
      forall i | 0 <= i < |front| ensures ChunkOnLine(start, front, i, bitsPerSecond) {
        assert ChunkOnLine(start, chunks, i, bitsPerSecond);
        assert front[..i + 1] == chunks[..i + 1];
      }
      SteadySamples(start, front, bitsPerSecond);
      assert ChunkOnLine(start, chunks, |front|, bitsPerSecond);
      assert chunks[..|front| + 1] == chunks;
    }
  }

  lemma FirstIsZero(h: seq<Sample>)
    requires |h| == 1
    ensures Windowed(h) == h && RateOf(h) == 0.0
  {
    assert h[..0] == [];
    assert Windowed(h) == Trimmed([] + [h[0]]);
  }

  /** Chunks that come in at a constant number of bits per second are reported at that number, in
      millions, in every reading but the first. */
  lemma SteadyReported(readings: seq<real>, h: seq<Sample>, bitsPerSecond: real)
    requires Reports(readings, h) && Steady(h, bitsPerSecond)
    ensures ReportsSpeed(readings, bitsPerSecond)
  {
    forall i | 0 <= i < |h| ensures readings[i] == if i == 0 then 0.0 else bitsPerSecond / 1000000.0 {
      var upTo := h[..i + 1];
      assert ReportOk(readings[i], upTo);
      SteadySuffix(h, i + 1, bitsPerSecond);
      if i == 0 { FirstIsZero(upTo); } else { SteadyRate(upTo, bitsPerSecond); }
    }
  }

  lemma SteadyDownload(start: int, chunks: seq<(nat, int)>, readings: seq<real>)
    requires Reports(readings, Samples(start, chunks))
    ensures forall bitsPerSecond ::
      SteadyChunks(start, chunks, bitsPerSecond) ==> ReportsSpeed(readings, bitsPerSecond)
  {
    forall bitsPerSecond | SteadyChunks(start, chunks, bitsPerSecond) ensures ReportsSpeed(readings, bitsPerSecond) {
      SteadySamples(start, chunks, bitsPerSecond);
      SteadyReported(readings, Samples(start, chunks), bitsPerSecond);
    }
  }

  /** The download loop over chunk lengths and the clock readings that follow them. */
  method Download(start: int, chunks: seq<(nat, int)>) returns (got: nat, readings: seq<real>)
    ensures got == Received(chunks) && Reports(readings, Samples(start, chunks))
    ensures forall bitsPerSecond ::
      SteadyChunks(start, chunks, bitsPerSecond) ==> ReportsSpeed(readings, bitsPerSecond)
  {
    var meter := new Meter(start);
    got, readings := 0, [];
    for i := 0 to |chunks|
      invariant fresh(meter) && fresh(meter.window) && meter.start == start
      invariant got == Received(chunks[..i]) && Tracks(meter, chunks[..i], readings)
    {
      assert chunks[..i + 1] == chunks[..i] + [chunks[i]];
      got := got + chunks[i].0;
      readings := Measure(meter, chunks[..i], chunks[i].0, chunks[i].1, got, readings);
      assert chunks[..i + 1][..i] == chunks[..i];
    }
    assert chunks[..|chunks|] == chunks;
    SteadyDownload(start, chunks, readings);
  }

  const TOTAL_UPLOAD: nat := 15000000
  const CHUNK: nat := 65536

  /** `writes` are full chunks, but for a last one that completes `sent`. */
  predicate Chunked(writes: seq<nat>, sent: nat) {
    && (forall i :: 0 <= i < |writes| - 1 ==> writes[i] == CHUNK)
    && (if writes == [] then sent == 0
        else 0 < writes[|writes| - 1] <= CHUNK && sent == CHUNK * (|writes| - 1) + writes[|writes| - 1])
  }

  /** Each write with the clock reading that follows it. */
  function Timed(writes: seq<nat>, clock: nat -> int): (chunks: seq<(nat, int)>)
    ensures |chunks| == |writes|
  {
    if writes == [] then []
    else Timed(writes[..|writes| - 1], clock) + [(writes[|writes| - 1], clock(|writes|))]
  }

  lemma ChunkedExtend(writes: seq<nat>, sent: nat, n: nat)
    requires Chunked(writes, sent) && (writes != [] ==> writes[|writes| - 1] == CHUNK)
    requires 0 < n <= CHUNK
    ensures Chunked(writes + [n], sent + n)
  {
  }

  lemma TimedExtend(writes: seq<nat>, n: nat, clock: nat -> int)
    ensures Timed(writes + [n], clock) == Timed(writes, clock) + [(n, clock(|writes| + 1))]
    ensures Received(Timed(writes + [n], clock)) == Received(Timed(writes, clock)) + n
  {
    assert (writes + [n])[..|writes|] == writes;
    var chunks := Timed(writes, clock);
    assert (chunks + [(n, clock(|writes| + 1))])[..|chunks|] == chunks;
  }

  /** Where the upload loop stands after some writes. */
  ghost predicate Uploading(meter: Meter, sent: nat, writes: seq<nat>, readings: seq<real>, clock: nat -> int)
    reads meter, meter.window
  {
    && Tracks(meter, Timed(writes, clock), readings) && sent == Received(Timed(writes, clock))
    && sent <= TOTAL_UPLOAD && Chunked(writes, sent)
    && (sent < TOTAL_UPLOAD && writes != [] ==> writes[|writes| - 1] == CHUNK)
  }

  /** One step of the upload loop. */
  method WriteChunk(meter: Meter, sent: nat, writes: seq<nat>, readings: seq<real>, clock: nat -> int)
      returns (n: nat, out: seq<real>)
    requires Uploading(meter, sent, writes, readings, clock) && sent < TOTAL_UPLOAD
    modifies meter, meter.window
    ensures n > 0 && Uploading(meter, sent + n, writes + [n], out, clock)
  {
    n := if TOTAL_UPLOAD - sent < CHUNK then TOTAL_UPLOAD - sent else CHUNK;
    ChunkedExtend(writes, sent, n);
    TimedExtend(writes, n, clock);
    out := Measure(meter, Timed(writes, clock), n, clock(|writes| + 1), sent + n, readings);
  }

  /** The upload loop: exactly the announced bytes, in full chunks but for the last. */
  method Upload(start: int, clock: nat -> int) returns (sent: nat, writes: seq<nat>, readings: seq<real>)
    ensures sent == TOTAL_UPLOAD == 15000000 && Chunked(writes, sent)
    ensures |writes| == 229 && writes[228] == 57792 && forall i :: 0 <= i < 228 ==> writes[i] == 65536
    ensures Received(Timed(writes, clock)) == sent && Reports(readings, Samples(start, Timed(writes, clock)))
  {
    var meter := new Meter(start);
    sent, writes, readings := 0, [], [];
    while sent < TOTAL_UPLOAD
      invariant fresh(meter) && fresh(meter.window) && meter.start == start
      invariant Uploading(meter, sent, writes, readings, clock)
    {
      var n, out := WriteChunk(meter, sent, writes, readings, clock);
      sent, writes, readings := sent + n, writes + [n], out;
    }
  }
}
