/** The collector's arithmetic: throughput from cumulative counters and the smoothed CPU reading, over
    exact reals. */
module Metrics {

  datatype Usage = Usage(current: nat, total: nat)

  /** CurTotal.Percent. */
  function Percent(u: Usage): real {
    if u.total == 0 then 0.0 else u.current as real * 100.0 / u.total as real
  }

  datatype Snapshot = Snapshot(cpu: real, mem: Usage, swap: Usage, disk: Usage,
                               netUp: nat, netDown: nat, tcp: nat, udp: nat, loads: seq<real>)

  // ---- throughput ----

  const WORD: int := 0x1_0000_0000_0000_0000

  datatype Interface = Interface(name: string, sent: nat, recv: nat)

  const VIRTUAL_PREFIXES := [
    "loopback", "docker", "br-", "veth", "virbr", "tun", "tap", "wg", "tailscale", "zt", "utun"]

  /** isVirtualInterface, on a lower-cased name. */
  predicate IsVirtual(name: string) {
    name == "lo" || name == "lo0" || exists i :: 0 <= i < |VIRTUAL_PREFIXES| && VIRTUAL_PREFIXES[i] <= name
  }

  /** The counters added up over the physical interfaces, wrapping at 64 bits. */
  function Counters(stats: seq<Interface>): (nat, nat) {
    if stats == [] then (0, 0)
    else
      var (sent, recv) := Counters(stats[..|stats| - 1]);
      var i := stats[|stats| - 1];
      if IsVirtual(i.name) then (sent, recv) else ((sent + i.sent) % WORD, (recv + i.recv) % WORD)
  }

  /** uint64(float64(now - before) / secs): whole bytes per second, zero after a reset or when no time
      has passed. */
  function Rate(before: nat, now: nat, secs: real): nat {
    if secs > 0.0 && now >= before then ((now - before) as real / secs).Floor else 0
  }

  /** One reading of the counters, at a time in seconds. */
  datatype Reading = Reading(sent: nat, recv: nat, at: real)

  datatype NetSample = NetSample(up: nat, down: nat, sent: nat, recv: nat)

  /** What one sampling reports and the reading it leaves; a failed probe reports zero and leaves the old one. */
  function NetStep(last: seq<Reading>, stats: seq<seq<Interface>>, now: real): (NetSample, seq<Reading>) {
    if stats == [] then (NetSample(0, 0, 0, 0), last)
    else
      var (sent, recv) := Counters(stats[0]);
      var up := if last == [] then 0 else Rate(last[0].sent, sent, now - last[0].at);
      var down := if last == [] then 0 else Rate(last[0].recv, recv, now - last[0].at);
      (NetSample(up, down, sent, recv), [Reading(sent, recv, now)])
  }

  class Collector {
    var last: seq<Reading>     // empty until the first reading, then exactly one
    var ema: real
    var lastCpu: seq<CpuTimes> // likewise

    constructor ()
      ensures last == [] && lastCpu == [] && ema == 0.0
    {
      last, lastCpu, ema := [], [], 0.0;
    }

    /** The summing loop of sampleNetwork. */
    static method AddUp(ifaces: seq<Interface>) returns (sent: nat, recv: nat)
      ensures (sent, recv) == Counters(ifaces)
    {
      sent, recv := 0, 0;
      for i := 0 to |ifaces|
        invariant (sent, recv) == Counters(ifaces[..i])
      {
        assert ifaces[..i + 1][..i] == ifaces[..i];
        if IsVirtual(ifaces[i].name) {
          continue;
        }
        sent := (sent + ifaces[i].sent) % WORD;
        recv := (recv + ifaces[i].recv) % WORD;
      }
      assert ifaces[..|ifaces|] == ifaces;
    }

    /** sampleNetwork; `stats` is `[]`-wrapped, empty when the probe failed. */
    method SampleNetwork(stats: seq<seq<Interface>>, now: real) returns (s: NetSample)
      requires |stats| <= 1 && |last| <= 1
      modifies this`last
      ensures |last| <= 1
      ensures (s, last) == NetStep(old(last), stats, now)
    {
      if stats == [] {
        return NetSample(0, 0, 0, 0);
      }
      var sent, recv := AddUp(stats[0]);
      var up, down := 0, 0;
      if last != [] {
        var secs := now - last[0].at;
        if secs > 0.0 {
          if sent >= last[0].sent {
            up := ((sent - last[0].sent) as real / secs).Floor;
          }
          if recv >= last[0].recv {
            down := ((recv - last[0].recv) as real / secs).Floor;
          }
        }
      }
      last := [Reading(sent, recv, now)];
      return NetSample(up, down, sent, recv);
    }

    /** sampleCPU; `times` is empty when the probe failed. */
    method SampleCpu(times: seq<CpuTimes>) returns (cpu: real)
      requires |lastCpu| <= 1
      modifies this`ema, this`lastCpu
      ensures |lastCpu| <= 1
      ensures (ema, lastCpu, cpu) == CpuStep(old(ema), old(lastCpu), times)
    {
      if times == [] {
        return ema;
      }
      var cur := times[0];
      if lastCpu == [] {
        lastCpu := [cur];
        return 0.0;
      }
      var prev := lastCpu[0];
      var busy := cur.user - prev.user + (cur.system - prev.system) +
                  (cur.nice - prev.nice) + (cur.iowait - prev.iowait) +
                  (cur.irq - prev.irq) + (cur.softirq - prev.softirq) + (cur.steal - prev.steal);
      var total := busy + (cur.idle - prev.idle);
      lastCpu := [cur];
      if total <= 0.0 {
        return ema;
      }
      var pct := busy * 100.0 / total;
      if pct < 0.0 {
        pct := 0.0;
      } else if pct > 100.0 {
        pct := 100.0;
      }
      if ema == 0.0 {
        ema := pct;
      } else {
        ema := ALPHA * pct + (1.0 - ALPHA) * ema;
      }
      return ema;
    }
  }

  /** One direction of a run of readings: (counter, time). */
  type Trace = seq<(nat, real)>

  predicate Ticking(trace: Trace) {
    forall i :: 0 < i < |trace| ==> trace[i - 1].1 < trace[i].1
  }

  /** The bytes a rate accounts for over a tick. */
  function Carried(rate: nat, secs: real): real {
    rate as real * secs
  }

  /** Sum of rate times seconds over the ticks. */
  function Reported(trace: Trace): real {
    if |trace| <= 1 then 0.0
    else
      var n := |trace| - 1;
      var secs := trace[n].1 - trace[n - 1].1;
      Reported(trace[..n]) + Carried(Rate(trace[n - 1].0, trace[n].0, secs), secs)
  }

  /** Bytes gained: the growth of every tick that is not a reset. */
  function Gained(trace: Trace): nat {
    if |trace| <= 1 then 0
    else
      var n := |trace| - 1;
      Gained(trace[..n]) + (if trace[n].0 >= trace[n - 1].0 then trace[n].0 - trace[n - 1].0 else 0)
  }

  lemma RateIsFloor(before: nat, now: nat, secs: real)
    requires secs > 0.0 && now >= before
    ensures Carried(Rate(before, now, secs), secs) <= (now - before) as real
    ensures (now - before) as real < Carried(Rate(before, now, secs), secs) + secs
  {
    FloorTimes((now - before) as real, secs, Rate(before, now, secs));
  }

  lemma PositiveProduct(a: real, b: real)
    requires a >= 0.0 && b > 0.0
    ensures a * b >= 0.0 && (a > 0.0 ==> a * b > 0.0)
  {
  }

  lemma FloorTimes(gain: real, secs: real, r: nat)
    requires secs > 0.0 && r == (gain / secs).Floor
    ensures Carried(r, secs) <= gain
    ensures gain < Carried(r, secs) + secs
  {
    var q, f := gain / secs, r as real;
    assert gain == q * secs && f <= q < f + 1.0;
    var below, above := q - f, f + 1.0 - q;
    PositiveProduct(below, secs);
    PositiveProduct(above, secs);
    Distribute(q, f, secs);
    Distribute(f + 1.0, q, secs);
    Distribute(f + 1.0, f, secs);
    assert above * secs > 0.0;
    assert above * secs == (f + 1.0) * secs - gain;
    assert (f + 1.0) * secs == f * secs + secs;
    assert f * secs == Carried(r, secs);
  }

  lemma Distribute(a: real, b: real, c: real)
    ensures (a - b) * c == a * c - b * c
  {
  }

  /** What the rates report never exceeds what was gained and falls short by less than one byte per
      second of the run. A reset contributes nothing and later ticks count from the new base. */
  lemma {:induction false} RatesConserve(trace: Trace)
    requires |trace| >= 2 && Ticking(trace)
    ensures Reported(trace) <= Gained(trace) as real < Reported(trace) + (trace[|trace| - 1].1 - trace[0].1)
  {
    var n := |trace| - 1;
    var secs := trace[n].1 - trace[n - 1].1;
    if trace[n].0 >= trace[n - 1].0 {
      RateIsFloor(trace[n - 1].0, trace[n].0, secs);
    } else {
      assert Carried(0, secs) == 0.0;
    }
    if n > 1 {
      RatesConserve(trace[..n]);
    } else {
      assert Reported(trace[..1]) == 0.0 && Gained(trace[..1]) == 0;
    }
  }

  /** One sampling of a run: the probe's outcome, empty when it failed, and its time. */
  datatype Probe = Probe(stats: seq<seq<Interface>>, now: real)

  datatype Direction = Sent | Received

  /** The reading a collector holds after a run of samplings. */
  function LastReading(probes: seq<Probe>): seq<Reading> {
    if probes == [] then []
    else
      var p := probes[|probes| - 1];
      NetStep(LastReading(probes[..|probes| - 1]), p.stats, p.now).1
  }

  /** The readings of the probes that succeeded, in one direction. */
  function Readings(probes: seq<Probe>, d: Direction): Trace {
    if probes == [] then []
    else
      var before, p := Readings(probes[..|probes| - 1], d), probes[|probes| - 1];
      if p.stats == [] then before
      else
        var counters := Counters(p.stats[0]);
        before + [(if d == Sent then counters.0 else counters.1, p.now)]
  }

  /** The bytes the run's samples account for: each rate times the seconds since the reading it is based on. */
  function Sampled(probes: seq<Probe>, d: Direction): real {
    if probes == [] then 0.0
    else
      var init, p := probes[..|probes| - 1], probes[|probes| - 1];
      var last := LastReading(init);
      var sample := NetStep(last, p.stats, p.now).0;
      Sampled(init, d) +
      (if last == [] then 0.0 else Carried(if d == Sent then sample.up else sample.down, p.now - last[0].at))
  }

  function Counter(r: Reading, d: Direction): (nat, real) {
    (if d == Sent then r.sent else r.recv, r.at)
  }

  lemma NoBytes(secs: real)
    ensures Carried(0, secs) == 0.0
  {
  }

  /** What one more reading adds. */
  function LastTick(trace: Trace, x: (nat, real)): real {
    if trace == [] then 0.0
    else
      var y := trace[|trace| - 1];
      Carried(Rate(y.0, x.0, x.1 - y.1), x.1 - y.1)
  }

  lemma ReportedSnoc(trace: Trace, x: (nat, real))
    ensures Reported(trace + [x]) == Reported(trace) + LastTick(trace, x)
  {
    var all, n := trace + [x], |trace|;
    assert all[..n] == trace && all[n] == x;
    if n > 0 {
      assert all[n - 1] == trace[n - 1];
    }
  }

  lemma SampleIsTick(last: seq<Reading>, trace: Trace, stats: seq<seq<Interface>>, now: real, d: Direction)
    requires stats != [] && |last| <= 1 && (trace == [] <==> last == [])
    requires trace != [] ==> Counter(last[0], d) == trace[|trace| - 1]
    ensures var (sample, after) := NetStep(last, stats, now);
            var x := Counter(after[0], d);
            LastTick(trace, x) ==
            (if last == [] then 0.0 else Carried(if d == Sent then sample.up else sample.down, now - last[0].at))
  {
  }

  /** What the collector reports, failed probes and all, is what the trace of its readings says. */
  lemma {:induction false} SamplesReportTrace(probes: seq<Probe>, d: Direction)
    ensures var trace, last := Readings(probes, d), LastReading(probes);
            && (trace == [] <==> last == [])
            && (trace != [] ==> |last| == 1 && Counter(last[0], d) == trace[|trace| - 1])
            && Sampled(probes, d) == Reported(trace)
  {
    if probes != [] {
      var init, p := probes[..|probes| - 1], probes[|probes| - 1];
      SamplesReportTrace(init, d);
      var last := LastReading(init);
      if p.stats == [] {
        if last != [] {
          NoBytes(p.now - last[0].at);
        }
      } else {
        SampleIsTick(last, Readings(init, d), p.stats, p.now, d);
        ReportedSnoc(Readings(init, d), Counter(NetStep(last, p.stats, p.now).1[0], d));
      }
    }
  }

  /** So the conservation law holds of any run of samplings whose successful probes advance in time. */
  lemma {:induction false} SamplesConserve(probes: seq<Probe>, d: Direction)
    requires |Readings(probes, d)| >= 2 && Ticking(Readings(probes, d))
    ensures var trace := Readings(probes, d);
            Sampled(probes, d) <= Gained(trace) as real < Sampled(probes, d) + (trace[|trace| - 1].1 - trace[0].1)
  {
    SamplesReportTrace(probes, d);
    RatesConserve(Readings(probes, d));
  }

  /** Without a reset the gain telescopes to the difference of the first and last reading. */
  lemma {:induction false} GainTelescopes(trace: Trace)
    requires trace != [] && forall i :: 0 < i < |trace| ==> trace[i - 1].0 <= trace[i].0
    ensures trace[0].0 <= trace[|trace| - 1].0
    ensures Gained(trace) == trace[|trace| - 1].0 - trace[0].0
  {
    if |trace| > 1 {
      GainTelescopes(trace[..|trace| - 1]);
    }
  }

  // ---- the smoothed CPU reading ----

  datatype CpuTimes = CpuTimes(user: real, system: real, nice: real, iowait: real, irq: real, softirq: real,
                               steal: real, idle: real)

  const ALPHA := 0.3

  function Busy(t: CpuTimes): real {
    t.user + t.system + t.nice + t.iowait + t.irq + t.softirq + t.steal
  }

  function Clamp(x: real): real {
    if x < 0.0 then 0.0 else if x > 100.0 then 100.0 else x
  }

  /** The clamped percentage between two readings, if any time passed. */
  function Input(prev: CpuTimes, cur: CpuTimes): seq<real> {
    var busy := Busy(cur) - Busy(prev);
    var total := busy + (cur.idle - prev.idle);
    if total <= 0.0 then [] else [Clamp(busy * 100.0 / total)]
  }

  function Smooth(ema: real, pct: real): real {
    if ema == 0.0 then pct else ALPHA * pct + (1.0 - ALPHA) * ema
  }

  /** The new average, the new base and the returned value. */
  function CpuStep(ema: real, last: seq<CpuTimes>, times: seq<CpuTimes>): (real, seq<CpuTimes>, real)
  {
    if times == [] then (ema, last, ema)
    else if last == [] then (ema, [times[0]], 0.0)
    else
      var input := Input(last[0], times[0]);
      var after := if input == [] then ema else Smooth(ema, input[0]);
      (after, [times[0]], after)
  }

  /** The average after a run of probes, with every clamped percentage that went into it. */
  function CpuRun(probes: seq<seq<CpuTimes>>): (real, seq<CpuTimes>, seq<real>) {
    if probes == [] then (0.0, [], [])
    else
      var (ema, last, inputs) := CpuRun(probes[..|probes| - 1]);
      var times := probes[|probes| - 1];
      var step := CpuStep(ema, last, times);
      (step.0, step.1, inputs + (if times != [] && last != [] then Input(last[0], times[0]) else []))
  }

  /** Over any run of probes the average lies in [0, 100] and, once seeded, between the least and the
      greatest of the clamped inputs. */
  lemma {:induction false} AverageIsWithinInputs(probes: seq<seq<CpuTimes>>, lo: real, hi: real)
    requires forall i :: 0 <= i < |CpuRun(probes).2| ==> lo <= CpuRun(probes).2[i] <= hi
    ensures 0.0 <= CpuRun(probes).0 <= 100.0
    ensures forall i :: 0 <= i < |CpuRun(probes).2| ==> 0.0 <= CpuRun(probes).2[i] <= 100.0
    ensures CpuRun(probes).2 == [] ==> CpuRun(probes).0 == 0.0
    ensures CpuRun(probes).2 != [] ==> lo <= CpuRun(probes).0 <= hi
  {
    if probes != [] {
      var init := probes[..|probes| - 1];
      var (ema, last, inputs) := CpuRun(init);
      var all := CpuRun(probes).2;
      assert forall i :: 0 <= i < |inputs| ==> all[i] == inputs[i];
      AverageIsWithinInputs(init, lo, hi);
      if |all| > |inputs| {
        assert all[|inputs|] == Input(last[0], probes[|probes| - 1][0])[0];
      } else {
        assert all == inputs;
      }
    }
  }

  // ---- what the readings mean ----

  predicate StartsWith(name: string, prefix: string) {
    prefix <= name
  }

  /** Loopback, container and tunnel devices by their names. */
  lemma VirtualMeans(name: string)
    ensures IsVirtual(name) <==>
            name == "lo" || name == "lo0" || StartsWith(name, "loopback") || StartsWith(name, "docker") ||
            StartsWith(name, "br-") || StartsWith(name, "veth") || StartsWith(name, "virbr") ||
            StartsWith(name, "tun") || StartsWith(name, "tap") || StartsWith(name, "wg") ||
            StartsWith(name, "tailscale") || StartsWith(name, "zt") || StartsWith(name, "utun")
  {
    var p := VIRTUAL_PREFIXES;
    assert p[0] == "loopback" && p[1] == "docker" && p[2] == "br-" && p[3] == "veth" && p[4] == "virbr";
    assert p[5] == "tun" && p[6] == "tap" && p[7] == "wg" && p[8] == "tailscale" && p[9] == "zt" && p[10] == "utun";
  }

  /** The bytes all physical interfaces have carried, without wrap-around. */
  function Carries(stats: seq<Interface>, d: Direction): nat {
    if stats == [] then 0
    else
      var i := stats[|stats| - 1];
      Carries(stats[..|stats| - 1], d) + (if IsVirtual(i.name) then 0 else if d == Sent then i.sent else i.recv)
  }

  /** The counters are those sums modulo 2^64. */
  lemma {:induction false} CountersAreSums(stats: seq<Interface>)
    ensures Counters(stats).0 == Carries(stats, Sent) % 0x1_0000_0000_0000_0000
    ensures Counters(stats).1 == Carries(stats, Received) % 0x1_0000_0000_0000_0000
  {
    if stats != [] {
      var init, i := stats[..|stats| - 1], stats[|stats| - 1];
      CountersAreSums(init);
      WrapAdd(Carries(init, Sent), i.sent);
      WrapAdd(Carries(init, Received), i.recv);
    }
  }

  lemma WrapAdd(a: nat, b: nat)
    ensures (a % WORD + b) % WORD == (a + b) % WORD
  {
  }

  function AllTime(t: CpuTimes): real {
    t.idle + t.user + t.system + t.nice + t.iowait + t.irq + t.softirq + t.steal
  }

  /** Of two readings in which no counter went back, the input is what the idle share leaves of a hundred. */
  lemma InputIsBusyShare(prev: CpuTimes, cur: CpuTimes)
    requires prev.idle <= cur.idle && Busy(prev) <= Busy(cur)
    ensures var total := AllTime(cur) - AllTime(prev);
            if total <= 0.0 then Input(prev, cur) == []
            else |Input(prev, cur)| == 1 &&
                 Input(prev, cur)[0] * total == (total - (cur.idle - prev.idle)) * 100.0
  {
    var busy, total := Busy(cur) - Busy(prev), AllTime(cur) - AllTime(prev);
    if total > 0.0 {
      ShareWithin(busy, total);
    }
  }

  lemma ShareWithin(part: real, whole: real)
    requires 0.0 <= part <= whole && whole > 0.0
    ensures 0.0 <= part * 100.0 / whole <= 100.0
    ensures part * 100.0 / whole * whole == part * 100.0
  {
    var q := part * 100.0 / whole;
    assert q * whole == part * 100.0;
  }

  /** Readings in which the busy time goes back count as idle, those in which it outruns the total as full. */
  lemma InputIsClamped(prev: CpuTimes, cur: CpuTimes)
    requires AllTime(cur) > AllTime(prev)
    ensures Busy(cur) <= Busy(prev) ==> Input(prev, cur) == [0.0]
    ensures Busy(cur) - Busy(prev) >= AllTime(cur) - AllTime(prev) ==> Input(prev, cur) == [100.0]
  {
    var busy, total := Busy(cur) - Busy(prev), AllTime(cur) - AllTime(prev);
    if busy <= 0.0 {
      NotPositive(busy * 100.0, total);
    }
    if busy >= total {
      NotBelow(busy * 100.0, total, 100.0);
    }
  }

  lemma NotBelow(a: real, b: real, k: real)
    requires b > 0.0 && a >= k * b
    ensures a / b >= k
  {
  }

  lemma NotPositive(a: real, b: real)
    requires a <= 0.0 && b > 0.0
    ensures a / b <= 0.0
  {
  }

  /** What one CPU sampling does: a failed probe repeats the average, the first reading only sets the base, and
      each later one moves the base and, if time has passed, the average, which it returns. */
  lemma CpuStepMeans(ema: real, last: seq<CpuTimes>, times: seq<CpuTimes>)
    ensures times == [] ==> CpuStep(ema, last, times) == (ema, last, ema)
    ensures times != [] && last == [] ==> CpuStep(ema, last, times) == (ema, [times[0]], 0.0)
    ensures times != [] && last != [] ==>
              var (after, base, shown) := CpuStep(ema, last, times);
              var input := Input(last[0], times[0]);
              && base == [times[0]] && shown == after
              && after == if input == [] then ema else if ema == 0.0 then input[0] else 0.3 * input[0] + 0.7 * ema
  {
  }

  /** What one network sampling does: a failed probe reports zero and leaves the base, a successful one reports
      the counters and becomes the base; without a base, without time passed or after a reset the rate is
      zero. */
  lemma NetStepMeans(last: seq<Reading>, stats: seq<seq<Interface>>, now: real)
    ensures stats == [] ==> NetStep(last, stats, now) == (NetSample(0, 0, 0, 0), last)
    ensures stats != [] ==>
              var (s, after) := NetStep(last, stats, now);
              var (sent, recv) := Counters(stats[0]);
              && s.sent == sent && s.recv == recv && after == [Reading(sent, recv, now)]
              && (last == [] || now <= last[0].at ==> s.up == 0 && s.down == 0)
              && (last != [] && sent < last[0].sent ==> s.up == 0)
              && (last != [] && recv < last[0].recv ==> s.down == 0)
  {
  }

  function SmoothedBy(ema: real, pct: real, n: nat): real {
    if n == 0 then ema else Smooth(SmoothedBy(ema, pct, n - 1), pct)
  }

  /** 0.7 to the n. */
  function Fading(n: nat): real {
    if n == 0 then 1.0 else 0.7 * Fading(n - 1)
  }

  lemma FadingShrinks(n: nat)
    ensures 0.0 < Fading(n) <= 1.0
  {
    if n > 0 {
      FadingShrinks(n - 1);
    }
  }

  /** Under a steady load the average closes in on it, each reading leaving seven tenths of the distance. */
  lemma {:induction false} AverageClosesIn(ema: real, pct: real, n: nat)
    requires ema > 0.0 && pct > 0.0
    ensures SmoothedBy(ema, pct, n) > 0.0 && SmoothedBy(ema, pct, n) - pct == Fading(n) * (ema - pct)
  {
    if n > 0 {
      AverageClosesIn(ema, pct, n - 1);
      var before := SmoothedBy(ema, pct, n - 1);
      assert Smooth(before, pct) == 0.3 * pct + 0.7 * before;
      SevenTenths(Fading(n - 1), ema - pct);
    }
  }

  lemma SevenTenths(a: real, b: real)
    ensures 0.7 * a * b == 0.7 * (a * b)
  {
  }
}
