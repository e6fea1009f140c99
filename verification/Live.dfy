/** The hub's rolling window per server and the client's series, both against the full history. */
module Live {
  import opened Text
  import History
  import Metrics

  type Sample = History.Sample

  const WINDOW: nat := 90

  /** The last `n` elements. */
  function Last<T>(s: seq<T>, n: nat): seq<T> {
    if |s| <= n then s else s[|s| - n..]
  }

  /** Keeping the last `n` after every push is keeping the last `n` of everything. */
  lemma LastPush<T>(s: seq<T>, x: T, n: nat)
    requires n > 0
    ensures Last(Last(s, n) + [x], n) == Last(s + [x], n)
    ensures |Last(s, n)| == if |s| <= n then |s| else n
    ensures s != [] ==> Last(s, n) != [] && Last(s, n)[|Last(s, n)| - 1] == s[|s| - 1]
  {
  }

  // ---- the hub ----

  function SampleFrom(s: Metrics.Snapshot, t: int): Sample {
    History.Sample(t, s.cpu, Metrics.Percent(s.mem), Metrics.Percent(s.swap), Metrics.Percent(s.disk),
                   s.netUp as real, s.netDown as real, s.tcp as real, s.udp as real,
                   if s.loads != [] then s.loads[0] else 0.0)
  }

  datatype Entry = Entry(snap: Metrics.Snapshot, recvAt: int, points: seq<Sample>)

  class Cache {
    var entries: map<int, Entry>

    constructor ()
      ensures entries == map[]
    {
      entries := map[];
    }

    method Put(server: int, snap: Metrics.Snapshot, at: int)
      modifies this
      ensures var points := PointsOf(old(entries), server) + [SampleFrom(snap, at)];
              entries == old(entries)[server := Entry(snap, at, Last(points, WINDOW))]
    {
      var points := PointsOf(entries, server);
      points := points + [SampleFrom(snap, at)];
      if |points| > WINDOW {
        points := points[|points| - WINDOW..];
      }
      entries := entries[server := Entry(snap, at, points)];
    }

    method Get(server: int) returns (entry: Option<Entry>)
      ensures entry == if server in entries then Some(entries[server]) else None
    {
      return if server in entries then Some(entries[server]) else None;
    }

    method Remove(server: int)
      modifies this
      ensures entries == old(entries) - {server}
    {
      entries := entries - {server};
    }
  }

  function PointsOf(entries: map<int, Entry>, server: int): seq<Sample> {
    if server in entries then entries[server].points else []
  }

  datatype Call = Put(server: int, snap: Metrics.Snapshot, at: int) | Remove(server: int)

  function Called(entries: map<int, Entry>, call: Call): map<int, Entry> {
    match call
    case Put(server, snap, at) =>
      entries[server := Entry(snap, at, Last(PointsOf(entries, server) + [SampleFrom(snap, at)], WINDOW))]
    case Remove(server) => entries - {server}
  }

  function CacheAfter(calls: seq<Call>): map<int, Entry> {
    if calls == [] then map[] else Called(CacheAfter(calls[..|calls| - 1]), calls[|calls| - 1])
  }

  /** Every sample pushed for a server since its entry was created. */
  function PushedSince(calls: seq<Call>, server: int): seq<Sample> {
    if calls == [] then []
    else
      var before, call := PushedSince(calls[..|calls| - 1], server), calls[|calls| - 1];
      if call.server != server then before
      else if call.Put? then before + [SampleFrom(call.snap, call.at)]
      else []
  }

  /** The window is always the last min(90, n) samples of the n pushed since creation or removal, and an
      entry exists exactly when there are some. */
  lemma {:induction false} WindowIsLastPushes(calls: seq<Call>, server: int)
    ensures PointsOf(CacheAfter(calls), server) == Last(PushedSince(calls, server), 90)
    ensures |PointsOf(CacheAfter(calls), server)| <= 90
    ensures server in CacheAfter(calls) <==> PushedSince(calls, server) != []
  {
    if calls != [] {
      var init, call := calls[..|calls| - 1], calls[|calls| - 1];
      WindowIsLastPushes(init, server);
      if call.Put? && call.server == server {
        LastPush(PushedSince(init, server), SampleFrom(call.snap, call.at), WINDOW);
      }
    }
  }

  // ---- the client ----

  /** One server of a payload; `live` comes with the first payload only. */
  datatype View = View(id: int, online: bool, status: Option<Metrics.Snapshot>, live: Option<seq<Sample>>)

  datatype Summary = Summary(cpu: real, mem: real, disk: real, up: real, down: real)
  datatype Payload = Payload(t: int, servers: seq<View>, summary: Summary)

  /** percentOf, which divides before it multiplies. */
  function PercentOf(part: Metrics.Usage): real {
    if part.total == 0 then 0.0 else part.current as real / part.total as real * 100.0
  }

  /** The object trackSeries pushes. */
  function ClientSample(status: Metrics.Snapshot, t: int): Sample {
    History.Sample(t, status.cpu, PercentOf(status.mem), PercentOf(status.swap), PercentOf(status.disk),
                   status.netUp as real, status.netDown as real, status.tcp as real, status.udp as real,
                   if |status.loads| > 0 then status.loads[0] else 0.0)
  }

  /** A rounding whose relative error is at most `e`, as that to the nearest double is for these figures. */
  ghost predicate Rounds(round: real -> real, e: real) {
    0.0 <= e < 1.0 && forall x :: x >= 0.0 ==> Near(x, round(x), e)
  }

  /** The hub's percentage with every step rounded, the conversions of the two counts included. */
  function HubPercent(u: Metrics.Usage, round: real -> real): real {
    if u.total == 0 || round(u.total as real) == 0.0 then 0.0
    else round(round(round(u.current as real) * 100.0) / round(u.total as real))
  }

  /** The browser's. */
  function BrowserPercent(u: Metrics.Usage, round: real -> real): real {
    if u.total == 0 || round(u.total as real) == 0.0 then 0.0
    else round(round(round(u.current as real) / round(u.total as real)) * 100.0)
  }

  ghost predicate GapWithin(q: real, x: real, y: real, e: real) {
    -4.0 * (e * q) <= x - y <= 4.0 * (e * q)
  }

  /** The two differ by at most 4e of the share that the converted counts stand for. */
  ghost predicate PercentsClose(u: Metrics.Usage, e: real, round: real -> real) {
    var part, whole := round(u.current as real), round(u.total as real);
    var hub, browser := HubPercent(u, round), BrowserPercent(u, round);
    if u.total == 0 then hub == browser == 0.0
    else whole > 0.0 && GapWithin(part * 100.0 / whole, hub, browser, e)
  }

  /** Over exact arithmetic the two percentages are equal and the used share of the total; rounded, they are
      close. */
  lemma PercentsAgree(u: Metrics.Usage, e: real, round: real -> real)
    requires Rounds(round, e)
    ensures PercentOf(u) == Metrics.Percent(u)
    ensures u.total > 0 ==> PercentOf(u) * u.total as real == u.current as real * 100.0
    ensures u.current <= u.total ==> 0.0 <= PercentOf(u) <= 100.0
    ensures PercentsClose(u, e, round)
  {
    if u.total > 0 {
      ShareOfWhole(u.current as real, u.total as real);
      RoundedAreClose(u, e, round);
    }
  }

  lemma RoundedAt(x: real, e: real, round: real -> real)
    requires Rounds(round, e) && x >= 0.0
    ensures Near(x, round(x), e) && round(x) >= 0.0 && (x > 0.0 ==> round(x) > 0.0)
  {
    OneMinus(e, x);
    Positive(1.0 - e, x);
  }

  lemma Positive(a: real, b: real)
    requires a > 0.0 && b >= 0.0
    ensures a * b >= 0.0 && (b > 0.0 ==> a * b > 0.0)
  {
  }

  lemma ShareIsPositive(a: real, b: real)
    requires a >= 0.0 && b > 0.0
    ensures a / b >= 0.0
  {
  }

  lemma HubRounds(part: real, whole: real, e: real, round: real -> real)
    requires Rounds(round, e) && part >= 0.0 && whole > 0.0
    ensures NearTwice(part * 100.0 / whole, round(round(part * 100.0) / whole), e)
  {
    var a := round(part * 100.0);
    RoundedAt(part * 100.0, e, round);
    ShareIsPositive(a, whole);
    RoundedAt(a / whole, e, round);
    HubIsNear(part, whole, e, a, round(a / whole));
  }

  lemma BrowserRounds(part: real, whole: real, e: real, round: real -> real)
    requires Rounds(round, e) && part >= 0.0 && whole > 0.0
    ensures NearTwice(part * 100.0 / whole, round(round(part / whole) * 100.0), e)
  {
    var b := round(part / whole);
    ShareIsPositive(part, whole);
    RoundedAt(part / whole, e, round);
    RoundedAt(b * 100.0, e, round);
    BrowserIsNear(part, whole, e, b, round(b * 100.0));
  }

  lemma SharesClose(part: real, whole: real, e: real, round: real -> real)
    requires Rounds(round, e) && part >= 0.0 && whole > 0.0
    ensures GapWithin(part * 100.0 / whole, round(round(part * 100.0) / whole), round(round(part / whole) * 100.0), e)
  {
    HubRounds(part, whole, e, round);
    BrowserRounds(part, whole, e, round);
    BothNear(part * 100.0 / whole, round(round(part * 100.0) / whole), round(round(part / whole) * 100.0), e);
  }

  lemma RoundedAreClose(u: Metrics.Usage, e: real, round: real -> real)
    requires Rounds(round, e) && u.total > 0
    ensures PercentsClose(u, e, round)
  {
    RoundedAt(u.current as real, e, round);
    RoundedAt(u.total as real, e, round);
    SharesClose(round(u.current as real), round(u.total as real), e, round);
  }

  lemma ShareOfWhole(part: real, whole: real)
    requires whole > 0.0 && part >= 0.0
    ensures part / whole * 100.0 == part * 100.0 / whole
    ensures part / whole * 100.0 * whole == part * 100.0
    ensures part <= whole ==> 0.0 <= part / whole * 100.0 <= 100.0
  {
    var q := part / whole;
    assert q * whole == part;
    assert q * 100.0 * whole == part * 100.0;
    if part <= whole {
      assert 0.0 <= q <= 1.0;
    }
  }

  /** `y` is `x` up to a relative error of `u`. */
  predicate Near(x: real, y: real, u: real) {
    x - u * x <= y <= x + u * x
  }

  lemma Grows(a: real, b: real, k: real)
    requires a <= b && k >= 0.0
    ensures k * a <= k * b
  {
  }

  lemma Spread(k: real, a: real, b: real)
    ensures k * (a + b) == k * a + k * b && k * (a - b) == k * a - k * b
  {
  }

  lemma Swap(k: real, u: real, x: real)
    ensures k * (u * x) == u * (k * x)
  {
  }

  lemma NearScales(x: real, y: real, u: real, k: real)
    requires Near(x, y, u) && k >= 0.0
    ensures Near(k * x, k * y, u)
  {
    var e := u * x;
    Grows(x - e, y, k);
    Grows(y, x + e, k);
    Spread(k, x, e);
    Swap(k, u, x);
  }

  /** Lowering or raising by a share `u` keeps the order. */
  lemma LoweredGrows(x: real, y: real, u: real)
    requires x <= y && 0.0 <= u <= 1.0
    ensures x - u * x <= y - u * y
  {
    Grows(x, y, 1.0 - u);
    OneMinus(u, x);
    OneMinus(u, y);
  }

  lemma OneMinus(u: real, x: real)
    ensures (1.0 - u) * x == x - u * x
  {
  }

  lemma RaisedGrows(x: real, y: real, u: real)
    requires x <= y && 0.0 <= u
    ensures x + u * x <= y + u * y
  {
    Grows(x, y, u);
    assert u * x <= u * y;
  }

  /** Two roundings on the way from `q` to `b`. */
  predicate NearTwice(q: real, b: real, u: real) {
    q - 2.0 * (u * q) + u * (u * q) <= b <= q + 2.0 * (u * q) + u * (u * q)
  }

  lemma RoundedTwice(q: real, a: real, b: real, u: real)
    requires 0.0 <= u <= 1.0 && Near(q, a, u) && Near(a, b, u)
    ensures NearTwice(q, b, u)
  {
    var e := u * q;
    LoweredGrows(q - e, a, u);
    RaisedGrows(a, q + e, u);
    Spread(u, q, e);
  }

  lemma HubIsNear(part: real, whole: real, u: real, a: real, hub: real)
    requires whole > 0.0 && 0.0 <= u <= 1.0 && Near(part * 100.0, a, u) && Near(a / whole, hub, u)
    ensures NearTwice(part * 100.0 / whole, hub, u)
  {
    DividedNear(part * 100.0, a, whole, u);
    RoundedTwice(part * 100.0 / whole, a / whole, hub, u);
  }

  lemma BrowserIsNear(part: real, whole: real, u: real, b: real, browser: real)
    requires whole > 0.0 && 0.0 <= u <= 1.0 && Near(part / whole, b, u) && Near(b * 100.0, browser, u)
    ensures NearTwice(part * 100.0 / whole, browser, u)
  {
    ExactShare(part, whole);
    NearScales(part / whole, b, u, 100.0);
    assert b * 100.0 == 100.0 * b;
    RoundedTwice(part * 100.0 / whole, 100.0 * b, browser, u);
  }

  lemma BothNear(q: real, x: real, y: real, u: real)
    requires NearTwice(q, x, u) && NearTwice(q, y, u)
    ensures -4.0 * (u * q) <= x - y <= 4.0 * (u * q)
  {
    var e := u * q;
    assert x - y <= (q + 2.0 * e + u * e) - (q - 2.0 * e + u * e);
  }

  /** The hub multiplies first and gets `a`, then `hub`; the browser divides first and gets `b`, then
      `browser`. Each rounding has relative error at most `u`, and the two percentages differ by at most 4u
      of the exact one. */
  lemma RoundedPercentsAgree(part: real, whole: real, u: real, a: real, hub: real, b: real, browser: real)
    requires whole > 0.0 && 0.0 <= u <= 1.0
    requires Near(part * 100.0, a, u) && Near(a / whole, hub, u)
    requires Near(part / whole, b, u) && Near(b * 100.0, browser, u)
    ensures -4.0 * (u * (part * 100.0 / whole)) <= hub - browser <= 4.0 * (u * (part * 100.0 / whole))
  {
    HubIsNear(part, whole, u, a, hub);
    BrowserIsNear(part, whole, u, b, browser);
    BothNear(part * 100.0 / whole, hub, browser, u);
  }

  lemma DividedNear(x: real, y: real, whole: real, u: real)
    requires Near(x, y, u) && whole > 0.0
    ensures Near(x / whole, y / whole, u)
  {
    var k := 1.0 / whole;
    NearScales(x, y, u, k);
    Inverse(x, whole);
    Inverse(y, whole);
  }

  lemma Inverse(x: real, whole: real)
    requires whole > 0.0
    ensures 1.0 / whole * x == x / whole && 1.0 / whole > 0.0
  {
    var k := 1.0 / whole;
    assert k * whole == 1.0;
    assert k * x * whole == x;
  }

  lemma ExactShare(part: real, whole: real)
    requires whole > 0.0
    ensures 100.0 * (part / whole) == part * 100.0 / whole
  {
    var q := part / whole;
    assert q * whole == part;
    assert 100.0 * q * whole == part * 100.0;
  }

  /** `share` is how much of the total is used, in percent; zero when the total is unknown. */
  predicate PercentIs(share: real, u: Metrics.Usage) {
    if u.total == 0 then share == 0.0 else share * u.total as real == u.current as real * 100.0
  }

  lemma PercentMeans(u: Metrics.Usage)
    ensures PercentIs(Metrics.Percent(u), u)
  {
    if u.total > 0 {
      ShareOfWhole(u.current as real, u.total as real);
    }
  }

  /** A point holds the arrival time and the snapshot's own figures, each in its place. */
  lemma SampleHoldsSnapshot(s: Metrics.Snapshot, t: int)
    ensures var p := SampleFrom(s, t);
            && p.t == t && p.cpu == s.cpu
            && PercentIs(p.mem, s.mem) && PercentIs(p.swap, s.swap) && PercentIs(p.disk, s.disk)
            && p.netUp == s.netUp as real && p.netDown == s.netDown as real
            && p.tcp == s.tcp as real && p.udp == s.udp as real
            && p.load1 == if s.loads == [] then 0.0 else s.loads[0]
  {
    PercentMeans(s.mem);
    PercentMeans(s.swap);
    PercentMeans(s.disk);
  }

  /** `sampleFrom` with the percentages rounded. */
  function HubSample(s: Metrics.Snapshot, t: int, round: real -> real): Sample {
    SampleFrom(s, t).(mem := HubPercent(s.mem, round), swap := HubPercent(s.swap, round),
                      disk := HubPercent(s.disk, round))
  }

  /** The object trackSeries pushes, with the percentages rounded. */
  function BrowserSample(status: Metrics.Snapshot, t: int, round: real -> real): Sample {
    ClientSample(status, t).(mem := BrowserPercent(status.mem, round), swap := BrowserPercent(status.swap, round),
                             disk := BrowserPercent(status.disk, round))
  }

  /** The browser and the hub flatten a snapshot to the same sample, so the two kinds of points in a series
      can be drawn as one: over exact arithmetic they are equal, and rounded they differ in the three
      percentages only, by no more than those may. */
  lemma {:induction false} ClientAgreesWithHub(status: Metrics.Snapshot, t: int, e: real, round: real -> real)
    requires Rounds(round, e)
    ensures ClientSample(status, t) == SampleFrom(status, t)
    ensures var hub, browser := HubSample(status, t, round), BrowserSample(status, t, round);
            && browser.(mem := hub.mem, swap := hub.swap, disk := hub.disk) == hub
            && hub.mem - browser.mem == HubPercent(status.mem, round) - BrowserPercent(status.mem, round)
            && hub.swap - browser.swap == HubPercent(status.swap, round) - BrowserPercent(status.swap, round)
            && hub.disk - browser.disk == HubPercent(status.disk, round) - BrowserPercent(status.disk, round)
    ensures PercentsClose(status.mem, e, round) && PercentsClose(status.swap, e, round) &&
            PercentsClose(status.disk, e, round)
  {
    PercentsAgree(status.mem, e, round);
    PercentsAgree(status.swap, e, round);
    PercentsAgree(status.disk, e, round);
  }

  /** A server's series after one more appearance, before it is trimmed. */
  function Extended(series: seq<Sample>, t: int, v: View): seq<Sample> {
    if v.status.None? || !v.online then series
    else if series != [] && series[|series| - 1].t == t then series
    else series + [ClientSample(v.status.value, t)]
  }

  function First(v: View): seq<Sample> {
    if v.live.Some? then v.live.value else []
  }

  function TrackOne(series: map<int, seq<Sample>>, t: int, v: View): map<int, seq<Sample>> {
    var start := if v.id in series then series[v.id] else First(v);
    var longer := Extended(start, t, v);
    series[v.id := if longer == start then start else Last(longer, WINDOW)]
  }

  function TrackAll(series: map<int, seq<Sample>>, t: int, views: seq<View>): map<int, seq<Sample>> {
    if views == [] then series
    else TrackOne(TrackAll(series, t, views[..|views| - 1]), t, views[|views| - 1])
  }

  function Ids(views: seq<View>): set<int> {
    set i | 0 <= i < |views| :: views[i].id
  }

  function Tracked(series: map<int, seq<Sample>>, p: Payload): map<int, seq<Sample>> {
    var all := TrackAll(series, p.t, p.servers);
    map id | id in all && id in Ids(p.servers) :: all[id]
  }

  datatype Fleet = Fleet(cpu: seq<real>, mem: seq<real>, disk: seq<real>, up: seq<real>, down: seq<real>,
                         labels: seq<int>)

  class Client {
    var series: map<int, seq<Sample>>
    var fleet: Fleet

    constructor ()
      ensures series == map[] && fleet == Fleet([], [], [], [], [], [])
    {
      series, fleet := map[], Fleet([], [], [], [], [], []);
    }

    /** The body of trackSeries's loop. */
    method TrackServer(t: int, v: View)
      modifies this`series
      ensures series == TrackOne(old(series), t, v)
    {
      ghost var before := series;
      if v.id !in series {
        series := series[v.id := First(v)];
      }
      if v.status.None? || !v.online {
        assert series == before[v.id := series[v.id]];
        return;
      }
      var own := series[v.id];
      if own != [] && own[|own| - 1].t == t {
        assert series == before[v.id := series[v.id]];
        return;
      }
      own := own + [ClientSample(v.status.value, t)];
      series := series[v.id := own];
      if |own| > WINDOW {
        series := series[v.id := own[|own| - WINDOW..]];
      }
      assert series == before[v.id := Last(own, WINDOW)];
    }

    method TrackSeries(p: Payload)
      modifies this`series
      ensures series == Tracked(old(series), p)
    {
      var seen: set<int> := {};
      for i := 0 to |p.servers|
        invariant seen == Ids(p.servers[..i])
        invariant series == TrackAll(old(series), p.t, p.servers[..i])
      {
        var v := p.servers[i];
        OneMore(old(series), p.t, p.servers, i);
        seen := seen + {v.id};
        TrackServer(p.t, v);
      }
      assert p.servers[..|p.servers|] == p.servers;
      series := map id | id in series && id in seen :: series[id];
    }

    method ApplyPayload(p: Payload)
      modifies this
      ensures series == Tracked(old(series), p)
      ensures var f, s := old(fleet), p.summary;
              fleet == Fleet(Last(f.cpu + [s.cpu], WINDOW), Last(f.mem + [s.mem], WINDOW),
                             Last(f.disk + [s.disk], WINDOW), Last(f.up + [s.up], WINDOW),
                             Last(f.down + [s.down], WINDOW), Last(f.labels + [p.t], WINDOW))
    {
      TrackSeries(p);
      fleet := Fleet(Trim(fleet.cpu + [p.summary.cpu]), Trim(fleet.mem + [p.summary.mem]),
                     Trim(fleet.disk + [p.summary.disk]), Trim(fleet.up + [p.summary.up]),
                     Trim(fleet.down + [p.summary.down]), Trim(fleet.labels + [p.t]));
    }
  }

  /** How the script trims a fleet series, after every push. */
  function Trim<T>(s: seq<T>): seq<T> {
    if |s| > WINDOW then s[|s| - WINDOW..] else s
  }

  lemma {:induction false} OneMore(series: map<int, seq<Sample>>, t: int, views: seq<View>, i: nat)
    requires i < |views|
    ensures TrackAll(series, t, views[..i + 1]) == TrackOne(TrackAll(series, t, views[..i]), t, views[i])
    ensures Ids(views[..i + 1]) == Ids(views[..i]) + {views[i].id}
  {
    assert views[..i + 1][..i] == views[..i] && views[..i + 1] == views[..i] + [views[i]];
    IdsSnoc(views[..i], views[i]);
  }

  lemma IdsSnoc(views: seq<View>, v: View)
    ensures Ids(views + [v]) == Ids(views) + {v.id}
  {
    forall id | id in Ids(views) + {v.id} ensures id in Ids(views + [v]) {
      if id == v.id {
        assert (views + [v])[|views|].id == id;
      } else {
        var i :| 0 <= i < |views| && views[i].id == id;
        assert (views + [v])[i].id == id;
      }
    }
  }

  function SeriesAfter(payloads: seq<Payload>): map<int, seq<Sample>> {
    if payloads == [] then map[] else Tracked(SeriesAfter(payloads[..|payloads| - 1]), payloads[|payloads| - 1])
  }

  /** Where a server stands in a payload, if it is listed. */
  function Find(views: seq<View>, id: int): (r: Option<View>)
    ensures r.Some? ==> r.value in views && r.value.id == id
    ensures r.None? ==> id !in Ids(views)
  {
    if views == [] then None
    else if views[|views| - 1].id == id then Some(views[|views| - 1])
    else Find(views[..|views| - 1], id)
  }

  /** The payload adds a point for a server: it is online, has a status, and the last point kept is from
      another time. */
  predicate AddsPoint(series: seq<Sample>, t: int, v: View) {
    v.online && v.status.Some? && (series == [] || series[|series| - 1].t != t)
  }

  /** The full series of a listed server: the window of the payload that first showed it, then one
      sample per online payload whose time differs from the last one kept. */
  function Full(payloads: seq<Payload>, id: int): Option<seq<Sample>> {
    if payloads == [] then None
    else
      var p := payloads[|payloads| - 1];
      match Find(p.servers, id)
      case None => None
      case Some(v) =>
        var known := Full(payloads[..|payloads| - 1], id);
        var before := if known.Some? then known.value else if v.live.Some? then v.live.value else [];
        Some(if AddsPoint(before, p.t, v) then before + [ClientSample(v.status.value, p.t)] else before)
  }

  /** A payload of the hub: server ids are unique and no window is longer than the hub's. */
  predicate FromHub(p: Payload) {
    (forall i, j :: 0 <= i < j < |p.servers| ==> p.servers[i].id != p.servers[j].id) &&
    (forall i :: 0 <= i < |p.servers| ==> |First(p.servers[i])| <= WINDOW)
  }

  lemma {:induction false} TrackAllAt(series: map<int, seq<Sample>>, t: int, views: seq<View>, id: int)
    requires forall i, j :: 0 <= i < j < |views| ==> views[i].id != views[j].id
    ensures var all := TrackAll(series, t, views);
            match Find(views, id)
            case None => (id in all <==> id in series) && (id in series ==> all[id] == series[id])
            case Some(v) => id in all && all[id] == TrackOne(series, t, v)[id]
  {
    if views != [] {
      var init, v := views[..|views| - 1], views[|views| - 1];
      TrackAllAt(series, t, init, id);
    }
  }

  lemma ExtendLast(full: seq<Sample>, t: int, v: View)
    ensures var kept := Last(full, WINDOW);
            var longer := Extended(kept, t, v);
            (if longer == kept then kept else Last(longer, WINDOW)) ==
            Last(if AddsPoint(full, t, v) then full + [ClientSample(v.status.value, t)] else full, WINDOW)
  {
    if v.status.Some? {
      LastPush(full, ClientSample(v.status.value, t), WINDOW);
    }
  }

  /** What one payload of the hub does to a listed server's series: the kept series, or the window shown with
      it, gets the payload's sample when the server is online, has a status and the last point is from another
      time, and is cut to the last ninety; otherwise it stays. */
  lemma PayloadExtends(series: map<int, seq<Sample>>, p: Payload, v: View)
    requires FromHub(p) && v in p.servers
    ensures var before := if v.id in series then series[v.id] else if v.live.Some? then v.live.value else [];
            && v.id in Tracked(series, p)
            && Tracked(series, p)[v.id] ==
               if v.online && v.status.Some? && (before == [] || before[|before| - 1].t != p.t)
               then Last(before + [ClientSample(v.status.value, p.t)], 90) else before
  {
    ListedIsIn(p.servers, v);
    FoundIsOnly(p.servers, v);
    TrackAllAt(series, p.t, p.servers, v.id);
  }

  lemma {:induction false} FoundIsOnly(views: seq<View>, v: View)
    requires v in views && forall i, j :: 0 <= i < j < |views| ==> views[i].id != views[j].id
    ensures Find(views, v.id) == Some(v)
  {
    var n := |views| - 1;
    if views[n] != v {
      assert v in views[..n];
      FoundIsOnly(views[..n], v);
      var i :| 0 <= i < n && views[i] == v;
    }
  }

  /** The client's series are keyed by the servers of the latest payload, and each is the last 90
      samples of its full series. */
  lemma {:induction false} SeriesIsLastOfFull(payloads: seq<Payload>, id: int)
    requires forall i :: 0 <= i < |payloads| ==> FromHub(payloads[i])
    ensures var series := SeriesAfter(payloads);
            match Full(payloads, id)
            case None => id !in series
            case Some(full) => id in series && series[id] == Last(full, 90)
    ensures payloads != [] ==> SeriesAfter(payloads).Keys == Ids(payloads[|payloads| - 1].servers)
  {
    if payloads != [] {
      var init, p := payloads[..|payloads| - 1], payloads[|payloads| - 1];
      var before := SeriesAfter(init);
      SeriesIsLastOfFull(init, id);
      assert FromHub(p);
      TrackAllAt(before, p.t, p.servers, id);
      match Find(p.servers, id) {
        case None =>
        case Some(v) =>
          ListedIsIn(p.servers, v);
          var full := if Full(init, id).Some? then Full(init, id).value else First(v);
          ExtendLast(full, p.t, v);
      }
      AllIdsTracked(before, p);
    }
  }

  lemma ListedIsIn(views: seq<View>, v: View)
    requires v in views
    ensures v.id in Ids(views)
  {
  }

  lemma AllIdsTracked(series: map<int, seq<Sample>>, p: Payload)
    requires FromHub(p)
    ensures Tracked(series, p).Keys == Ids(p.servers)
  {
    forall id | id in Ids(p.servers) ensures id in TrackAll(series, p.t, p.servers) {
      TrackAllAt(series, p.t, p.servers, id);
    }
  }
}
