/** What the hub does with a push: the update handshake, and at most one history row per interval per
    server under every interleaving of pushes. */
module Ingest {
  import opened Text
  import History
  import opened Update

  type Sample = History.Sample

  /** The lookup by token: no token sent, no such token, a failed query, or the server's row as read. */
  datatype Lookup = NoToken | Unknown | Failed | Found(id: int, row: Row)

  /** Which of the push's own writes fail; the handler logs such a failure and goes on. */
  datatype Faults = Faults(touch: bool, insert: bool, clear: bool)

  datatype Reply = Reply(status: int, interval: int, update: string)

  class Hub {
    const sampleEvery: int
    const pushInterval: int
    var lastPersist: map<int, int>
    const table: ServerTable
    const samples: History.SampleTable

    constructor (sampleEvery: int, pushInterval: int, table: ServerTable, samples: History.SampleTable)
      ensures this.sampleEvery == (if sampleEvery <= 0 then 30 else sampleEvery)
      ensures this.pushInterval == (if pushInterval <= 0 then 2 else pushInterval)
      ensures this.table == table && this.samples == samples && lastPersist == map[]
    {
      this.sampleEvery := if sampleEvery <= 0 then 30 else sampleEvery;
      this.pushInterval := if pushInterval <= 0 then 2 else pushInterval;
      this.table, this.samples, lastPersist := table, samples, map[];
    }

    /** The part of maybePersist under persistMu. */
    method Decide(server: int, now: int) returns (persist: bool)
      modifies this
      ensures persist <==> now - LastOf(old(lastPersist), server) >= sampleEvery
      ensures lastPersist == if persist then old(lastPersist)[server := now] else old(lastPersist)
    {
      var last := LastOf(lastPersist, server);
      if now - last < sampleEvery {
        return false;
      }
      lastPersist := lastPersist[server := now];
      return true;
    }

    method MaybePersist(server: int, sample: Sample, now: int, insertFails: bool)
      requires sample.t == now
      modifies this, samples
      ensures lastPersist == PersistedAt(old(lastPersist), server, now, sampleEvery)
      ensures samples.rows ==
              if Persists(old(lastPersist), server, now, sampleEvery) && !insertFails
              then old(samples.rows)[server := History.Inserted(old(samples.RowsOf(server)), sample)]
              else old(samples.rows)
    {
      var persist := Decide(server, now);
      if persist && !insertFails {
        samples.InsertSample(server, sample);
      }
    }

    /** handleAgentPush: `sample` is the decoded snapshot (`None` for a malformed body) and `agent` the
        version it reports. The row may have changed since it was looked up. */
    method HandlePush(lookup: Lookup, sample: Option<Sample>, agent: string, now: int, faults: Faults)
      returns (reply: Reply)
      requires sample.Some? ==> sample.value.t == now
      modifies this, samples, table
      ensures reply.status ==
              if lookup.NoToken? || lookup.Unknown? then 401
              else if lookup.Failed? then 500
              else if sample.None? then 400
              else 200
      ensures reply.status != 200 ==>
                table.rows == old(table.rows) && samples.rows == old(samples.rows) && lastPersist == old(lastPersist)
      ensures reply.status == 200 ==>
                var target := lookup.row.updateTo;
                && reply.interval == pushInterval && reply.update == UpdateField(agent, target)
                && table.rows == TableAfter(old(table.rows), lookup.id, agent, target, now, faults)
                && lastPersist == PersistedAt(old(lastPersist), lookup.id, now, sampleEvery)
                && samples.rows ==
                   if Persists(old(lastPersist), lookup.id, now, sampleEvery) && !faults.insert
                   then old(samples.rows)[lookup.id := History.Inserted(old(samples.RowsOf(lookup.id)), sample.value)]
                   else old(samples.rows)
    {
      if lookup.NoToken? || lookup.Unknown? {
        return Reply(401, 0, "");
      }
      if lookup.Failed? {
        return Reply(500, 0, "");
      }
      if sample.None? {
        return Reply(400, 0, "");
      }
      var id, row := lookup.id, lookup.row;
      if !faults.touch {
        table.Touch(id, now, agent);
      }
      MaybePersist(id, sample.value, now, faults.insert);
      var update := "";
      if row.updateTo != "" {
        if row.updateTo == agent {
          if !faults.clear {
            table.Clear(id);
          }
        } else {
          update := row.updateTo;
        }
      }
      assert id in old(table.rows) ==>
          table.rows[id] == TableAfter(old(table.rows), id, agent, row.updateTo, now, faults)[id];
      return Reply(200, pushInterval, update);
    }
  }

  predicate Persists(last: map<int, int>, server: int, now: int, every: int) {
    now - LastOf(last, server) >= every
  }

  function PersistedAt(last: map<int, int>, server: int, now: int, every: int): map<int, int> {
    if Persists(last, server, now, every) then last[server := now] else last
  }

  /** The servers table after a push of `agent` that has read `target`. */
  function TableAfter(rows: map<int, Row>, id: int, agent: string, target: string, now: int, faults: Faults)
    : map<int, Row>
  {
    if id !in rows then rows
    else
      var row := rows[id];
      var flag := FlagAfter(row.updateTo, agent, target, faults.clear);
      rows[id := if faults.touch then row.(updateTo := flag) else Row(agent, flag, now)]
  }

  /** And what it takes a request to be is what RequestAgentUpdate does to the agent's row. */
  lemma RequestIsProtocolStep(s: State, rows: map<int, Row>, id: int, version: string, all: bool)
    requires id > 0 && id in rows && rows[id].agent == s.recorded && rows[id].updateTo == s.flag
    ensures var t := Update.Next(s, Request(version, all));
            t.flag == Requested(rows, if all then 0 else id, version)[id].updateTo
  {
  }

  /** A push touches one row: its version and arrival time are recorded unless that write fails, and its
      request is cleared exactly when the snapshot reports the target read and that write succeeds. */
  lemma PushTouchesOneRow(rows: map<int, Row>, id: int, agent: string, target: string, now: int, faults: Faults)
    ensures var after := TableAfter(rows, id, agent, target, now, faults);
            && after.Keys == rows.Keys && (forall k :: k in rows && k != id ==> after[k] == rows[k])
            && (id in rows ==>
                  && (!faults.touch ==> after[id].agent == agent && after[id].lastSeen == now)
                  && (faults.touch ==> after[id].agent == rows[id].agent && after[id].lastSeen == rows[id].lastSeen)
                  && after[id].updateTo ==
                     if !faults.clear && target != "" && target == agent then "" else rows[id].updateTo)
  {
  }

  /** What the protocol takes one answered push to be is what handleAgentPush does, for the agent's current
      push and for one it has abandoned. */
  lemma HandlerIsProtocolStep(s: State, rows: map<int, Row>, id: int, now: int, faults: Faults)
    requires id in rows && rows[id].agent == s.recorded && rows[id].updateTo == s.flag
    ensures s.phase.Asked? ==>
              var t := Update.Next(s, Answer(faults.touch, faults.clear));
              var row := TableAfter(rows, id, s.running, s.phase.target, now, faults)[id];
              && t.recorded == row.agent && t.flag == row.updateTo
              && t.phase == Answered(UpdateField(s.running, s.phase.target))
    ensures forall i :: 0 <= i < |s.late| && s.late[i].target.Some? ==>
              var t := Update.Next(s, LateAnswer(i, faults.touch, faults.clear));
              var row := TableAfter(rows, id, s.late[i].agent, s.late[i].target.value, now, faults)[id];
              t.recorded == row.agent && t.flag == row.updateTo
  {
  }

  function LastOf(last: map<int, int>, server: int): int {
    if server in last then last[server] else 0
  }

  // ---- every interleaving of the pushes of all servers ----

  /** `accepted` lists, per server, the times whose rows were let through, in lock order; `writes` are
      the rows let through but not yet written. */
  datatype System = System(
    last: map<int, int>, accepted: map<int, seq<int>>,
    writes: seq<(int, Sample)>, rows: map<int, seq<Sample>>)

  datatype Step =
    | Offer(server: int, sample: Sample)   // the critical section, with the push's own reading of the clock
    | Write(index: nat, fails: bool)       // InsertSample of one row let through
    | Prune(before: int)
    | Delete(server: int)                  // DeleteServer drops the rows, not lastPersist

  const START := System(map[], map[], [], map[])

  function Accepted(s: System, server: int): seq<int> {
    if server in s.accepted then s.accepted[server] else []
  }

  function RowsOf(s: System, server: int): seq<Sample> {
    if server in s.rows then s.rows[server] else []
  }

  function Next(s: System, step: Step, every: int): System {
    match step
    case Offer(server, sample) =>
      if sample.t - LastOf(s.last, server) < every then s
      else s.(last := s.last[server := sample.t],
              accepted := s.accepted[server := Accepted(s, server) + [sample.t]],
              writes := s.writes + [(server, sample)])
    case Write(index, fails) =>
      if index >= |s.writes| then s
      else
        var (server, sample) := s.writes[index];
        var t := s.(writes := s.writes[..index] + s.writes[index + 1..]);
        if fails then t
        else t.(rows := s.rows[server := History.Inserted(RowsOf(s, server), sample)])
    case Prune(before) =>
      s.(rows := map server | server in s.rows :: History.Since(s.rows[server], before))
    case Delete(server) => s.(rows := s.rows - {server})
  }

  function Run(steps: seq<Step>, every: int): System {
    if steps == [] then START else Next(Run(steps[..|steps| - 1], every), steps[|steps| - 1], every)
  }

  /** The machine's steps are what the hub's methods do to the same state. */
  lemma StepsAreMethods(s: System, server: int, sample: Sample, every: int)
    ensures var t := Next(s, Offer(server, sample), every);
            && t.last == PersistedAt(s.last, server, sample.t, every)
            && t.writes == s.writes + (if Persists(s.last, server, sample.t, every) then [(server, sample)] else [])
            && t.rows == s.rows
    ensures forall i, fails :: 0 <= i < |s.writes| ==>
              var t := Next(s, Write(i, fails), every);
              var (at, row) := s.writes[i];
              && t.rows == (if fails then s.rows else s.rows[at := History.Inserted(RowsOf(s, at), row)])
              && t.last == s.last
    ensures forall before :: Next(s, Prune(before), every) ==
                             s.(rows := map k | k in s.rows :: History.Since(s.rows[k], before))
  {
    assert s.writes + [] == s.writes;
  }

  /** After a row is let through at `now`, none is at any time before `now` plus the interval, and the next
      one is from then on. */
  lemma OneRowPerInterval(last: map<int, int>, server: int, now: int, later: int, every: int)
    requires now - LastOf(last, server) >= every
    ensures Persists(last, server, now, every)
    ensures Persists(PersistedAt(last, server, now, every), server, later, every) <==> later >= now + every
  {
  }

  predicate Spaced(times: seq<int>, every: int) {
    forall i, j :: 0 <= i < j < |times| ==> times[j] - times[i] >= every
  }

  /** The rows of `server` still to be written have distinct accepted times. */
  ghost predicate WritesFit(writes: seq<(int, Sample)>, server: int, times: seq<int>) {
    && (forall i :: 0 <= i < |writes| && writes[i].0 == server ==> writes[i].1.t in times)
    && (forall i, j :: 0 <= i < j < |writes| && writes[i].0 == server && writes[j].0 == server ==>
          writes[i].1.t != writes[j].1.t)
  }

  /** The stored rows of `server` have accepted times, none of them still to be written. */
  ghost predicate RowsFit(rows: seq<Sample>, writes: seq<(int, Sample)>, server: int, times: seq<int>) {
    && History.Ascending(rows)
    && (forall r :: r in rows ==> r.t in times)
    && (forall r, i :: r in rows && 0 <= i < |writes| && writes[i].0 == server ==> writes[i].1.t != r.t)
  }

  /** No accepted time is later than the one noted last, nor earlier than one interval. */
  ghost predicate Timely(times: seq<int>, every: int, last: int) {
    last >= 0 && forall t :: t in times ==> every <= t <= last
  }

  lemma TimelySnoc(times: seq<int>, every: int, last: int, t: int)
    requires Timely(times, every, last) && every >= 1 && t - last >= every
    ensures Timely(times + [t], every, t)
  {
  }

  ghost predicate Inv(s: System, every: int, server: int) {
    Holds(LastOf(s.last, server), Accepted(s, server), s.writes, RowsOf(s, server), every, server)
  }

  ghost predicate Holds(last: int, times: seq<int>, writes: seq<(int, Sample)>, rows: seq<Sample>,
                        every: int, server: int) {
    && Spaced(times, every)
    && last == (if times == [] then 0 else times[|times| - 1])
    && Timely(times, every, last)
    && WritesFit(writes, server, times)
    && RowsFit(rows, writes, server, times)
  }

  lemma SpacedSnoc(times: seq<int>, t: int, every: int)
    requires Spaced(times, every) && every >= 1 && (times != [] ==> t - times[|times| - 1] >= every)
    ensures Spaced(times + [t], every) && t !in times
  {
    forall i | 0 <= i < |times| ensures t - times[i] >= every {
      if i < |times| - 1 {
        assert times[|times| - 1] - times[i] >= every;
      }
    }
  }

  /** A row of another server is queued. */
  lemma OtherQueued(rows: seq<Sample>, writes: seq<(int, Sample)>, w: (int, Sample), server: int, times: seq<int>)
    requires WritesFit(writes, server, times) && RowsFit(rows, writes, server, times) && w.0 != server
    ensures WritesFit(writes + [w], server, times) && RowsFit(rows, writes + [w], server, times)
  {
  }

  /** A row at a new accepted time is queued. */
  lemma OwnQueued(rows: seq<Sample>, writes: seq<(int, Sample)>, sample: Sample, server: int, times: seq<int>)
    requires WritesFit(writes, server, times) && RowsFit(rows, writes, server, times) && sample.t !in times
    ensures WritesFit(writes + [(server, sample)], server, times + [sample.t])
    ensures RowsFit(rows, writes + [(server, sample)], server, times + [sample.t])
  {
  }

  lemma {:induction false} OfferKeepsInv(s: System, at: int, sample: Sample, every: int, server: int)
    requires Inv(s, every, server) && every >= 1
    ensures Inv(Next(s, Offer(at, sample), every), every, server)
  {
    if sample.t - LastOf(s.last, at) >= every {
      var t := Next(s, Offer(at, sample), every);
      var times, rows := Accepted(s, server), RowsOf(s, server);
      assert RowsOf(t, server) == rows;
      if at == server {
        SpacedSnoc(times, sample.t, every);
        TimelySnoc(times, every, LastOf(s.last, server), sample.t);
        OwnQueued(rows, s.writes, sample, server, times);
        assert Accepted(t, server) == times + [sample.t];
      } else {
        OtherQueued(rows, s.writes, (at, sample), server, times);
        assert Accepted(t, server) == times;
      }
    }
  }

  lemma RemovedWrite(writes: seq<(int, Sample)>, index: nat, rows: seq<Sample>, server: int, times: seq<int>)
    requires index < |writes| && WritesFit(writes, server, times) && RowsFit(rows, writes, server, times)
    ensures var rest := writes[..index] + writes[index + 1..];
            && WritesFit(rest, server, times) && RowsFit(rows, rest, server, times)
            && (writes[index].0 == server ==>
                  forall i :: 0 <= i < |rest| && rest[i].0 == server ==> rest[i].1.t != writes[index].1.t)
  {
    var rest := writes[..index] + writes[index + 1..];
    assert forall i :: 0 <= i < |rest| ==> rest[i] == writes[if i < index then i else i + 1];
  }

  lemma WrittenRow(rows: seq<Sample>, sample: Sample, rest: seq<(int, Sample)>, server: int, times: seq<int>)
    requires RowsFit(rows, rest, server, times) && sample.t in times
    requires forall i :: 0 <= i < |rest| && rest[i].0 == server ==> rest[i].1.t != sample.t
    ensures RowsFit(History.Inserted(rows, sample), rest, server, times)
  {
    History.InsertIsKeyed(rows, sample);
    History.InsertKeeps(rows, sample);
  }

  lemma WriteLeaves(s: System, index: nat, fails: bool, every: int, server: int)
    requires index < |s.writes|
    ensures var t := Next(s, Write(index, fails), every);
            var (at, sample) := s.writes[index];
            && t.last == s.last && Accepted(t, server) == Accepted(s, server)
            && t.writes == s.writes[..index] + s.writes[index + 1..]
            && RowsOf(t, server) ==
               if at == server && !fails then History.Inserted(RowsOf(s, server), sample) else RowsOf(s, server)
  {
  }

  lemma {:induction false} WriteKeepsInv(s: System, index: nat, fails: bool, every: int, server: int)
    requires Inv(s, every, server)
    ensures Inv(Next(s, Write(index, fails), every), every, server)
  {
    if index < |s.writes| {
      var (at, sample) := s.writes[index];
      var rest := s.writes[..index] + s.writes[index + 1..];
      WriteLeaves(s, index, fails, every, server);
      RemovedWrite(s.writes, index, RowsOf(s, server), server, Accepted(s, server));
      if at == server && !fails {
        WrittenRow(RowsOf(s, server), sample, rest, server, Accepted(s, server));
      }
    }
  }

  lemma PruneKeepsInv(s: System, before: int, every: int, server: int)
    requires Inv(s, every, server)
    ensures Inv(Next(s, Prune(before), every), every, server)
  {
    var t := Next(s, Prune(before), every);
    PrunedRowsFit(RowsOf(s, server), s.writes, server, Accepted(s, server), before);
    assert RowsOf(t, server) == History.Since(RowsOf(s, server), before);
    assert Accepted(t, server) == Accepted(s, server);
  }

  lemma PrunedRowsFit(rows: seq<Sample>, writes: seq<(int, Sample)>, server: int, times: seq<int>, before: int)
    requires RowsFit(rows, writes, server, times)
    ensures RowsFit(History.Since(rows, before), writes, server, times)
  {
    History.SinceSelects(rows, before);
  }

  lemma {:induction false} RunKeepsInv(steps: seq<Step>, every: int, server: int)
    requires every >= 1
    ensures Inv(Run(steps, every), every, server)
  {
    if steps != [] {
      var s, step := Run(steps[..|steps| - 1], every), steps[|steps| - 1];
      RunKeepsInv(steps[..|steps| - 1], every, server);
      match step
      case Offer(at, sample) => OfferKeepsInv(s, at, sample, every, server);
      case Write(index, fails) => WriteKeepsInv(s, index, fails, every, server);
      case Prune(before) => PruneKeepsInv(s, before, every, server);
      case Delete(_) =>
    }
  }

  /** Whatever the clock does and however pushes interleave: the rows let through for a server strictly
      ascend by at least the interval, and its stored rows are among them and keep that distance. */
  lemma {:induction false} PersistedRowsAreSpaced(steps: seq<Step>, every: int, server: int)
    requires every >= 1
    ensures var s := Run(steps, every);
            var rows := RowsOf(s, server);
            && Spaced(Accepted(s, server), every)
            && (forall i, j :: 0 <= i < j < |rows| ==> rows[j].t - rows[i].t >= every)
            && (forall r :: r in rows ==> r.t in Accepted(s, server))
  {
    RunKeepsInv(steps, every, server);
    var s := Run(steps, every);
    var rows, times := RowsOf(s, server), Accepted(s, server);
    forall i, j | 0 <= i < j < |rows| ensures rows[j].t - rows[i].t >= every {
      assert rows[i] in rows && rows[j] in rows;
      var a :| 0 <= a < |times| && times[a] == rows[i].t;
      var b :| 0 <= b < |times| && times[b] == rows[j].t;
    }
  }

  /** INSERT OR REPLACE never replaces: a write adds its row and keeps every other. */
  lemma {:induction false} WritesNeverReplace(steps: seq<Step>, every: int, index: nat)
    requires every >= 1 && index < |Run(steps, every).writes|
    ensures var s := Run(steps, every);
            var (server, sample) := s.writes[index];
            multiset(RowsOf(Next(s, Write(index, false), every), server)) ==
            multiset(RowsOf(s, server)) + multiset{sample}
  {
    var s := Run(steps, every);
    var (server, sample) := s.writes[index];
    RunKeepsInv(steps, every, server);
    History.InsertOfNewTimeReplacesNothing(RowsOf(s, server), sample);
  }

  // ---- how many rows fit ----

  lemma {:induction false} SpacedSpread(rows: seq<Sample>, every: int)
    requires rows != [] && forall i, j :: 0 <= i < j < |rows| ==> rows[j].t - rows[i].t >= every
    ensures rows[|rows| - 1].t - rows[0].t >= (|rows| - 1) * every
  {
    if |rows| > 1 {
      var init := rows[..|rows| - 1];
      SpacedSpread(init, every);
      assert rows[|rows| - 1].t - rows[|rows| - 2].t >= every;
      assert (|rows| - 1) * every == (|init| - 1) * every + every;
    }
  }

  lemma SpreadCounts(n: nat, width: int, every: int)
    requires every >= 1 && n >= 1 && (n - 1) * every <= width
    ensures n <= width / every + 1
  {
    History.DivMonotone((n - 1) * every, width, every);
    History.DivUnique((n - 1) * every, n - 1, 0, every);
  }

  /** The rows with a timestamp in the closed interval from `lo` to `hi`. */
  function Within(rows: seq<Sample>, lo: int, hi: int): seq<Sample> {
    if rows == [] then []
    else
      var r := rows[|rows| - 1];
      var kept := Within(rows[..|rows| - 1], lo, hi);
      if lo <= r.t <= hi then kept + [r] else kept
  }

  lemma {:induction false} WithinSelects(rows: seq<Sample>, lo: int, hi: int)
    ensures forall r :: r in Within(rows, lo, hi) <==> r in rows && lo <= r.t <= hi
  {
    if rows != [] {
      WithinSelects(rows[..|rows| - 1], lo, hi);
      assert rows == rows[..|rows| - 1] + [rows[|rows| - 1]];
    }
  }

  /** Rows far enough from a new last one stay so when it is appended. */
  lemma SpacedByOne(w: seq<Sample>, r: Sample, every: int)
    requires forall i, j :: 0 <= i < j < |w| ==> w[j].t - w[i].t >= every
    requires forall x :: x in w ==> r.t - x.t >= every
    ensures var all := w + [r]; forall i, j :: 0 <= i < j < |all| ==> all[j].t - all[i].t >= every
  {
    forall i | 0 <= i < |w| ensures r.t - w[i].t >= every {
      assert w[i] in w;
    }
  }

  lemma {:induction false} WithinIsSpaced(rows: seq<Sample>, lo: int, hi: int, every: int)
    requires forall i, j :: 0 <= i < j < |rows| ==> rows[j].t - rows[i].t >= every
    ensures var w := Within(rows, lo, hi);
            && (forall i, j :: 0 <= i < j < |w| ==> w[j].t - w[i].t >= every)
            && (forall r :: r in w <==> r in rows && lo <= r.t <= hi)
  {
    WithinSelects(rows, lo, hi);
    if rows != [] {
      var init, r := rows[..|rows| - 1], rows[|rows| - 1];
      WithinIsSpaced(init, lo, hi, every);
      var w := Within(init, lo, hi);
      forall x | x in w ensures r.t - x.t >= every {
        var j :| 0 <= j < |init| && init[j] == x;
        assert rows[j] == x;
      }
      SpacedByOne(w, r, every);
    }
  }

  /** The closed interval from `lo` to `hi` holds at most (hi - lo) / interval + 1 rows of a server. */
  lemma IntervalHoldsFew(steps: seq<Step>, every: int, server: int, lo: int, hi: int)
    requires every >= 1 && lo <= hi
    ensures |Within(RowsOf(Run(steps, every), server), lo, hi)| <= (hi - lo) / every + 1
  {
    PersistedRowsAreSpaced(steps, every, server);
    WithinFits(RowsOf(Run(steps, every), server), lo, hi, every);
  }

  lemma WithinFits(rows: seq<Sample>, lo: int, hi: int, every: int)
    requires every >= 1 && forall i, j :: 0 <= i < j < |rows| ==> rows[j].t - rows[i].t >= every
    ensures |Within(rows, lo, hi)| <= Fit(lo, hi, every)
  {
    WithinIsSpaced(rows, lo, hi, every);
    SpacedFit(Within(rows, lo, hi), lo, hi, every);
  }

  /** How many rows, one per interval, fit between two times, both included. */
  function Fit(lo: int, hi: int, every: int): nat
    requires every >= 1
  {
    if hi < lo then 0
    else
      History.DivMonotone(0, hi - lo, every);
      (hi - lo) / every + 1
  }

  /** The first row of all comes no earlier than one interval. */
  function Floor(cutoff: int, every: int): int {
    if cutoff < every then every else cutoff
  }

  /** The most rows a server can have after pruning at `cutoff`, when `last` is the time noted for its
      last accepted row. */
  function MostRows(last: int, cutoff: int, every: int): nat
    requires every >= 1
  {
    Fit(Floor(cutoff, every), last, every)
  }

  lemma SpacedFit(rows: seq<Sample>, lo: int, hi: int, every: int)
    requires every >= 1
    requires forall i, j :: 0 <= i < j < |rows| ==> rows[j].t - rows[i].t >= every
    requires forall r :: r in rows ==> lo <= r.t <= hi
    ensures |rows| <= Fit(lo, hi, every)
  {
    if rows != [] {
      SpacedSpread(rows, every);
      assert rows[0] in rows && rows[|rows| - 1] in rows;
      SpreadCounts(|rows|, hi - lo, every);
    }
  }

  /** Whatever the clock does: pruning at `cutoff` leaves at most one row per interval between the cutoff
      and the server's last accepted time; and if no row is later than now, between the cutoff and now. */
  lemma {:induction false} PruningBoundsRows(steps: seq<Step>, every: int, server: int, cutoff: int, now: int)
    requires every >= 1
    ensures var s := Run(steps, every);
            var left := |RowsOf(Next(s, Prune(cutoff), every), server)|;
            && left <= MostRows(LastOf(s.last, server), cutoff, every)
            && ((forall r :: r in RowsOf(s, server) ==> r.t <= now) ==> left <= Fit(cutoff, now, every))
  {
    var s := Run(steps, every);
    var rows := RowsOf(s, server);
    assert RowsOf(Next(s, Prune(cutoff), every), server) == History.Since(rows, cutoff);
    RowsAreTimely(steps, every, server);
    PrunedFit(rows, cutoff, Floor(cutoff, every), LastOf(s.last, server), every);
    if forall r :: r in rows ==> r.t <= now {
      PrunedFit(rows, cutoff, cutoff, now, every);
    }
  }

  lemma PrunedFit(rows: seq<Sample>, cutoff: int, lo: int, hi: int, every: int)
    requires every >= 1 && forall i, j :: 0 <= i < j < |rows| ==> rows[j].t - rows[i].t >= every
    requires forall r :: r in rows ==> r.t <= hi && (r.t >= cutoff ==> r.t >= lo)
    ensures |History.Since(rows, cutoff)| <= Fit(lo, hi, every)
  {
    PrunedRows(rows, cutoff, every);
    SpacedFit(History.Since(rows, cutoff), lo, hi, every);
  }

  lemma RowsAreTimely(steps: seq<Step>, every: int, server: int)
    requires every >= 1
    ensures var s := Run(steps, every);
            var rows := RowsOf(s, server);
            && (forall i, j :: 0 <= i < j < |rows| ==> rows[j].t - rows[i].t >= every)
            && (forall r :: r in rows ==> every <= r.t <= LastOf(s.last, server))
  {
    PersistedRowsAreSpaced(steps, every, server);
    RunKeepsInv(steps, every, server);
  }

  lemma PrunedRows(rows: seq<Sample>, cutoff: int, every: int)
    requires every >= 1 && forall i, j :: 0 <= i < j < |rows| ==> rows[j].t - rows[i].t >= every
    ensures var left := History.Since(rows, cutoff);
            && (forall i, j :: 0 <= i < j < |left| ==> left[j].t - left[i].t >= every)
            && (forall r :: r in left ==> r in rows && cutoff <= r.t)
  {
    History.SinceSelects(rows, cutoff);
    if rows != [] {
      var hi := rows[|rows| - 1].t;
      SinceIsWithin(rows, cutoff, hi);
      WithinIsSpaced(rows, cutoff, hi, every);
    }
  }

  lemma {:induction false} SinceIsWithin(rows: seq<Sample>, lo: int, hi: int)
    requires forall r :: r in rows ==> r.t <= hi
    ensures History.Since(rows, lo) == Within(rows, lo, hi)
  {
    if rows != [] {
      SinceIsWithin(rows[..|rows| - 1], lo, hi);
    }
  }

  lemma {:induction false} RunSnoc(steps: seq<Step>, step: Step, every: int)
    ensures Run(steps + [step], every) == Next(Run(steps, every), step, every)
  {
    assert (steps + [step])[..|steps|] == steps;
  }

  /** One row offered and written. */
  lemma StoreOne(steps: seq<Step>, server: int, sample: Sample, every: int)
    returns (more: seq<Step>)
    requires Run(steps, every).writes == [] && sample.t - LastOf(Run(steps, every).last, server) >= every
    ensures var s, t := Run(steps, every), Run(more, every);
            t.writes == [] && LastOf(t.last, server) == sample.t &&
            RowsOf(t, server) == History.Inserted(RowsOf(s, server), sample)
  {
    RunSnoc(steps, Offer(server, sample), every);
    RunSnoc(steps + [Offer(server, sample)], Write(0, false), every);
    more := steps + [Offer(server, sample)] + [Write(0, false)];
  }

  /** A row at time `t`. */
  function RowAt(t: int): Sample {
    History.ZERO.(t := t)
  }

  /** One row per interval, `n` rows in all, ending at `last`. */
  function Ramp(last: int, every: int, n: nat): seq<Sample>
    decreases n
  {
    if n == 0 then [] else Ramp(last - every, every, n - 1) + [RowAt(last)]
  }

  lemma {:induction false} RampIsEarly(last: int, every: int, n: nat)
    requires every >= 1
    ensures |Ramp(last, every, n)| == n
    ensures forall r :: r in Ramp(last, every, n) ==> r.t <= last
    decreases n
  {
    if n > 0 {
      RampIsEarly(last - every, every, n - 1);
    }
  }

  lemma {:induction false} InsertedLast(rows: seq<Sample>, v: Sample)
    requires forall r :: r in rows ==> r.t < v.t
    ensures History.Inserted(rows, v) == rows + [v]
  {
    if rows != [] {
      InsertedLast(rows[1..], v);
      assert rows[0] in rows && rows == [rows[0]] + rows[1..];
    }
  }

  /** A server that stores a row every interval, without a gap, up to `last`. */
  lemma {:induction false} DenseRun(server: int, last: int, every: int, n: nat) returns (steps: seq<Step>)
    requires every >= 1 && n >= 1 && last - (n - 1) * every >= every
    ensures var s := Run(steps, every);
            s.writes == [] && LastOf(s.last, server) == last && RowsOf(s, server) == Ramp(last, every, n)
    decreases n
  {
    if n == 1 {
      steps := StoreOne([], server, RowAt(last), every);
      assert Ramp(last - every, every, 0) == [];
    } else {
      assert (n - 1) * every == (n - 2) * every + every;
      steps := DenseRun(server, last - every, every, n - 1);
      RampIsEarly(last - every, every, n - 1);
      InsertedLast(Ramp(last - every, every, n - 1), RowAt(last));
      steps := StoreOne(steps, server, RowAt(last), every);
    }
  }

  lemma {:induction false} RampSurvives(last: int, every: int, n: nat, cutoff: int)
    requires every >= 1 && (n >= 1 ==> last - (n - 1) * every >= cutoff)
    ensures History.Since(Ramp(last, every, n), cutoff) == Ramp(last, every, n)
    decreases n
  {
    if n >= 1 {
      assert (n - 1) * every >= 0;
      if n >= 2 {
        assert (n - 1) * every == (n - 2) * every + every;
      }
      RampSurvives(last - every, every, n - 1, cutoff);
      assert (Ramp(last - every, every, n - 1) + [RowAt(last)])[..|Ramp(last - every, every, n - 1)|]
          == Ramp(last - every, every, n - 1);
    }
  }

  lemma DenseFit(floor: int, last: int, every: int) returns (n: nat)
    requires every >= 1 && floor <= last
    ensures n >= 1 && n == Fit(floor, last, every) && last - (n - 1) * every >= floor
  {
    n := Fit(floor, last, every);
    History.DivMod(last - floor, every);
  }

  lemma DensePruned(server: int, last: int, every: int, n: nat, cutoff: int) returns (steps: seq<Step>)
    requires every >= 1 && n >= 1 && last - (n - 1) * every >= Floor(cutoff, every)
    ensures var s := Run(steps, every);
            LastOf(s.last, server) == last && |RowsOf(Next(s, Prune(cutoff), every), server)| == n
  {
    steps := DenseRun(server, last, every, n);
    RampSurvives(last, every, n, cutoff);
    RampIsEarly(last, every, n);
  }

  /** The bound is met: some run leaves exactly that many rows. */
  lemma MostRowsAreReached(server: int, last: int, cutoff: int, every: int) returns (steps: seq<Step>)
    requires every >= 1 && MostRows(last, cutoff, every) >= 1
    ensures var s := Run(steps, every);
            && LastOf(s.last, server) == last
            && |RowsOf(Next(s, Prune(cutoff), every), server)| == MostRows(last, cutoff, every)
  {
    var n := DenseFit(Floor(cutoff, every), last, every);
    steps := DensePruned(server, last, every, n, cutoff);
  }

  /** So the bound in terms of now holds for every run with a given last accepted time exactly when that
      time lies early enough, which the hub can read off lastPersist. */
  lemma PruneBoundHoldsExactly(server: int, last: int, cutoff: int, now: int, every: int)
    requires every >= 1 && cutoff <= now
    ensures (forall steps :: LastOf(Run(steps, every).last, server) == last ==>
               |RowsOf(Next(Run(steps, every), Prune(cutoff), every), server)| <= Fit(cutoff, now, every))
            <==> MostRows(last, cutoff, every) <= Fit(cutoff, now, every)
  {
    if MostRows(last, cutoff, every) <= Fit(cutoff, now, every) {
      forall steps | LastOf(Run(steps, every).last, server) == last
        ensures |RowsOf(Next(Run(steps, every), Prune(cutoff), every), server)| <= Fit(cutoff, now, every)
      {
        PruningBoundsRows(steps, every, server, cutoff, now);
      }
    } else {
      var steps := MostRowsAreReached(server, last, cutoff, every);
    }
  }

  /** A clock that has stepped back to 510 leaves two rows from its future where one is allowed. */
  lemma SteppedBackClockBreaksPruneBound(server: int) returns (steps: seq<Step>)
    ensures |RowsOf(Next(Run(steps, 30), Prune(500), 30), server)| == 2 > Fit(500, 510, 30)
  {
    steps := DenseRun(server, 1030, 30, 2);
    RampSurvives(1030, 30, 2, 500);
    RampIsEarly(1030, 30, 2);
  }
}
