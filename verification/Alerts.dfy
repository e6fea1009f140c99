/** The alert engine: the per-server standing updated under the mutex, the events emitted after it is
    released, and every interleaving of the calls that do so. */
module Alerts {

  datatype Kind = Cpu | Memory | Disk | Offline
  datatype Change = Firing | Cleared
  /** What an event reports: a usage figure, or the length of a silence. */
  datatype Value = Usage(percent: real) | Silence(seconds: int)
  datatype Event = Event(server: int, kind: Kind, change: Change, value: Value)

  /** One metric of a snapshot together with its current threshold. */
  datatype Check = Check(kind: Kind, value: real, threshold: real)

  /** alertState. The two Go maps default to false and zero. */
  datatype AlertState = AlertState(firing: set<Kind>, streak: map<Kind, nat>, offline: bool)

  const FRESH := AlertState({}, map[], false)
  const HYSTERESIS := 5.0

  function Streak(st: AlertState, kind: Kind): nat {
    if kind in st.streak then st.streak[kind] else 0
  }

  /** Whether the engine currently considers `kind` raised. */
  predicate Raised(st: AlertState, kind: Kind) {
    if kind == Offline then st.offline else kind in st.firing
  }

  function Sustain(setting: int): nat {
    if setting < 1 then 1 else setting
  }

  // ---- the two critical sections ----

  function Judge(server: int, st: AlertState, c: Check, sustain: nat): (AlertState, seq<Event>) {
    if c.value >= c.threshold then
      var n := Streak(st, c.kind) + 1;
      var counted := st.(streak := st.streak[c.kind := n]);
      if n >= sustain && c.kind !in st.firing then
        (counted.(firing := st.firing + {c.kind}), [Event(server, c.kind, Firing, Usage(c.value))])
      else (counted, [])
    else
      var reset := st.(streak := st.streak[c.kind := 0]);
      if c.kind in st.firing && c.value < c.threshold - HYSTERESIS then
        (reset.(firing := st.firing - {c.kind}), [Event(server, c.kind, Cleared, Usage(c.value))])
      else (reset, [])
  }

  function JudgeAll(server: int, st: AlertState, checks: seq<Check>, sustain: nat): (AlertState, seq<Event>) {
    if checks == [] then (st, [])
    else
      var n := |checks| - 1;
      var (before, events) := JudgeAll(server, st, checks[..n], sustain);
      var (after, more) := Judge(server, before, checks[n], sustain);
      (after, events + more)
  }

  /** observe, between Lock and Unlock. */
  function Observed(server: int, st: AlertState, checks: seq<Check>, sustain: nat): (AlertState, seq<Event>) {
    var back := if st.offline then [Event(server, Offline, Cleared, Silence(0))] else [];
    var (after, events) := JudgeAll(server, st.(offline := false), checks, sustain);
    (after, back + events)
  }

  /** checkOffline, between Lock and Unlock for one server. */
  function Silenced(row: ServerRow, st: AlertState, now: int, limit: int): (AlertState, seq<Event>) {
    if now - row.lastSeen > limit && !st.offline
    then (st.(offline := true), [Event(row.id, Offline, Firing, Silence(now - row.lastSeen))])
    else (st, [])
  }

  function StateFor(state: map<int, AlertState>, server: int): AlertState {
    if server in state then state[server] else FRESH
  }

  datatype Snapshot = Snapshot(cpu: real, memory: real, disk: real)
  datatype Thresholds = Thresholds(cpu: real, memory: real, disk: real)
  datatype ServerRow = ServerRow(id: int, lastSeen: int)

  function Checks(snap: Snapshot, t: Thresholds): seq<Check> {
    [Check(Cpu, snap.cpu, t.cpu), Check(Memory, snap.memory, t.memory), Check(Disk, snap.disk, t.disk)]
  }

  /** One pass of checkOffline over the listed servers, with nobody else running. */
  function Swept(state: map<int, AlertState>, rows: seq<ServerRow>, now: int, limit: int)
    : (map<int, AlertState>, seq<Event>)
  {
    if rows == [] then (state, [])
    else
      var n := |rows| - 1;
      var (before, events) := Swept(state, rows[..n], now, limit);
      var row := rows[n];
      if row.lastSeen == 0 then (before, events)
      else
        var (st, more) := Silenced(row, StateFor(before, row.id), now, limit);
        (before[row.id := st], events + more)
  }

  // ---- what a pass over the servers does ----

  /** A listed server that has reported once and been silent longer than the limit. */
  predicate Overdue(row: ServerRow, now: int, limit: int) {
    row.lastSeen != 0 && now - row.lastSeen > limit
  }

  ghost predicate AnyOverdue(rows: seq<ServerRow>, id: int, now: int, limit: int) {
    exists i :: 0 <= i < |rows| && rows[i].id == id && Overdue(rows[i], now, limit)
  }

  /** The events about one server. */
  function About(events: seq<Event>, id: int): seq<Event> {
    if events == [] then []
    else
      var n := |events| - 1;
      var before := About(events[..n], id);
      if events[n].server == id then before + [events[n]] else before
  }

  /** The report that `row` has gone quiet. */
  predicate Reports(event: Event, row: ServerRow, now: int) {
    event == Event(row.id, Offline, Firing, Silence(now - row.lastSeen))
  }

  ghost predicate ReportsOne(event: Event, rows: seq<ServerRow>, id: int, now: int, limit: int) {
    exists i :: 0 <= i < |rows| && rows[i].id == id && Overdue(rows[i], now, limit) && Reports(event, rows[i], now)
  }

  /** What a pass leaves of server `id`: raised if it was or is overdue, its usage standing untouched, and
      one report of an overdue row exactly when it was newly raised. */
  ghost predicate SweptWell(before: AlertState, after: AlertState, events: seq<Event>, rows: seq<ServerRow>,
                            id: int, now: int, limit: int) {
    && after.offline == (before.offline || AnyOverdue(rows, id, now, limit))
    && after.firing == before.firing && after.streak == before.streak
    && (if after.offline && !before.offline
        then |events| == 1 && ReportsOne(events[0], rows, id, now, limit)
        else events == [])
  }

  /** A pass raises exactly the listed servers that have reported once and been silent longer than the
      limit, and emits one event for each newly raised one and nothing else. */
  lemma {:induction false} SweepIsExact(state: map<int, AlertState>, rows: seq<ServerRow>, now: int, limit: int,
                                        id: int)
    ensures var (after, events) := Swept(state, rows, now, limit);
            SweptWell(StateFor(state, id), StateFor(after, id), About(events, id), rows, id, now, limit)
  {
    if rows != [] {
      var n := |rows| - 1;
      var (before, events) := Swept(state, rows[..n], now, limit);
      SweepIsExact(state, rows[..n], now, limit, id);
      var (st, more) := Silenced(rows[n], StateFor(before, rows[n].id), now, limit);
      AboutJoin(events, more, id);
      var (after, all) := Swept(state, rows, now, limit);
      OneMoreRow(StateFor(state, id), StateFor(before, id), StateFor(after, id), About(events, id), About(all, id),
                 rows, id, now, limit);
    }
  }

  lemma AboutJoin(events: seq<Event>, more: seq<Event>, id: int)
    requires |more| <= 1
    ensures About(events + more, id) ==
            if more != [] && more[0].server == id then About(events, id) + more else About(events, id)
  {
    if more == [] {
      assert events + more == events;
    } else {
      assert (events + more)[..|events|] == events;
    }
  }

  lemma OneMoreRow(start: AlertState, before: AlertState, after: AlertState, events: seq<Event>, all: seq<Event>,
                   rows: seq<ServerRow>, id: int, now: int, limit: int)
    requires rows != [] && SweptWell(start, before, events, rows[..|rows| - 1], id, now, limit)
    requires var row := rows[|rows| - 1];
             if row.id == id && Overdue(row, now, limit) && !before.offline
             then after == before.(offline := true) && |all| == |events| + 1 && all[..|events|] == events &&
                  Reports(all[|events|], row, now)
             else after == before && all == events
    ensures SweptWell(start, after, all, rows, id, now, limit)
  {
    var init, row := rows[..|rows| - 1], rows[|rows| - 1];
    assert rows == init + [row];
    assert AnyOverdue(rows, id, now, limit) <==>
        AnyOverdue(init, id, now, limit) || (row.id == id && Overdue(row, now, limit)) by {
      if AnyOverdue(init, id, now, limit) {
        var i :| 0 <= i < |init| && init[i].id == id && Overdue(init[i], now, limit);
        assert rows[i] == init[i];
      }
    }
    if events != [] {
      var i :| 0 <= i < |init| && init[i].id == id && Overdue(init[i], now, limit) && Reports(events[0], init[i], now);
      assert rows[i] == init[i];
    }
  }

  class AlertEngine {
    var state: map<int, AlertState>
    var fired: seq<Event>

    constructor ()
      ensures state == map[] && fired == []
    {
      state, fired := map[], [];
    }

    method Forget(server: int)
      modifies this`state
      ensures state == old(state) - {server}
    {
      state := state - {server};
    }

    method Fire(event: Event)
      modifies this`fired
      ensures fired == old(fired) + [event]
    {
      fired := fired + [event];
    }

    method Observe(enabled: bool, server: int, snap: Snapshot, thresholds: Thresholds, sustainSetting: int)
      modifies this
      ensures !enabled ==> state == old(state) && fired == old(fired)
      ensures enabled ==>
        var checks, sustain := Checks(snap, thresholds), Sustain(sustainSetting);
        var (st, events) := Observed(server, StateFor(old(state), server), checks, sustain);
        state == old(state)[server := st] && fired == old(fired) + events
    {
      if !enabled {
        return;
      }
      var sustain := sustainSetting;
      if sustain < 1 {
        sustain := 1;
      }
      var checks := Checks(snap, thresholds);

      var st := StateFor(state, server);
      var events: seq<Event> := [];
      if st.offline {
        st := st.(offline := false);
        events := events + [Event(server, Offline, Cleared, Silence(0))];
      }
      var more;
      st, more := Evaluate(server, st, checks, sustain);
      events := events + more;
      state := state[server := st];

      FireAll(events);
    }

    /** The emitting loop of observe, after Unlock. */
    method FireAll(events: seq<Event>)
      modifies this`fired
      ensures fired == old(fired) + events
    {
      for i := 0 to |events|
        invariant fired == old(fired) + events[..i]
      {
        Fire(events[i]);
      }
    }

    /** The loop of observe over the three checks. */
    static method Evaluate(server: int, entry: AlertState, checks: seq<Check>, sustain: nat)
      returns (st: AlertState, events: seq<Event>)
      ensures (st, events) == JudgeAll(server, entry, checks, sustain)
    {
      st, events := entry, [];
      for i := 0 to |checks|
        invariant (st, events) == JudgeAll(server, entry, checks[..i], sustain)
      {
        var check := checks[i];
        assert checks[..i + 1][..i] == checks[..i] && events + [] == events;
        if check.value >= check.threshold {
          var n := Streak(st, check.kind) + 1;
          st := st.(streak := st.streak[check.kind := n]);
          if n >= sustain && check.kind !in st.firing {
            st := st.(firing := st.firing + {check.kind});
            events := events + [Event(server, check.kind, Firing, Usage(check.value))];
          }
          continue;
        }
        st := st.(streak := st.streak[check.kind := 0]);
        if check.kind in st.firing && check.value < check.threshold - HYSTERESIS {
          st := st.(firing := st.firing - {check.kind});
          events := events + [Event(server, check.kind, Cleared, Usage(check.value))];
        }
      }
      assert checks[..|checks|] == checks;
    }

    method CheckOffline(enabled: bool, rows: seq<ServerRow>, now: int, limit: int)
      modifies this
      ensures !enabled ==> state == old(state) && fired == old(fired)
      ensures enabled ==>
        var (after, events) := Swept(old(state), rows, now, limit);
        state == after && fired == old(fired) + events
      // which means, for every server
      ensures enabled ==> old(fired) <= fired && forall id ::
        SweptWell(StateFor(old(state), id), StateFor(state, id), About(fired[|old(fired)|..], id), rows, id, now, limit)
    {
      if !enabled {
        return;
      }
      for i := 0 to |rows|
        invariant var (s, e) := Swept(old(state), rows[..i], now, limit);
                  state == s && fired == old(fired) + e
      {
        var row := rows[i];
        assert rows[..i + 1][..i] == rows[..i];
        if row.lastSeen == 0 {
          continue;
        }
        var down := now - row.lastSeen > limit;
        var st := StateFor(state, row.id);
        var changed := down && !st.offline;
        if changed {
          st := st.(offline := true);
        }
        state := state[row.id := st];
        if changed {
          Fire(Event(row.id, Offline, Firing, Silence(now - row.lastSeen)));
        }
      }
      assert rows[..|rows|] == rows;
      assert fired[|old(fired)|..] == Swept(old(state), rows, now, limit).1;
      ghost var reported := fired[|old(fired)|..];
      forall id
        ensures SweptWell(StateFor(old(state), id), StateFor(state, id), About(reported, id), rows, id, now, limit)
      {
        SweepIsExact(old(state), rows, now, limit, id);
      }
    }
  }

  // ---- one critical section and the raised flags ----

  /** The changes of one kind, in order. */
  function Changes(events: seq<Event>, kind: Kind): seq<Change> {
    if events == [] then []
    else
      var n := |events| - 1;
      var before := Changes(events[..n], kind);
      if events[n].kind == kind then before + [events[n].change] else before
  }

  /** Reading `changes` takes a flag from `before` to `after`, each change flipping it. */
  predicate Follows(before: bool, changes: seq<Change>, after: bool)
    decreases changes
  {
    if changes == [] then before == after
    else
      var n := |changes| - 1;
      changes[n] == (if after then Firing else Cleared) && Follows(before, changes[..n], !after)
  }

  lemma {:induction false} FollowsJoin(a: bool, xs: seq<Change>, b: bool, ys: seq<Change>, c: bool)
    requires Follows(a, xs, b) && Follows(b, ys, c)
    ensures Follows(a, xs + ys, c)
    decreases ys
  {
    if ys == [] {
      assert xs + ys == xs;
    } else {
      var n := |ys| - 1;
      assert (xs + ys)[..|xs| + n] == xs + ys[..n];
      FollowsJoin(a, xs, b, ys[..n], !c);
    }
  }

  lemma FollowsOne(c: Change)
    ensures Follows(c == Cleared, [c], c == Firing)
  {
    assert [c][..0] == [];
  }

  lemma {:induction false} ChangesJoin(xs: seq<Event>, ys: seq<Event>, kind: Kind)
    ensures Changes(xs + ys, kind) == Changes(xs, kind) + Changes(ys, kind)
  {
    if ys == [] {
      assert xs + ys == xs;
    } else {
      var n := |ys| - 1;
      assert (xs + ys)[..|xs + ys| - 1] == xs + ys[..n];
      ChangesJoin(xs, ys[..n], kind);
    }
  }

  lemma ChangesOne(e: Event, kind: Kind)
    ensures Changes([e], kind) == if e.kind == kind then [e.change] else []
  {
    assert [e][..0] == [];
  }

  predicate UsageChecks(checks: seq<Check>) {
    forall i :: 0 <= i < |checks| ==> checks[i].kind != Offline
  }

  predicate OnServer(events: seq<Event>, server: int) {
    forall i :: 0 <= i < |events| ==> events[i].server == server
  }

  lemma JudgeFollows(server: int, st: AlertState, c: Check, sustain: nat, kind: Kind)
    requires c.kind != Offline
    ensures var (after, events) := Judge(server, st, c, sustain);
            Follows(Raised(st, kind), Changes(events, kind), Raised(after, kind)) && OnServer(events, server)
  {
    var (after, events) := Judge(server, st, c, sustain);
    if events != [] {
      ChangesOne(events[0], kind);
      FollowsOne(events[0].change);
    }
  }

  lemma {:induction false} JudgeAllFollows(server: int, st: AlertState, checks: seq<Check>, sustain: nat, kind: Kind)
    requires UsageChecks(checks)
    ensures var (after, events) := JudgeAll(server, st, checks, sustain);
            Follows(Raised(st, kind), Changes(events, kind), Raised(after, kind)) && OnServer(events, server)
  {
    if checks != [] {
      var n := |checks| - 1;
      var (before, events) := JudgeAll(server, st, checks[..n], sustain);
      var (after, more) := Judge(server, before, checks[n], sustain);
      JudgeAllFollows(server, st, checks[..n], sustain, kind);
      JudgeFollows(server, before, checks[n], sustain, kind);
      ChangesJoin(events, more, kind);
      FollowsJoin(Raised(st, kind), Changes(events, kind), Raised(before, kind),
                  Changes(more, kind), Raised(after, kind));
    }
  }

  /** observe's critical section reports exactly the flips of every flag. */
  lemma ObservedFollows(server: int, st: AlertState, checks: seq<Check>, sustain: nat, kind: Kind)
    requires UsageChecks(checks)
    ensures var (after, events) := Observed(server, st, checks, sustain);
            Follows(Raised(st, kind), Changes(events, kind), Raised(after, kind)) && OnServer(events, server)
  {
    var up := st.(offline := false);
    var back := if st.offline then [Event(server, Offline, Cleared, Silence(0))] else [];
    var (after, events) := JudgeAll(server, up, checks, sustain);
    JudgeAllFollows(server, up, checks, sustain, kind);
    if st.offline {
      ChangesOne(back[0], kind);
      FollowsOne(back[0].change);
    }
    ChangesJoin(back, events, kind);
    FollowsJoin(Raised(st, kind), Changes(back, kind), Raised(up, kind), Changes(events, kind), Raised(after, kind));
  }

  lemma SilencedFollows(row: ServerRow, st: AlertState, now: int, limit: int, kind: Kind)
    ensures var (after, events) := Silenced(row, st, now, limit);
            Follows(Raised(st, kind), Changes(events, kind), Raised(after, kind)) && OnServer(events, row.id)
  {
    var (after, events) := Silenced(row, st, now, limit);
    if events != [] {
      ChangesOne(events[0], kind);
      FollowsOne(events[0].change);
    }
  }

  // ---- every interleaving ----

  /** An event together with the epoch of its server: `forget` starts a new one. */
  datatype Stamped = Stamped(event: Event, epoch: nat)

  /** `order` lists the events as the mutex ordered them; `calls` holds, per running call, those
      still to be emitted; `fired` those already emitted. */
  datatype System = System(
    state: map<int, AlertState>, epochs: map<int, nat>,
    order: seq<Stamped>, calls: seq<seq<Stamped>>, fired: seq<Stamped>,
    pushes: seq<Pushed>)

  /** One enabled push, kept to state what the streaks count. */
  datatype Pushed = Pushed(server: int, epoch: nat, snap: Snapshot, thresholds: Thresholds)

  datatype Step =
    | Push(server: int, snap: Snapshot, thresholds: Thresholds, sustainSetting: int)
    | Sweep(row: ServerRow, now: int, limit: int)
    | Emit(call: nat)
    | Forget(server: int)

  const START := System(map[], map[], [], [], [], [])

  function Epoch(s: System, server: int): nat {
    if server in s.epochs then s.epochs[server] else 0
  }

  function Stamp(events: seq<Event>, epoch: nat): seq<Stamped> {
    seq(|events|, i requires 0 <= i < |events| => Stamped(events[i], epoch))
  }

  /** A critical section that leaves `outcome.0` for `server` and `outcome.1` to be emitted by its call. */
  function Commit(s: System, server: int, outcome: (AlertState, seq<Event>)): System {
    var stamped := Stamp(outcome.1, Epoch(s, server));
    s.(state := s.state[server := outcome.0], order := s.order + stamped, calls := s.calls + [stamped])
  }

  /** The state after a push of `at` that leaves `st` and reports `events`. */
  function AfterPush(s: System, at: int, snap: Snapshot, thresholds: Thresholds, st: AlertState, events: seq<Event>)
    : System
  {
    Commit(s, at, (st, events)).(pushes := s.pushes + [Pushed(at, Epoch(s, at), snap, thresholds)])
  }

  /** One step of one goroutine. `Push` and `Sweep` are critical sections of observe (with alerts
      enabled) and of checkOffline; `Emit` is one fire of a call that has left its section. */
  function Next(s: System, step: Step): System {
    match step
    case Push(server, snap, thresholds, sustainSetting) =>
      var checks := Checks(snap, thresholds);
      var (st, events) := Observed(server, StateFor(s.state, server), checks, Sustain(sustainSetting));
      AfterPush(s, server, snap, thresholds, st, events)
    case Sweep(row, now, limit) =>
      if row.lastSeen == 0 then s
      else
        Commit(s, row.id, Silenced(row, StateFor(s.state, row.id), now, limit))
    case Emit(call) =>
      if call < |s.calls| && s.calls[call] != [] then
        s.(calls := s.calls[call := s.calls[call][1..]], fired := s.fired + [s.calls[call][0]])
      else s
    case Forget(server) =>
      s.(state := s.state - {server}, epochs := s.epochs[server := Epoch(s, server) + 1])
  }

  function Run(steps: seq<Step>): System {
    if steps == [] then START else Next(Run(steps[..|steps| - 1]), steps[|steps| - 1])
  }

  /** The changes of one kind on one server during one epoch. */
  function History(log: seq<Stamped>, server: int, epoch: nat, kind: Kind): seq<Change> {
    if log == [] then []
    else
      var n := |log| - 1;
      var before := History(log[..n], server, epoch, kind);
      if log[n].event.server == server && log[n].epoch == epoch && log[n].event.kind == kind
      then before + [log[n].event.change] else before
  }

  lemma {:induction false} HistoryJoin(xs: seq<Stamped>, ys: seq<Stamped>, server: int, epoch: nat, kind: Kind)
    ensures History(xs + ys, server, epoch, kind) == History(xs, server, epoch, kind) + History(ys, server, epoch, kind)
  {
    if ys == [] {
      assert xs + ys == xs;
    } else {
      assert (xs + ys)[..|xs + ys| - 1] == xs + ys[..|ys| - 1];
      HistoryJoin(xs, ys[..|ys| - 1], server, epoch, kind);
    }
  }

  lemma {:induction false} HistoryOfStamp(events: seq<Event>, at: int, epoch: nat, server: int, e: nat, kind: Kind)
    requires OnServer(events, at)
    ensures History(Stamp(events, epoch), server, e, kind) ==
            if server == at && e == epoch then Changes(events, kind) else []
  {
    if events != [] {
      var n := |events| - 1;
      assert Stamp(events, epoch)[..n] == Stamp(events[..n], epoch);
      HistoryOfStamp(events[..n], at, epoch, server, e, kind);
    }
  }

  /** The flag of (server, kind) as a past or current epoch left it. */
  ghost predicate Flips(s: System, server: int, epoch: nat, kind: Kind) {
    var h := History(s.order, server, epoch, kind);
    && (epoch == Epoch(s, server) ==> Follows(false, h, Raised(StateFor(s.state, server), kind)))
    && (epoch > Epoch(s, server) ==> h == [])
    && (Follows(false, h, false) || Follows(false, h, true))
  }

  lemma CommitFlips(s: System, at: int, st: AlertState, events: seq<Event>, server: int, epoch: nat, kind: Kind)
    requires Flips(s, server, epoch, kind) && OnServer(events, at)
    requires Follows(Raised(StateFor(s.state, at), kind), Changes(events, kind), Raised(st, kind))
    ensures Flips(Commit(s, at, (st, events)), server, epoch, kind)
  {
    var stamped := Stamp(events, Epoch(s, at));
    HistoryJoin(s.order, stamped, server, epoch, kind);
    HistoryOfStamp(events, at, Epoch(s, at), server, epoch, kind);
    var h := History(s.order, server, epoch, kind);
    if server == at && epoch == Epoch(s, at) {
      FollowsJoin(false, h, Raised(StateFor(s.state, at), kind), Changes(events, kind), Raised(st, kind));
    } else {
      assert h + [] == h;
    }
  }

  lemma PushFlips(s: System, step: Step, server: int, epoch: nat, kind: Kind)
    requires Flips(s, server, epoch, kind) && step.Push?
    ensures Flips(Next(s, step), server, epoch, kind)
  {
    var before, checks := StateFor(s.state, step.server), Checks(step.snap, step.thresholds);
    var (st, events) := Observed(step.server, before, checks, Sustain(step.sustainSetting));
    ObservedFollows(step.server, before, checks, Sustain(step.sustainSetting), kind);
    CommitFlips(s, step.server, st, events, server, epoch, kind);
    SameStanding(Commit(s, step.server, (st, events)), Next(s, step), server, epoch, kind);
  }

  lemma SweepFlips(s: System, row: ServerRow, now: int, limit: int, server: int, epoch: nat, kind: Kind)
    requires Flips(s, server, epoch, kind)
    ensures Flips(Next(s, Sweep(row, now, limit)), server, epoch, kind)
  {
    SilenceFlips(s, row, now, limit, server, epoch, kind);
  }

  lemma SilenceFlips(s: System, row: ServerRow, now: int, limit: int, server: int, epoch: nat, kind: Kind)
    requires Flips(s, server, epoch, kind)
    ensures Flips(Commit(s, row.id, Silenced(row, StateFor(s.state, row.id), now, limit)), server, epoch, kind)
  {
    var before := StateFor(s.state, row.id);
    var (st, events) := Silenced(row, before, now, limit);
    SilencedFollows(row, before, now, limit, kind);
    CommitFlips(s, row.id, st, events, server, epoch, kind);
  }

  /** Emitting and noting a push change neither the flags nor the lock order. */
  lemma SameStanding(s: System, t: System, server: int, epoch: nat, kind: Kind)
    requires Flips(s, server, epoch, kind)
    requires t.state == s.state && t.epochs == s.epochs && t.order == s.order
    ensures Flips(t, server, epoch, kind)
  {
  }

  lemma ForgetFlips(s: System, at: int, server: int, epoch: nat, kind: Kind)
    requires Flips(s, server, epoch, kind)
    ensures Flips(Next(s, Forget(at)), server, epoch, kind)
  {
  }

  /** In every interleaving and for every server and kind, the changes of an epoch strictly alternate
      in lock order, beginning with a firing, and end in the state of the flag. */
  lemma {:induction false} FlagsFlip(steps: seq<Step>, server: int, epoch: nat, kind: Kind)
    ensures Flips(Run(steps), server, epoch, kind)
  {
    if steps != [] {
      var s, step := Run(steps[..|steps| - 1]), steps[|steps| - 1];
      FlagsFlip(steps[..|steps| - 1], server, epoch, kind);
      match step
      case Push(_, _, _, _) => PushFlips(s, step, server, epoch, kind);
      case Sweep(row, now, limit) => SweepFlips(s, row, now, limit, server, epoch, kind);
      case Emit(_) => SameStanding(s, Next(s, step), server, epoch, kind);
      case Forget(at) => ForgetFlips(s, at, server, epoch, kind);
    }
  }

  lemma {:induction false} FollowsAlternates(before: bool, h: seq<Change>, after: bool, i: nat)
    requires Follows(before, h, after) && i < |h|
    ensures h[i] == (if before == (i % 2 == 0) then Cleared else Firing)
    ensures after == (before == (|h| % 2 == 0))
    decreases h
  {
    var n := |h| - 1;
    if n > 0 {
      FollowsAlternates(before, h[..n], !after, if i < n then i else 0);
    } else {
      assert h[..n] == [];
    }
  }

  /** Alternation, read off positions: the even changes of an epoch fire, the odd ones clear. */
  lemma {:induction false} ChangesAlternate(steps: seq<Step>, server: int, epoch: nat, kind: Kind, i: nat)
    requires i < |History(Run(steps).order, server, epoch, kind)|
    ensures History(Run(steps).order, server, epoch, kind)[i] == if i % 2 == 0 then Firing else Cleared
  {
    FlagsFlip(steps, server, epoch, kind);
    var h := History(Run(steps).order, server, epoch, kind);
    FollowsAlternates(false, h, if Follows(false, h, true) then true else false, i);
  }

  // ---- emitted and pending events account for the flag ----

  function All(calls: seq<seq<Stamped>>): multiset<Stamped> {
    if calls == [] then multiset{}
    else All(calls[..|calls| - 1]) + multiset(calls[|calls| - 1])
  }

  /** Every event ordered by the mutex is either emitted or pending, once. */
  ghost predicate Accounted(s: System) {
    multiset(s.order) == multiset(s.fired) + All(s.calls)
  }

  lemma {:induction false} AllPops(calls: seq<seq<Stamped>>, i: nat)
    requires i < |calls| && calls[i] != []
    ensures All(calls) == All(calls[i := calls[i][1..]]) + multiset{calls[i][0]}
  {
    var n := |calls| - 1;
    var after := calls[i := calls[i][1..]];
    if i == n {
      assert after[..n] == calls[..n];
      assert calls[n] == [calls[n][0]] + calls[n][1..];
    } else {
      assert after[..n] == calls[..n][i := calls[i][1..]];
      AllPops(calls[..n], i);
    }
  }

  lemma CommitAccounts(s: System, at: int, st: AlertState, events: seq<Event>)
    requires Accounted(s)
    ensures Accounted(Commit(s, at, (st, events)))
  {
    var stamped := Stamp(events, Epoch(s, at));
    assert (s.calls + [stamped])[..|s.calls|] == s.calls;
  }

  lemma {:induction false} EventsAreAccounted(steps: seq<Step>)
    ensures Accounted(Run(steps))
  {
    if steps != [] {
      var s, step := Run(steps[..|steps| - 1]), steps[|steps| - 1];
      EventsAreAccounted(steps[..|steps| - 1]);
      match step
      case Push(at, snap, thresholds, sustainSetting) =>
        var (st, events) := Observed(at, StateFor(s.state, at), Checks(snap, thresholds), Sustain(sustainSetting));
        CommitAccounts(s, at, st, events);
      case Sweep(row, now, limit) =>
        if row.lastSeen != 0 {
          var (st, events) := Silenced(row, StateFor(s.state, row.id), now, limit);
          CommitAccounts(s, row.id, st, events);
        }
      case Emit(call) =>
        if call < |s.calls| && s.calls[call] != [] {
          AllPops(s.calls, call);
        }
      case Forget(_) =>
    }
  }

  /** +1 for a firing, -1 for a clear of the given flag, 0 for anything else. */
  function Weight(e: Stamped, server: int, epoch: nat, kind: Kind): int {
    if e.event.server == server && e.epoch == epoch && e.event.kind == kind
    then (if e.event.change == Firing then 1 else -1) else 0
  }

  /** Firings minus clears. */
  function Balance(log: seq<Stamped>, server: int, epoch: nat, kind: Kind): int {
    if log == [] then 0
    else Balance(log[..|log| - 1], server, epoch, kind) + Weight(log[|log| - 1], server, epoch, kind)
  }

  function PendingBalance(calls: seq<seq<Stamped>>, server: int, epoch: nat, kind: Kind): int {
    if calls == [] then 0
    else PendingBalance(calls[..|calls| - 1], server, epoch, kind) + Balance(calls[|calls| - 1], server, epoch, kind)
  }

  lemma {:induction false} BalanceJoin(xs: seq<Stamped>, ys: seq<Stamped>, server: int, epoch: nat, kind: Kind)
    ensures Balance(xs + ys, server, epoch, kind) == Balance(xs, server, epoch, kind) + Balance(ys, server, epoch, kind)
  {
    if ys == [] {
      assert xs + ys == xs;
    } else {
      assert (xs + ys)[..|xs + ys| - 1] == xs + ys[..|ys| - 1];
      BalanceJoin(xs, ys[..|ys| - 1], server, epoch, kind);
    }
  }

  lemma {:induction false} PendingPops(calls: seq<seq<Stamped>>, i: nat, server: int, epoch: nat, kind: Kind)
    requires i < |calls| && calls[i] != []
    ensures PendingBalance(calls, server, epoch, kind) ==
            PendingBalance(calls[i := calls[i][1..]], server, epoch, kind) + Weight(calls[i][0], server, epoch, kind)
  {
    var n := |calls| - 1;
    var after := calls[i := calls[i][1..]];
    if i == n {
      assert after[..n] == calls[..n];
      assert calls[n] == [calls[n][0]] + calls[n][1..] && [calls[n][0]][..0] == [];
      BalanceJoin([calls[n][0]], calls[n][1..], server, epoch, kind);
    } else {
      assert after[..n] == calls[..n][i := calls[i][1..]];
      PendingPops(calls[..n], i, server, epoch, kind);
    }
  }

  /** What has been ordered and is neither emitted nor pending. */
  function Missing(s: System, server: int, epoch: nat, kind: Kind): int {
    Balance(s.order, server, epoch, kind) - Balance(s.fired, server, epoch, kind) -
    PendingBalance(s.calls, server, epoch, kind)
  }

  lemma PendingGrows(calls: seq<seq<Stamped>>, call: seq<Stamped>, server: int, epoch: nat, kind: Kind)
    ensures PendingBalance(calls + [call], server, epoch, kind) ==
            PendingBalance(calls, server, epoch, kind) + Balance(call, server, epoch, kind)
  {
    assert (calls + [call])[..|calls|] == calls;
  }

  lemma CommitBalances(s: System, at: int, st: AlertState, events: seq<Event>, server: int, epoch: nat, kind: Kind)
    ensures Missing(Commit(s, at, (st, events)), server, epoch, kind) == Missing(s, server, epoch, kind)
  {
    var stamped := Stamp(events, Epoch(s, at));
    BalanceJoin(s.order, stamped, server, epoch, kind);
    PendingGrows(s.calls, stamped, server, epoch, kind);
  }

  lemma PushBalances(s: System, step: Step, server: int, epoch: nat, kind: Kind)
    requires step.Push?
    ensures Missing(Next(s, step), server, epoch, kind) == Missing(s, server, epoch, kind)
  {
    var checks := Checks(step.snap, step.thresholds);
    var (st, events) := Observed(step.server, StateFor(s.state, step.server), checks, Sustain(step.sustainSetting));
    CommitBalances(s, step.server, st, events, server, epoch, kind);
  }

  lemma SweepBalances(s: System, step: Step, server: int, epoch: nat, kind: Kind)
    requires step.Sweep?
    ensures Missing(Next(s, step), server, epoch, kind) == Missing(s, server, epoch, kind)
  {
    var row := step.row;
    if row.lastSeen != 0 {
      SilenceBalances(s, row, step.now, step.limit, server, epoch, kind);
    }
  }

  lemma SilenceBalances(s: System, row: ServerRow, now: int, limit: int, server: int, epoch: nat, kind: Kind)
    ensures Missing(Commit(s, row.id, Silenced(row, StateFor(s.state, row.id), now, limit)), server, epoch, kind) ==
            Missing(s, server, epoch, kind)
  {
    var (st, events) := Silenced(row, StateFor(s.state, row.id), now, limit);
    CommitBalances(s, row.id, st, events, server, epoch, kind);
  }

  lemma EmitBalances(s: System, call: nat, server: int, epoch: nat, kind: Kind)
    ensures Missing(Next(s, Emit(call)), server, epoch, kind) == Missing(s, server, epoch, kind)
  {
    if call < |s.calls| && s.calls[call] != [] {
      PendingPops(s.calls, call, server, epoch, kind);
      assert (s.fired + [s.calls[call][0]])[..|s.fired|] == s.fired;
    }
  }

  lemma {:induction false} NothingIsLost(steps: seq<Step>, server: int, epoch: nat, kind: Kind)
    ensures Missing(Run(steps), server, epoch, kind) == 0
  {
    if steps != [] {
      var s, step := Run(steps[..|steps| - 1]), steps[|steps| - 1];
      NothingIsLost(steps[..|steps| - 1], server, epoch, kind);
      match step
      case Push(_, _, _, _) => PushBalances(s, step, server, epoch, kind);
      case Sweep(_, _, _) => SweepBalances(s, step, server, epoch, kind);
      case Emit(call) => EmitBalances(s, call, server, epoch, kind);
      case Forget(_) => assert Missing(Next(s, step), server, epoch, kind) == Missing(s, server, epoch, kind);
    }
  }

  lemma {:induction false} BalanceOfHistory(log: seq<Stamped>, server: int, epoch: nat, kind: Kind, after: bool)
    requires Follows(false, History(log, server, epoch, kind), after)
    ensures Balance(log, server, epoch, kind) == if after then 1 else 0
  {
    if log != [] {
      var n := |log| - 1;
      var h, last := History(log[..n], server, epoch, kind), Weight(log[n], server, epoch, kind);
      if last == 0 {
        BalanceOfHistory(log[..n], server, epoch, kind, after);
      } else {
        assert (h + [log[n].event.change])[..|h|] == h;
        BalanceOfHistory(log[..n], server, epoch, kind, !after);
      }
    }
  }

  /** In every interleaving, firings minus clears over what has been emitted and what is still pending
      outside the mutex is one exactly when the flag is set, and zero otherwise. */
  lemma EmittedPlusPendingIsFlag(steps: seq<Step>, server: int, kind: Kind)
    ensures var s := Run(steps);
            var e := Epoch(s, server);
            Balance(s.fired, server, e, kind) + PendingBalance(s.calls, server, e, kind) ==
            if Raised(StateFor(s.state, server), kind) then 1 else 0
  {
    var s := Run(steps);
    FlagsFlip(steps, server, Epoch(s, server), kind);
    NothingIsLost(steps, server, Epoch(s, server), kind);
    BalanceOfHistory(s.order, server, Epoch(s, server), kind, Raised(StateFor(s.state, server), kind));
  }

  // ---- streaks and the rate of firings ----

  predicate Over(snap: Snapshot, t: Thresholds, kind: Kind) {
    match kind
    case Cpu => snap.cpu >= t.cpu
    case Memory => snap.memory >= t.memory
    case Disk => snap.disk >= t.disk
    case Offline => false
  }

  predicate WellBelow(snap: Snapshot, t: Thresholds, kind: Kind) {
    match kind
    case Cpu => snap.cpu < t.cpu - 5.0
    case Memory => snap.memory < t.memory - 5.0
    case Disk => snap.disk < t.disk - 5.0
    case Offline => false
  }

  /** Whether each enabled push of an epoch was at or over the threshold of `kind`. */
  function OverFlags(pushes: seq<Pushed>, server: int, epoch: nat, kind: Kind): seq<bool> {
    if pushes == [] then []
    else
      var p := pushes[|pushes| - 1];
      var before := OverFlags(pushes[..|pushes| - 1], server, epoch, kind);
      if p.server == server && p.epoch == epoch then before + [Over(p.snap, p.thresholds, kind)] else before
  }

  /** Length of the longest all-true suffix. */
  function TrueSuffix(flags: seq<bool>): (n: nat)
    ensures n <= |flags|
    ensures forall i :: |flags| - n <= i < |flags| ==> flags[i]
    ensures n < |flags| ==> !flags[|flags| - n - 1]
  {
    if flags == [] || !flags[|flags| - 1] then 0 else 1 + TrueSuffix(flags[..|flags| - 1])
  }

  function Firings(h: seq<Change>): nat {
    if h == [] then 0 else Firings(h[..|h| - 1]) + (if h[|h| - 1] == Firing then 1 else 0)
  }

  lemma {:induction false} FiringsJoin(xs: seq<Change>, ys: seq<Change>)
    ensures Firings(xs + ys) == Firings(xs) + Firings(ys)
  {
    if ys == [] {
      assert xs + ys == xs;
    } else {
      assert (xs + ys)[..|xs + ys| - 1] == xs + ys[..|ys| - 1];
      FiringsJoin(xs, ys[..|ys| - 1]);
    }
  }

  lemma FiringsOne(c: Change)
    ensures Firings([c]) == if c == Firing then 1 else 0
  {
    assert [c][..0] == [];
  }

  /** Nothing about `kind` changed. */
  predicate Untouched(st: AlertState, after: AlertState, events: seq<Event>, kind: Kind) {
    Streak(after, kind) == Streak(st, kind) && (kind in after.firing <==> kind in st.firing) &&
    Changes(events, kind) == []
  }

  /** One check of `kind` was taken into account. */
  predicate Counted(st: AlertState, after: AlertState, events: seq<Event>, kind: Kind,
                    over: bool, wellBelow: bool, sustain: nat) {
    var raised := kind in st.firing;
    && Streak(after, kind) == (if over then Streak(st, kind) + 1 else 0)
    && (kind in after.firing <==> if over then raised || Streak(after, kind) >= sustain else raised && !wellBelow)
    && Firings(Changes(events, kind)) == (if !raised && kind in after.firing then 1 else 0)
  }

  lemma JudgeOther(server: int, st: AlertState, c: Check, sustain: nat, kind: Kind)
    requires c.kind != kind
    ensures Untouched(st, Judge(server, st, c, sustain).0, Judge(server, st, c, sustain).1, kind)
  {
    var events := Judge(server, st, c, sustain).1;
    if events != [] {
      ChangesOne(events[0], kind);
    }
  }

  lemma JudgeOwn(server: int, st: AlertState, c: Check, sustain: nat)
    ensures var (after, events) := Judge(server, st, c, sustain);
            Counted(st, after, events, c.kind, c.value >= c.threshold, c.value < c.threshold - HYSTERESIS, sustain)
  {
    var events := Judge(server, st, c, sustain).1;
    if events != [] {
      ChangesOne(events[0], c.kind);
      FiringsOne(events[0].change);
    }
  }

  lemma JudgeAllThree(server: int, st: AlertState, c: seq<Check>, sustain: nat)
    requires |c| == 3
    ensures var (s0, e0) := Judge(server, st, c[0], sustain);
            var (s1, e1) := Judge(server, s0, c[1], sustain);
            var (s2, e2) := Judge(server, s1, c[2], sustain);
            JudgeAll(server, st, c, sustain) == (s2, e0 + e1 + e2)
  {
    assert c[..2][..1] == c[..1] && c[..1][..0] == [];
    var (s0, e0) := Judge(server, st, c[0], sustain);
    assert [] + e0 == e0;
    assert JudgeAll(server, st, c[..1], sustain) == (s0, e0);
  }

  /** One check among others that leave its kind alone. */
  lemma OneCounts(e0: seq<Event>, e1: seq<Event>, e2: seq<Event>, kind: Kind, i: nat)
    requires i < 3 && forall j :: 0 <= j < 3 && j != i ==> Changes([e0, e1, e2][j], kind) == []
    ensures Changes(e0 + e1 + e2, kind) == Changes([e0, e1, e2][i], kind)
  {
    ChangesJoin(e0, e1, kind);
    ChangesJoin(e0 + e1, e2, kind);
    assert [e0, e1, e2][0] == e0 && [e0, e1, e2][1] == e1 && [e0, e1, e2][2] == e2;
  }

  lemma JudgeAllEffect(server: int, st: AlertState, snap: Snapshot, t: Thresholds, sustain: nat, kind: Kind)
    requires kind != Offline
    ensures var (after, events) := JudgeAll(server, st, Checks(snap, t), sustain);
            Counted(st, after, events, kind, Over(snap, t, kind), WellBelow(snap, t, kind), sustain)
  {
    var c := Checks(snap, t);
    JudgeAllThree(server, st, c, sustain);
    var (s0, e0) := Judge(server, st, c[0], sustain);
    var (s1, e1) := Judge(server, s0, c[1], sustain);
    var (s2, e2) := Judge(server, s1, c[2], sustain);
    match kind
    case Cpu =>
      JudgeOwn(server, st, c[0], sustain);
      JudgeOther(server, s0, c[1], sustain, kind);
      JudgeOther(server, s1, c[2], sustain, kind);
      OneCounts(e0, e1, e2, kind, 0);
    case Memory =>
      JudgeOther(server, st, c[0], sustain, kind);
      JudgeOwn(server, s0, c[1], sustain);
      JudgeOther(server, s1, c[2], sustain, kind);
      OneCounts(e0, e1, e2, kind, 1);
    case Disk =>
      JudgeOther(server, st, c[0], sustain, kind);
      JudgeOther(server, s0, c[1], sustain, kind);
      JudgeOwn(server, s1, c[2], sustain);
      OneCounts(e0, e1, e2, kind, 2);
  }

  lemma ObservedEffect(server: int, st: AlertState, snap: Snapshot, t: Thresholds, sustain: nat, kind: Kind)
    requires kind != Offline
    ensures var (after, events) := Observed(server, st, Checks(snap, t), sustain);
            Counted(st, after, events, kind, Over(snap, t, kind), WellBelow(snap, t, kind), sustain)
  {
    var up := st.(offline := false);
    JudgeAllEffect(server, up, snap, t, sustain, kind);
    var back := if st.offline then [Event(server, Offline, Cleared, Silence(0))] else [];
    var events := JudgeAll(server, up, Checks(snap, t), sustain).1;
    ChangesJoin(back, events, kind);
    if st.offline {
      ChangesOne(back[0], kind);
    }
    assert [] + Changes(events, kind) == Changes(events, kind);
  }

  /** What a push reports of one kind whose flag goes from `was` to `raised`. */
  function Report(server: int, kind: Kind, was: bool, raised: bool, value: real): seq<Event> {
    if !was && raised then [Event(server, kind, Firing, Usage(value))]
    else if was && !raised then [Event(server, kind, Cleared, Usage(value))]
    else []
  }

  lemma JudgeReports(server: int, st: AlertState, c: Check, sustain: nat)
    ensures var (after, events) := Judge(server, st, c, sustain);
            && events == Report(server, c.kind, c.kind in st.firing, c.kind in after.firing, c.value)
            && after.offline == st.offline
            && forall kind :: kind != c.kind ==> (kind in after.firing <==> kind in st.firing)
  {
  }

  lemma JoinThree(a: seq<Event>, b: seq<Event>, c: seq<Event>, d: seq<Event>)
    ensures a + (b + c + d) == a + b + c + d
  {
  }

  /** A push brings the server back online and reports, in this order, that it is back if it was raised as
      offline, and every flip of the CPU, memory and disk flags with the usage that caused it. */
  lemma ObservedReports(server: int, st: AlertState, snap: Snapshot, t: Thresholds, sustain: nat)
    ensures var (after, events) := Observed(server, st, Checks(snap, t), sustain);
            && !after.offline
            && events ==
               (if st.offline then [Event(server, Offline, Cleared, Silence(0))] else []) +
               Report(server, Cpu, Cpu in st.firing, Cpu in after.firing, snap.cpu) +
               Report(server, Memory, Memory in st.firing, Memory in after.firing, snap.memory) +
               Report(server, Disk, Disk in st.firing, Disk in after.firing, snap.disk)
  {
    var c, up := Checks(snap, t), st.(offline := false);
    JudgeAllThree(server, up, c, sustain);
    var (s0, e0) := Judge(server, up, c[0], sustain);
    var (s1, e1) := Judge(server, s0, c[1], sustain);
    var (s2, e2) := Judge(server, s1, c[2], sustain);
    JudgeReports(server, up, c[0], sustain);
    JudgeReports(server, s0, c[1], sustain);
    JudgeReports(server, s1, c[2], sustain);
    JoinThree(if st.offline then [Event(server, Offline, Cleared, Silence(0))] else [], e0, e1, e2);
  }

  /** The machine's steps are the critical sections and emissions of the engine's methods. */
  lemma StepsAreSections(s: System, server: int, snap: Snapshot, t: Thresholds, setting: int,
                         row: ServerRow, now: int, limit: int)
    ensures var after := Next(s, Push(server, snap, t, setting));
            var (st, events) := Observed(server, StateFor(s.state, server), Checks(snap, t), Sustain(setting));
            && after.state == s.state[server := st] && after.fired == s.fired
            && after.calls == s.calls + [Stamp(events, Epoch(s, server))]
    ensures var after := Next(s, Sweep(row, now, limit));
            var (state, events) := Swept(s.state, [row], now, limit);
            && after.state == state && after.fired == s.fired
            && (events != [] ==> after.calls == s.calls + [Stamp(events, Epoch(s, row.id))])
    ensures Next(s, Forget(server)).state == s.state - {server} && Next(s, Forget(server)).calls == s.calls
    ensures forall i :: 0 <= i < |s.calls| && s.calls[i] != [] ==>
              var after := Next(s, Emit(i));
              after.fired == s.fired + [s.calls[i][0]] && after.calls == s.calls[i := s.calls[i][1..]] &&
              after.state == s.state
  {
    assert [row][..0] == [];
    assert forall e: seq<Event> :: [] + e == e;
  }

  /** k * (sustain + 1), added up. */
  function Cost(k: nat, sustain: nat): nat {
    if k == 0 then 0 else Cost(k - 1, sustain) + sustain + 1
  }

  lemma {:induction false} CostIsProduct(k: nat, sustain: nat)
    ensures Cost(k, sustain) == k * (sustain + 1)
  {
    if k > 0 {
      CostIsProduct(k - 1, sustain);
      assert k * (sustain + 1) == (k - 1) * (sustain + 1) + (sustain + 1);
    }
  }

  /** The running balance behind the rate bound: each firing has used up `sustain` pushes at or over
      the threshold and, before the next one, a push below it. */
  ghost predicate Paced(s: System, server: int, epoch: nat, kind: Kind, sustain: nat) {
    var flags := OverFlags(s.pushes, server, epoch, kind);
    var k := Firings(History(s.order, server, epoch, kind));
    OnPace(flags, k, epoch, Epoch(s, server), StateFor(s.state, server), kind, sustain)
  }

  /** `k` firings in the pushes so far of an epoch, with the standing `st` after them if it is the current one. */
  ghost predicate OnPace(flags: seq<bool>, k: nat, epoch: nat, current: nat, st: AlertState, kind: Kind, sustain: nat) {
    && Cost(k, sustain) <= |flags| + 1
    && (epoch > current ==> flags == [] && k == 0)
    && (epoch == current ==>
        && Streak(st, kind) == TrueSuffix(flags)
        && (kind !in st.firing ==> Streak(st, kind) < sustain && Cost(k, sustain) + Streak(st, kind) <= |flags|))
  }

  predicate SustainIs(steps: seq<Step>, sustain: nat) {
    forall i :: 0 <= i < |steps| && steps[i].Push? ==> Sustain(steps[i].sustainSetting) == sustain
  }

  lemma CommitHistory(s: System, at: int, st: AlertState, events: seq<Event>, server: int, epoch: nat, kind: Kind)
    requires OnServer(events, at)
    ensures Firings(History(Commit(s, at, (st, events)).order, server, epoch, kind)) ==
            Firings(History(s.order, server, epoch, kind)) +
            (if server == at && epoch == Epoch(s, at) then Firings(Changes(events, kind)) else 0)
  {
    var stamped := Stamp(events, Epoch(s, at));
    HistoryJoin(s.order, stamped, server, epoch, kind);
    HistoryOfStamp(events, at, Epoch(s, at), server, epoch, kind);
    FiringsJoin(History(s.order, server, epoch, kind), History(stamped, server, epoch, kind));
  }

  lemma OverFlagsSnoc(pushes: seq<Pushed>, p: Pushed, server: int, epoch: nat, kind: Kind)
    ensures OverFlags(pushes + [p], server, epoch, kind) ==
            if p.server == server && p.epoch == epoch
            then OverFlags(pushes, server, epoch, kind) + [Over(p.snap, p.thresholds, kind)]
            else OverFlags(pushes, server, epoch, kind)
  {
    assert (pushes + [p])[..|pushes|] == pushes;
  }

  lemma TrueSuffixSnoc(flags: seq<bool>, flag: bool)
    ensures TrueSuffix(flags + [flag]) == if flag then TrueSuffix(flags) + 1 else 0
  {
    assert (flags + [flag])[..|flags|] == flags;
  }

  /** A step that does not touch one server's usage standing keeps its pace. */
  lemma StillPaced(s: System, t: System, server: int, epoch: nat, kind: Kind, sustain: nat)
    requires Paced(s, server, epoch, kind, sustain) && t.epochs == s.epochs
    requires OverFlags(t.pushes, server, epoch, kind) == OverFlags(s.pushes, server, epoch, kind)
    requires Firings(History(t.order, server, epoch, kind)) == Firings(History(s.order, server, epoch, kind))
    requires epoch == Epoch(s, server) ==>
               var (a, b) := (StateFor(s.state, server), StateFor(t.state, server));
               Streak(a, kind) == Streak(b, kind) && (kind in a.firing <==> kind in b.firing)
    ensures Paced(t, server, epoch, kind, sustain)
  {
  }

  /** The arithmetic of one more enabled push: `n` pushes with `k` firings so far. */
  lemma OnePush(n: nat, k: nat, streak: nat, raised: bool, over: bool, wellBelow: bool, sustain: nat, fires: bool)
    requires sustain >= 1 && streak <= n && Cost(k, sustain) <= n + 1
    requires !raised ==> streak < sustain && Cost(k, sustain) + streak <= n
    requires fires <==> !raised && over && streak + 1 >= sustain
    ensures var m := if over then streak + 1 else 0;
            var up := if over then raised || m >= sustain else raised && !wellBelow;
            var l := if fires then k + 1 else k;
            && Cost(l, sustain) <= n + 2
            && (!up ==> m < sustain && Cost(l, sustain) + m <= n + 1)
  {
  }

  /** One more enabled push. */
  lemma PaceAfterPush(flags: seq<bool>, k: nat, l: nat, epoch: nat, st: AlertState, after: AlertState,
                      kind: Kind, sustain: nat,
                      events: seq<Event>, over: bool, wellBelow: bool)
    requires sustain >= 1 && OnPace(flags, k, epoch, epoch, st, kind, sustain)
    requires Counted(st, after, events, kind, over, wellBelow, sustain) && l == k + Firings(Changes(events, kind))
    ensures OnPace(flags + [over], l, epoch, epoch, after, kind, sustain)
  {
    TrueSuffixSnoc(flags, over);
    var raised := kind in st.firing;
    OnePush(|flags|, k, Streak(st, kind), raised, over, wellBelow, sustain, !raised && kind in after.firing);
  }

  lemma OwnPushPaced(s: System, at: int, snap: Snapshot, thresholds: Thresholds, st: AlertState, events: seq<Event>,
                     kind: Kind, sustain: nat)
    requires Paced(s, at, Epoch(s, at), kind, sustain) && sustain >= 1 && OnServer(events, at)
    requires Counted(StateFor(s.state, at), st, events, kind,
                     Over(snap, thresholds, kind), WellBelow(snap, thresholds, kind), sustain)
    ensures Paced(AfterPush(s, at, snap, thresholds, st, events), at, Epoch(s, at), kind, sustain)
  {
    var e := Epoch(s, at);
    var over, wellBelow := Over(snap, thresholds, kind), WellBelow(snap, thresholds, kind);
    var flags := OverFlags(s.pushes, at, e, kind);
    var k := Firings(History(s.order, at, e, kind));
    CommitHistory(s, at, st, events, at, e, kind);
    OverFlagsSnoc(s.pushes, Pushed(at, e, snap, thresholds), at, e, kind);
    var t := AfterPush(s, at, snap, thresholds, st, events);
    var l := Firings(History(t.order, at, e, kind));
    PaceAfterPush(flags, k, l, e, StateFor(s.state, at), st, kind, sustain, events, over, wellBelow);
    SameSums(t, at, kind, sustain, flags + [over], l, st);
  }

  lemma OtherPushPaced(s: System, at: int, snap: Snapshot, thresholds: Thresholds, st: AlertState, events: seq<Event>,
                       server: int, epoch: nat, kind: Kind, sustain: nat)
    requires Paced(s, server, epoch, kind, sustain) && OnServer(events, at) && !(server == at && epoch == Epoch(s, at))
    ensures Paced(AfterPush(s, at, snap, thresholds, st, events), server, epoch, kind, sustain)
  {
    CommitHistory(s, at, st, events, server, epoch, kind);
    OverFlagsSnoc(s.pushes, Pushed(at, Epoch(s, at), snap, thresholds), server, epoch, kind);
    StillPaced(s, AfterPush(s, at, snap, thresholds, st, events), server, epoch, kind, sustain);
  }

  lemma SameSums(t: System, server: int, kind: Kind, sustain: nat, flags: seq<bool>, k: nat, st: AlertState)
    requires var e := Epoch(t, server);
             && OverFlags(t.pushes, server, e, kind) == flags
             && Firings(History(t.order, server, e, kind)) == k
             && StateFor(t.state, server) == st
             && OnPace(flags, k, e, e, st, kind, sustain)
    ensures Paced(t, server, Epoch(t, server), kind, sustain)
  {
  }

  lemma PushPaced(s: System, step: Step, server: int, epoch: nat, kind: Kind, sustain: nat)
    requires Paced(s, server, epoch, kind, sustain) && kind != Offline && sustain >= 1
    requires step.Push? && Sustain(step.sustainSetting) == sustain
    ensures Paced(Next(s, step), server, epoch, kind, sustain)
  {
    var at, before := step.server, StateFor(s.state, step.server);
    var checks := Checks(step.snap, step.thresholds);
    ObservedFollows(at, before, checks, sustain, kind);
    ObservedEffect(at, before, step.snap, step.thresholds, sustain, kind);
    var (st, events) := Observed(at, before, checks, sustain);
    if server == at && epoch == Epoch(s, at) {
      OwnPushPaced(s, at, step.snap, step.thresholds, st, events, kind, sustain);
    } else {
      OtherPushPaced(s, at, step.snap, step.thresholds, st, events, server, epoch, kind, sustain);
    }
    assert Next(s, step) == AfterPush(s, at, step.snap, step.thresholds, st, events);
  }

  lemma SweepPaced(s: System, step: Step, server: int, epoch: nat, kind: Kind, sustain: nat)
    requires Paced(s, server, epoch, kind, sustain) && kind != Offline && step.Sweep?
    ensures Paced(Next(s, step), server, epoch, kind, sustain)
  {
    var row := step.row;
    if row.lastSeen != 0 {
      SilencePaced(s, row, step.now, step.limit, server, epoch, kind, sustain);
    }
  }

  lemma SilencePaced(s: System, row: ServerRow, now: int, limit: int, server: int, epoch: nat, kind: Kind, sustain: nat)
    requires Paced(s, server, epoch, kind, sustain) && kind != Offline
    ensures Paced(Commit(s, row.id, Silenced(row, StateFor(s.state, row.id), now, limit)), server, epoch, kind, sustain)
  {
    var before := StateFor(s.state, row.id);
    var (st, events) := Silenced(row, before, now, limit);
    NoUsageChange(row, before, now, limit, kind);
    CommitUnpaced(s, row.id, st, events, server, epoch, kind, sustain);
  }

  /** A critical section that says nothing about `kind`. */
  lemma CommitUnpaced(s: System, at: int, st: AlertState, events: seq<Event>,
                      server: int, epoch: nat, kind: Kind, sustain: nat)
    requires Paced(s, server, epoch, kind, sustain) && OnServer(events, at)
    requires Untouched(StateFor(s.state, at), st, events, kind)
    ensures Paced(Commit(s, at, (st, events)), server, epoch, kind, sustain)
  {
    CommitHistory(s, at, st, events, server, epoch, kind);
    StillPaced(s, Commit(s, at, (st, events)), server, epoch, kind, sustain);
  }

  lemma NoUsageChange(row: ServerRow, st: AlertState, now: int, limit: int, kind: Kind)
    requires kind != Offline
    ensures var (after, events) := Silenced(row, st, now, limit);
            Untouched(st, after, events, kind) && OnServer(events, row.id)
  {
    var events := Silenced(row, st, now, limit).1;
    if events != [] {
      ChangesOne(events[0], kind);
    }
  }

  lemma ForgetPaced(s: System, at: int, server: int, epoch: nat, kind: Kind, sustain: nat)
    requires Paced(s, server, epoch, kind, sustain) && sustain >= 1
    ensures Paced(Next(s, Forget(at)), server, epoch, kind, sustain)
  {
  }

  lemma SustainInit(steps: seq<Step>, sustain: nat)
    requires SustainIs(steps, sustain) && steps != []
    ensures SustainIs(steps[..|steps| - 1], sustain)
    ensures steps[|steps| - 1].Push? ==> Sustain(steps[|steps| - 1].sustainSetting) == sustain
  {
  }

  lemma StartIsPaced(server: int, epoch: nat, kind: Kind, sustain: nat)
    requires sustain >= 1
    ensures Paced(START, server, epoch, kind, sustain)
  {
    assert OverFlags([], server, epoch, kind) == [] && History([], server, epoch, kind) == [];
  }

  lemma {:induction false} StepPaced(s: System, step: Step, server: int, epoch: nat, kind: Kind, sustain: nat)
    requires Paced(s, server, epoch, kind, sustain) && kind != Offline && sustain >= 1
    requires step.Push? ==> Sustain(step.sustainSetting) == sustain
    ensures Paced(Next(s, step), server, epoch, kind, sustain)
  {
    match step
    case Push(_, _, _, _) => PushPaced(s, step, server, epoch, kind, sustain);
    case Sweep(_, _, _) => SweepPaced(s, step, server, epoch, kind, sustain);
    case Emit(_) => StillPaced(s, Next(s, step), server, epoch, kind, sustain);
    case Forget(at) => ForgetPaced(s, at, server, epoch, kind, sustain);
  }

  lemma {:induction false} RunsArePaced(steps: seq<Step>, server: int, epoch: nat, kind: Kind, sustain: nat)
    requires kind != Offline && sustain >= 1 && SustainIs(steps, sustain)
    ensures Paced(Run(steps), server, epoch, kind, sustain)
  {
    if steps == [] {
      StartIsPaced(server, epoch, kind, sustain);
    } else {
      SustainInit(steps, sustain);
      RunsArePaced(steps[..|steps| - 1], server, epoch, kind, sustain);
      StepPaced(Run(steps[..|steps| - 1]), steps[|steps| - 1], server, epoch, kind, sustain);
    }
  }

  /** Every push carries the setting `n`, or one below 1 that counts as 1. */
  predicate SettingCounts(steps: seq<Step>, n: nat) {
    n >= 1 && forall i :: 0 <= i < |steps| && steps[i].Push? ==>
      steps[i].sustainSetting == n || (n == 1 && steps[i].sustainSetting < 1)
  }

  lemma SettingIsSustain(steps: seq<Step>, n: nat)
    requires SettingCounts(steps, n)
    ensures SustainIs(steps, n)
  {
  }

  /** In every interleaving with a fixed sustain setting, and whatever the thresholds do: the streak of a
      kind is the longest run of enabled pushes, up to the last one, at or over its threshold, and a run of
      `n` raises the flag. */
  lemma {:induction false} StreakIsLongestRun(steps: seq<Step>, server: int, kind: Kind, n: nat)
    requires kind != Offline && SettingCounts(steps, n)
    ensures var s := Run(steps);
            var run := TrueSuffix(OverFlags(s.pushes, server, Epoch(s, server), kind));
            && Streak(StateFor(s.state, server), kind) == run
            && (run >= n ==> Raised(StateFor(s.state, server), kind))
  {
    SettingIsSustain(steps, n);
    RunsArePaced(steps, server, Epoch(Run(steps), server), kind, n);
  }

  /** And k firings in m enabled pushes satisfy k * (n + 1) <= m + 1. */
  lemma FiringsAreRateBounded(steps: seq<Step>, server: int, epoch: nat, kind: Kind, n: nat)
    requires kind != Offline && SettingCounts(steps, n)
    ensures var s := Run(steps);
            var pushes := |OverFlags(s.pushes, server, epoch, kind)|;
            Firings(History(s.order, server, epoch, kind)) * (n + 1) <= pushes + 1
  {
    SettingIsSustain(steps, n);
    RunsArePaced(steps, server, epoch, kind, n);
    CostIsProduct(Firings(History(Run(steps).order, server, epoch, kind)), n);
  }

  // ---- the stored event feed ----

  /** AlertEvents: the newest events first, at most `limit` of them. Rows are in id order. */
  function Feed(rows: seq<Event>, limit: int): seq<Event> {
    var want := if limit <= 0 || limit > 500 then 100 else limit;
    Newest(rows, want)
  }

  function Newest(rows: seq<Event>, want: nat): seq<Event> {
    if rows == [] || want == 0 then []
    else [rows[|rows| - 1]] + Newest(rows[..|rows| - 1], want - 1)
  }

  /** PruneAlertEvents: the last `keep` rows stay. */
  function Pruned(rows: seq<Event>, keep: nat): seq<Event> {
    if |rows| <= keep then rows else rows[|rows| - keep..]
  }

  lemma {:induction false} NewestAt(rows: seq<Event>, want: nat, i: nat)
    requires i < |Newest(rows, want)|
    ensures |Newest(rows, want)| == (if want < |rows| then want else |rows|)
    ensures Newest(rows, want)[i] == rows[|rows| - 1 - i]
  {
    if i > 0 {
      NewestAt(rows[..|rows| - 1], want - 1, i - 1);
    } else if |Newest(rows, want)| > 1 {
      NewestAt(rows[..|rows| - 1], want - 1, 0);
    }
  }

  /** A feed holds the newest events, newest first: as many as asked for, or a hundred when that is not
      between 1 and 500. */
  lemma FeedIsNewestFirst(rows: seq<Event>, limit: int)
    ensures var want := if 1 <= limit <= 500 then limit else 100;
            && |Feed(rows, limit)| == (if want < |rows| then want else |rows|)
            && forall i :: 0 <= i < |Feed(rows, limit)| ==> Feed(rows, limit)[i] == rows[|rows| - 1 - i]
  {
    if rows != [] {
      NewestAt(rows, if limit <= 0 || limit > 500 then 100 else limit, 0);
    }
    forall i | 0 <= i < |Feed(rows, limit)| ensures Feed(rows, limit)[i] == rows[|rows| - 1 - i] {
      NewestAt(rows, if limit <= 0 || limit > 500 then 100 else limit, i);
    }
  }

  /** Pruning keeps the newest rows in order. */
  lemma PruningKeepsNewest(rows: seq<Event>, keep: nat)
    ensures var kept := Pruned(rows, keep);
            |kept| == (if keep < |rows| then keep else |rows|) && kept == rows[|rows| - |kept|..]
  {
  }

  lemma {:induction false} NewestAfterPrune(rows: seq<Event>, want: nat, keep: nat)
    requires want <= keep
    ensures Newest(Pruned(rows, keep), want) == Newest(rows, want)
  {
    var p := Pruned(rows, keep);
    if want > 0 && p != [] {
      var init := rows[..|rows| - 1];
      NewestAfterPrune(init, want - 1, keep - 1);
      assert p[..|p| - 1] == Pruned(init, keep - 1);
    }
  }

  /** The hourly pruning to 500 rows is invisible to every reader of the feed. */
  lemma PruningIsInvisible(rows: seq<Event>, limit: int)
    ensures Feed(Pruned(rows, 500), limit) == Feed(rows, limit)
  {
    NewestAfterPrune(rows, if limit <= 0 || limit > 500 then 100 else limit, 500);
  }
}
