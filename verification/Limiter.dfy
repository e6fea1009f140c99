/** The login limiter: a sliding window kept by an in-place filter over a shared backing array, and the
    bound it keeps when check and record are separate critical sections. Times are in nanoseconds. */
module Limiter {

  const WINDOW: int := 900_000_000_000
  const MAX_ATTEMPTS: nat := 10

  /** The times after `cutoff`, in order. */
  function After(times: seq<int>, cutoff: int): (r: seq<int>)
    ensures |r| <= |times|
  {
    if times == [] then []
    else
      var n := |times| - 1;
      var kept := After(times[..n], cutoff);
      if times[n] > cutoff then kept + [times[n]] else kept
  }

  lemma {:induction false} AfterSelects(times: seq<int>, cutoff: int, t: int)
    ensures multiset(After(times, cutoff))[t] == if t > cutoff then multiset(times)[t] else 0
  {
    if times != [] {
      var init, last := times[..|times| - 1], times[|times| - 1];
      AfterSelects(init, cutoff, t);
      assert times == init + [last];
    }
  }

  lemma AfterSnoc(times: seq<int>, t: int, cutoff: int)
    ensures After(times + [t], cutoff) == if t > cutoff then After(times, cutoff) + [t] else After(times, cutoff)
  {
    assert (times + [t])[..|times|] == times;
  }

  // ---- the limiter itself ----

  /** A Go slice: a backing array, its capacity, and the length in use. */
  datatype Slice = Slice(buf: array<int>, len: nat)

  class LoginLimiter {
    var attempts: map<string, Slice>

    ghost function Buffers(): set<array<int>>
      reads this
    {
      set k | k in attempts :: attempts[k].buf
    }

    /** Slices lie within their arrays and no two keys share one. */
    ghost predicate Valid()
      reads this
    {
      (forall k :: k in attempts ==> attempts[k].len <= attempts[k].buf.Length) &&
      (forall j, k :: j in attempts && k in attempts && j != k ==> attempts[j].buf != attempts[k].buf)
    }

    ghost function Times(key: string): seq<int>
      requires Valid()
      reads this, Buffers()
    {
      if key in attempts then attempts[key].buf[..attempts[key].len] else []
    }

    constructor ()
      ensures Valid() && attempts == map[] && fresh(Buffers())
    {
      attempts := map[];
    }

    /** The loop of recent: keeps the times after the cutoff, reading and writing the same array. */
    static method FilterInPlace(buf: array<int>, len: nat, cutoff: int) returns (n: nat)
      requires len <= buf.Length
      modifies buf
      ensures n <= len && buf[..n] == After(old(buf[..len]), cutoff)
    {
      ghost var times := buf[..len];
      n := 0;
      for i := 0 to len
        invariant n <= i
        invariant buf[..n] == After(times[..i], cutoff)
        invariant buf[i..len] == times[i..]
      {
        var at := buf[i];
        assert at == buf[i..len][0] == times[i];
        assert times[..i + 1] == times[..i] + [at];
        AfterSnoc(times[..i], at, cutoff);
        assert buf[i + 1..len] == buf[i..len][1..];
        if at > cutoff {
          buf[n] := at;
          n := n + 1;
          assert buf[..n] == buf[..n - 1] + [at];
        }
      }
      assert times[..len] == times;
    }

    /** recent. */
    method Recent(key: string, now: int) returns (kept: Slice)
      requires Valid()
      modifies this, Buffers()
      ensures Valid() && fresh(Buffers() - old(Buffers()))
      ensures key in attempts && attempts[key] == kept
      ensures Times(key) == After(old(Times(key)), now - 900_000_000_000)
      ensures attempts.Keys == old(attempts.Keys) + {key}
      ensures forall k :: k in attempts && k != key ==> attempts[k] == old(attempts[k]) && Times(k) == old(Times(k))
    {
      var cutoff := now - WINDOW;
      if key !in attempts {
        var none := new int[0];
        kept := Slice(none, 0);
        attempts := attempts[key := kept];
        return;
      }
      var all := attempts[key];
      assert all.buf in Buffers();
      var n := FilterInPlace(all.buf, all.len, cutoff);
      kept := Slice(all.buf, n);
      attempts := attempts[key := kept];
    }

    method Blocked(key: string, now: int) returns (blocked: bool)
      requires Valid()
      modifies this, Buffers()
      ensures Valid() && fresh(Buffers() - old(Buffers()))
      ensures Times(key) == After(old(Times(key)), now - 900_000_000_000)
      ensures blocked <==> |Times(key)| >= 10
      ensures attempts.Keys == old(attempts.Keys) + {key}
      ensures forall k :: k in attempts && k != key ==> Times(k) == old(Times(k))
    {
      var kept := Recent(key, now);
      return kept.len >= MAX_ATTEMPTS;
    }

    /** append: in place while the capacity lasts, otherwise into a larger copy. */
    static method Append(s: Slice, t: int) returns (r: Slice)
      requires s.len <= s.buf.Length
      modifies s.buf
      ensures r.len == s.len + 1 <= r.buf.Length
      ensures r.buf[..r.len] == old(s.buf[..s.len]) + [t]
      ensures r.buf == s.buf || fresh(r.buf)
    {
      if s.len < s.buf.Length {
        s.buf[s.len] := t;
        return Slice(s.buf, s.len + 1);
      }
      var bigger := new int[2 * s.buf.Length + 1];
      forall i | 0 <= i < s.len {
        bigger[i] := s.buf[i];
      }
      bigger[s.len] := t;
      assert bigger[..s.len] == s.buf[..s.len];
      return Slice(bigger, s.len + 1);
    }

    /** fail. The clock is read twice: for the cutoff, then for the recorded time. */
    method Fail(key: string, now: int, stamp: int)
      requires Valid()
      modifies this, Buffers()
      ensures Valid() && fresh(Buffers() - old(Buffers()))
      ensures Times(key) == After(old(Times(key)), now - 900_000_000_000) + [stamp]
      ensures attempts.Keys == old(attempts.Keys) + {key}
      ensures forall k :: k in attempts && k != key ==> Times(k) == old(Times(k))
    {
      var kept := Recent(key, now);
      assert kept.buf in Buffers();
      Store(key, kept, stamp);
    }

    /** The end of fail: the filtered slice, grown by the recorded time, is stored for the key. */
    method Store(key: string, kept: Slice, stamp: int)
      requires Valid() && key in attempts && attempts[key] == kept
      modifies this, kept.buf
      ensures Valid() && fresh(Buffers() - old(Buffers()))
      ensures Times(key) == old(Times(key)) + [stamp]
      ensures attempts.Keys == old(attempts.Keys)
      ensures forall k :: k in attempts && k != key ==> Times(k) == old(Times(k))
    {
      var grown := Append(kept, stamp);
      attempts := attempts[key := grown];
    }

    method Reset(key: string)
      requires Valid()
      modifies this
      ensures Valid() && Times(key) == [] && attempts.Keys == old(attempts.Keys) - {key}
      ensures forall k :: k in attempts ==> Times(k) == old(Times(k))
    {
      attempts := attempts - {key};
    }
  }

  // ---- the window refines the full history ----

  /** Calls on one key, with the clock readings they make. */
  datatype Call = CheckAt(now: int) | FailAt(now: int, stamp: int) | ResetAt(now: int)

  /** The stored times after a call: what the methods above leave. */
  function Stored(times: seq<int>, call: Call): seq<int> {
    match call
    case CheckAt(now) => After(times, now - WINDOW)
    case FailAt(now, stamp) => After(times, now - WINDOW) + [stamp]
    case ResetAt(_) => []
  }

  function StoredRun(calls: seq<Call>): seq<int> {
    if calls == [] then [] else Stored(StoredRun(calls[..|calls| - 1]), calls[|calls| - 1])
  }

  function FailuresAfter(before: seq<int>, call: Call): seq<int> {
    match call
    case CheckAt(_) => before
    case FailAt(_, stamp) => before + [stamp]
    case ResetAt(_) => []
  }

  /** Every failure since the last reset. */
  function Failures(calls: seq<Call>): seq<int> {
    if calls == [] then [] else FailuresAfter(Failures(calls[..|calls| - 1]), calls[|calls| - 1])
  }

  function Latest(c: Call): int {
    if c.FailAt? then c.stamp else c.now
  }

  /** The clock never runs backwards. */
  predicate Ordered(calls: seq<Call>) {
    (forall i :: 0 <= i < |calls| ==> calls[i].now <= Latest(calls[i])) &&
    (forall i, j :: 0 <= i < j < |calls| ==> Latest(calls[i]) <= calls[j].now)
  }

  lemma {:induction false} AfterTwice(times: seq<int>, c: int, d: int)
    requires c <= d
    ensures After(After(times, c), d) == After(times, d)
  {
    if times != [] {
      var n := |times| - 1;
      AfterTwice(times[..n], c, d);
      if times[n] > c {
        AfterSnoc(After(times[..n], c), times[n], d);
      }
    }
  }

  /** At any time no earlier than the last call, the stored times inside the window are, in order, all
      failures since the last reset that are inside the window. */
  lemma {:induction false} WindowIsHistory(calls: seq<Call>, now: int)
    requires Ordered(calls) && (calls != [] ==> Latest(calls[|calls| - 1]) <= now)
    ensures After(StoredRun(calls), now - WINDOW) == After(Failures(calls), now - WINDOW)
  {
    if calls != [] {
      var init, call := calls[..|calls| - 1], calls[|calls| - 1];
      assert forall i :: 0 <= i < |init| ==> Latest(init[i]) <= call.now;
      WindowIsHistory(init, now);
      CallKeepsHistory(StoredRun(init), Failures(init), call, now);
    }
  }

  lemma CallKeepsHistory(times: seq<int>, failures: seq<int>, call: Call, now: int)
    requires call.now <= now && After(times, now - WINDOW) == After(failures, now - WINDOW)
    ensures After(Stored(times, call), now - WINDOW) == After(FailuresAfter(failures, call), now - WINDOW)
  {
    AfterTwice(times, call.now - WINDOW, now - WINDOW);
    if call.FailAt? {
      AfterSnoc(After(times, call.now - WINDOW), call.stamp, now - WINDOW);
      AfterSnoc(failures, call.stamp, now - WINDOW);
    }
  }

  /** What recent leaves at time `now` is exactly that: nothing lost, nothing reordered. */
  lemma {:induction false} RecentIsHistory(calls: seq<Call>, now: int)
    requires Ordered(calls) && (calls != [] ==> Latest(calls[|calls| - 1]) <= now)
    ensures StoredRun(calls + [CheckAt(now)]) == After(Failures(calls), now - WINDOW)
  {
    WindowIsHistory(calls, now);
    StoredSnoc(calls, CheckAt(now));
  }

  lemma StoredSnoc(calls: seq<Call>, call: Call)
    ensures StoredRun(calls + [call]) == Stored(StoredRun(calls), call)
  {
    assert (calls + [call])[..|calls|] == calls;
  }

  // ---- logins in flight ----

  /** One client address: its stored times, the logins that have passed the check and not yet finished,
      every failure since the last reset, and the clock. */
  datatype State = State(times: seq<int>, flight: nat, failures: seq<int>, now: int)

  datatype Step =
    | Enter(elapsed: nat)                 // blocked()
    | Wrong(elapsed: nat, delay: nat)     // the password is wrong: fail()
    | Right(elapsed: nat)                 // the login succeeds: reset()
    | Abandon                             // unreadable body or no session: neither

  /** recent, at time `later`. */
  function Filtered(s: State, later: int): State {
    s.(now := later, times := After(s.times, later - WINDOW))
  }

  /** The outcome of blocked, with the times filtered. */
  function Admitted(s: State): State {
    if |s.times| >= MAX_ATTEMPTS then s else s.(flight := s.flight + 1)
  }

  /** The end of fail, with the times filtered. */
  function Recorded(s: State, stamp: int): State
    requires s.flight > 0
  {
    State(s.times + [stamp], s.flight - 1, s.failures + [stamp], stamp)
  }

  function Next(s: State, step: Step): State {
    match step
    case Enter(elapsed) => Admitted(Filtered(s, s.now + elapsed))
    case Wrong(elapsed, delay) =>
      if s.flight == 0 then s else Recorded(Filtered(s, s.now + elapsed), s.now + elapsed + delay)
    case Right(elapsed) =>
      if s.flight == 0 then s else s.(now := s.now + elapsed, times := [], failures := [], flight := s.flight - 1)
    case Abandon => if s.flight == 0 then s else s.(flight := s.flight - 1)
  }

  function Run(steps: seq<Step>, start: int): State {
    if steps == [] then State([], 0, [], start) else Next(Run(steps[..|steps| - 1], start), steps[|steps| - 1])
  }

  /** The machine's steps are the limiter's calls: a login passes the check exactly when fewer than ten
      failures are left in the window, and a success forgets them all. */
  lemma StepsAreCalls(s: State, elapsed: nat, delay: nat)
    ensures var t, now := Next(s, Enter(elapsed)), s.now + elapsed;
            && t.times == Stored(s.times, CheckAt(now)) && t.failures == s.failures && t.now == now
            && t.flight == if |After(s.times, now - 900_000_000_000)| < 10 then s.flight + 1 else s.flight
    ensures s.flight > 0 ==>
              var t, now := Next(s, Wrong(elapsed, delay)), s.now + elapsed;
              && t.times == Stored(s.times, FailAt(now, now + delay)) && t.flight == s.flight - 1
              && t.failures == FailuresAfter(s.failures, FailAt(now, now + delay)) && t.now == now + delay
    ensures s.flight > 0 ==>
              var t := Next(s, Right(elapsed));
              t.times == [] && t.failures == [] && t.flight == s.flight - 1 && t.now == s.now + elapsed
    ensures s.flight > 0 ==> Next(s, Abandon) == s.(flight := s.flight - 1)
  {
  }

  /** Never more than `n` logins at once between check and record. */
  predicate AtMost(steps: seq<Step>, start: int, n: nat) {
    forall i :: 0 <= i <= |steps| ==> Run(steps[..i], start).flight <= n
  }

  /** The failures in the half-open window of fifteen minutes that ends at `t`. */
  function InWindow(failures: seq<int>, t: int): seq<int> {
    if failures == [] then []
    else
      var n := |failures| - 1;
      var within := InWindow(failures[..n], t);
      if t - 900_000_000_000 < failures[n] <= t then within + [failures[n]] else within
  }

  lemma {:induction false} InWindowIsAfter(failures: seq<int>, t: int)
    requires forall x :: x in failures ==> x <= t
    ensures InWindow(failures, t) == After(failures, t - WINDOW)
  {
    if failures != [] {
      var init, last := failures[..|failures| - 1], failures[|failures| - 1];
      assert forall x :: x in init ==> x in failures;
      InWindowIsAfter(init, t);
      assert last in failures;
    }
  }

  lemma AfterShrinks(times: seq<int>, c: int, d: int)
    requires c <= d
    ensures |After(times, d)| <= |After(times, c)|
  {
    AfterTwice(times, c, d);
  }

  /** Past the cutoff, the stored times are the failures. */
  ghost predicate Agree(times: seq<int>, failures: seq<int>, cutoff: int) {
    After(times, cutoff) == After(failures, cutoff)
  }

  ghost predicate WindowsHold(failures: seq<int>, bound: nat) {
    forall t :: |InWindow(failures, t)| <= bound
  }

  ghost predicate Past(failures: seq<int>, now: int) {
    forall x :: x in failures ==> x <= now
  }

  ghost predicate Inv(s: State, n: nat) {
    && Past(s.failures, s.now)
    && Agree(s.times, s.failures, s.now - WINDOW)
    && |After(s.times, s.now - WINDOW)| + s.flight <= 9 + n
    && WindowsHold(s.failures, 9 + n)
  }

  lemma AgreeLater(times: seq<int>, failures: seq<int>, before: int, cutoff: int)
    requires Agree(times, failures, before) && before <= cutoff
    ensures Agree(times, failures, cutoff)
  {
    AfterTwice(times, before, cutoff);
    AfterTwice(failures, before, cutoff);
  }

  lemma {:induction false} FilterAgrees(times: seq<int>, failures: seq<int>, before: int, cutoff: int)
    requires Agree(times, failures, before) && before <= cutoff
    ensures Agree(After(times, cutoff), failures, cutoff)
  {
    AgreeLater(times, failures, before, cutoff);
    AfterTwice(times, cutoff, cutoff);
  }

  lemma AppendAgrees(times: seq<int>, failures: seq<int>, stamp: int, cutoff: int)
    requires Agree(times, failures, cutoff)
    ensures Agree(times + [stamp], failures + [stamp], cutoff)
  {
    AfterSnoc(times, stamp, cutoff);
    AfterSnoc(failures, stamp, cutoff);
  }

  /** Filtering again at the same time changes nothing. */
  lemma FilterIsStable(times: seq<int>, before: int, cutoff: int)
    requires before <= cutoff
    ensures After(After(times, cutoff), cutoff) == After(times, cutoff)
    ensures |After(times, cutoff)| <= |After(times, before)|
  {
    AfterTwice(times, cutoff, cutoff);
    AfterShrinks(times, before, cutoff);
  }

  /** Nothing older than the window is stored. */
  ghost predicate Fresh(s: State) {
    After(s.times, s.now - WINDOW) == s.times
  }

  /** The filter at a later time keeps what the invariant says of the stored times. */
  lemma FilterKeepsInv(s: State, later: int, n: nat)
    requires Inv(s, n) && s.now <= later
    ensures Inv(Filtered(s, later), n) && Fresh(Filtered(s, later))
  {
    var before, cutoff := s.now - WINDOW, later - WINDOW;
    FilterAgrees(s.times, s.failures, before, cutoff);
    FilterIsStable(s.times, before, cutoff);
    PastLater(s.failures, s.now, later);
  }

  lemma AdmitKeepsInv(s: State, n: nat)
    requires Inv(s, n) && Fresh(s) && Admitted(s).flight <= n
    ensures Inv(Admitted(s), n)
  {
  }

  lemma PastLater(failures: seq<int>, before: int, now: int)
    requires Past(failures, before) && before <= now
    ensures Past(failures, now)
  {
  }

  lemma WindowsAfterFailure(failures: seq<int>, stamp: int, bound: nat)
    requires Past(failures, stamp) && WindowsHold(failures, bound)
    requires |After(failures, stamp - WINDOW)| < bound
    ensures WindowsHold(failures + [stamp], bound)
  {
    var all := failures + [stamp];
    assert all[..|failures|] == failures;
    forall t ensures |InWindow(all, t)| <= bound {
      assert |InWindow(failures, t)| <= bound;
      if t >= stamp {
        InWindowIsAfter(failures, t);
        AfterShrinks(failures, stamp - WINDOW, t - WINDOW);
      }
    }
  }

  lemma {:induction false} RecordAgrees(times: seq<int>, failures: seq<int>, before: int, later: int, stamp: int)
    requires Agree(times, failures, before) && before <= later < stamp
    ensures Agree(times, failures, later) && Agree(times + [stamp], failures + [stamp], later)
    ensures |After(times + [stamp], later)| <= |After(times, before)| + 1
    ensures |After(failures, later)| <= |After(times, before)|
  {
    AgreeLater(times, failures, before, later);
    AppendAgrees(times, failures, stamp, later);
    AfterShrinks(times, before, later);
    AfterSnoc(times, stamp, later);
  }

  lemma RecordKeepsInv(s: State, stamp: int, n: nat)
    requires Inv(s, n) && s.flight > 0 && s.now <= stamp
    ensures Inv(Recorded(s, stamp), n)
  {
    RecordAgrees(s.times, s.failures, s.now - WINDOW, stamp - WINDOW, stamp);
    PastLater(s.failures, s.now, stamp);
    WindowsAfterFailure(s.failures, stamp, 9 + n);
    PastSnoc(s.failures, stamp);
  }

  lemma PastSnoc(failures: seq<int>, stamp: int)
    requires Past(failures, stamp)
    ensures Past(failures + [stamp], stamp)
  {
  }

  lemma EnterKeepsInv(s: State, later: int, n: nat)
    requires Inv(s, n) && s.now <= later && Admitted(Filtered(s, later)).flight <= n
    ensures Inv(Admitted(Filtered(s, later)), n)
  {
    FilterKeepsInv(s, later, n);
    AdmitKeepsInv(Filtered(s, later), n);
  }

  lemma WrongKeepsInv(s: State, later: int, stamp: int, n: nat)
    requires Inv(s, n) && s.flight > 0 && s.now <= later <= stamp
    ensures Inv(Recorded(Filtered(s, later), stamp), n)
  {
    FilterKeepsInv(s, later, n);
    RecordKeepsInv(Filtered(s, later), stamp, n);
  }

  lemma FinishKeepsInv(s: State, step: Step, n: nat)
    requires Inv(s, n) && (step.Right? || step.Abandon?)
    ensures Inv(Next(s, step), n)
  {
    if step.Right? && s.flight > 0 {
      EmptyKeepsInv(Next(s, step), n);
    }
  }

  lemma EnterStep(s: State, elapsed: nat, n: nat)
    requires Inv(s, n) && Next(s, Enter(elapsed)).flight <= n
    ensures Inv(Next(s, Enter(elapsed)), n)
  {
    EnterKeepsInv(s, s.now + elapsed, n);
  }

  lemma WrongStep(s: State, elapsed: nat, delay: nat, n: nat)
    requires Inv(s, n)
    ensures Inv(Next(s, Wrong(elapsed, delay)), n)
  {
    if s.flight > 0 {
      var later := s.now + elapsed;
      var stamp := later + delay;
      WrongKeepsInv(s, later, stamp, n);
      assert Next(s, Wrong(elapsed, delay)) == Recorded(Filtered(s, later), stamp);
    } else {
      assert Next(s, Wrong(elapsed, delay)) == s;
    }
  }

  lemma StepKeepsInv(s: State, step: Step, n: nat)
    requires Inv(s, n) && Next(s, step).flight <= n
    ensures Inv(Next(s, step), n)
  {
    match step
    case Enter(elapsed) => EnterStep(s, elapsed, n);
    case Wrong(elapsed, delay) => WrongStep(s, elapsed, delay, n);
    case _ => FinishKeepsInv(s, step, n);
  }

  lemma EmptyKeepsInv(s: State, n: nat)
    requires s.times == [] && s.failures == [] && s.flight <= 9 + n
    ensures Inv(s, n)
  {
  }

  lemma {:induction false} AtMostInit(steps: seq<Step>, start: int, n: nat)
    requires AtMost(steps, start, n) && steps != []
    ensures AtMost(steps[..|steps| - 1], start, n) && Run(steps, start).flight <= n
  {
    var init := steps[..|steps| - 1];
    forall i | 0 <= i <= |init| ensures Run(init[..i], start).flight <= n {
      assert init[..i] == steps[..i];
    }
    assert steps[..|steps|] == steps;
  }

  lemma {:induction false} RunKeepsInv(steps: seq<Step>, start: int, n: nat)
    requires n >= 1 && AtMost(steps, start, n)
    ensures Inv(Run(steps, start), n)
  {
    if steps == [] {
      EmptyKeepsInv(Run([], start), n);
    } else {
      AtMostInit(steps, start, n);
      RunKeepsInv(steps[..|steps| - 1], start, n);
      StepKeepsInv(Run(steps[..|steps| - 1], start), steps[|steps| - 1], n);
    }
  }

  /** With at most `n` logins between check and record, in every interleaving, the failures still in the
      window plus the logins in flight never exceed 9 + n, nor do the failures between two resets in any
      fifteen minutes. */
  lemma {:induction false} AttemptsAreBounded(steps: seq<Step>, start: int, n: nat, t: int)
    requires n >= 1 && AtMost(steps, start, n)
    ensures var s := Run(steps, start);
            && |After(s.times, s.now - WINDOW)| + s.flight <= 9 + n
            && |InWindow(s.failures, t)| <= 9 + n
  {
    RunKeepsInv(steps, start, n);
    InvBounds(Run(steps, start), n, t);
  }

  lemma InvBounds(s: State, n: nat, t: int)
    requires Inv(s, n)
    ensures |After(s.times, s.now - WINDOW)| + s.flight <= 9 + n
    ensures |InWindow(s.failures, t)| <= 9 + n
  {
  }

  /** So logins one at a time record at most ten failures in any fifteen minutes between resets. */
  lemma {:induction false} SequentialLoginsRecordTen(steps: seq<Step>, start: int, t: int)
    requires AtMost(steps, start, 1)
    ensures |InWindow(Run(steps, start).failures, t)| <= 10
  {
    AttemptsAreBounded(steps, start, 1, t);
  }
}
