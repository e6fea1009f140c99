/** The event hub: dashboard payloads fanned out to bounded channels, and every interleaving of one
    broadcaster with readers that come, read and go. */
module FanOut {
  import opened Text

  type Payload = string

  const CAPACITY: nat := 4

  // ---- the hub and its channels ----

  class Channel {
    var buffer: seq<Payload>
    var closed: bool

    constructor ()
      ensures buffer == [] && !closed
    {
      buffer, closed := [], false;
    }

    /** `select { case ch <- payload: default: }`; a send on a closed channel would panic. */
    method TrySend(payload: Payload)
      requires !closed
      modifies this`buffer
      ensures buffer == if |old(buffer)| < 4 then old(buffer) + [payload] else old(buffer)
    {
      if |buffer| < CAPACITY {
        buffer := buffer + [payload];
      }
    }

    /** Closing twice would panic. */
    method Close()
      requires !closed
      modifies this`closed
      ensures closed
    {
      closed := true;
    }
  }

  class EventHub {
    var subs: set<Channel>

    /** Only open channels are subscribed. */
    ghost predicate Valid()
      reads this, subs
    {
      forall ch :: ch in subs ==> !ch.closed
    }

    constructor ()
      ensures Valid() && subs == {}
    {
      subs := {};
    }

    method Subscribe() returns (ch: Channel)
      requires Valid()
      modifies this
      ensures Valid() && fresh(ch) && subs == old(subs) + {ch} && ch.buffer == []
    {
      ch := new Channel();
      subs := subs + {ch};
    }

    /** Safe to call again: only a subscribed channel is closed. */
    method Unsubscribe(ch: Channel)
      requires Valid()
      modifies this, ch
      ensures Valid() && subs == old(subs) - {ch}
      ensures ch.closed == (old(ch.closed) || ch in old(subs)) && ch.buffer == old(ch.buffer)
    {
      if ch in subs {
        subs := subs - {ch};
        ch.Close();
      }
    }

    /** Never waits: every channel is offered the payload once, and one that is full is skipped. */
    method Broadcast(payload: Payload)
      requires Valid()
      modifies subs
      ensures Valid() && subs == old(subs)
      ensures forall ch :: ch in subs ==>
                ch.buffer == if |old(ch.buffer)| < 4 then old(ch.buffer) + [payload] else old(ch.buffer)
    {
      var rest := subs;
      while rest != {}
        invariant rest <= subs && Valid()
        invariant forall ch :: ch in rest ==> ch.buffer == old(ch.buffer)
        invariant forall ch :: ch in subs - rest ==>
                    ch.buffer == if |old(ch.buffer)| < CAPACITY then old(ch.buffer) + [payload] else old(ch.buffer)
        decreases rest
      {
        var ch :| ch in rest;
        ch.TrySend(payload);
        rest := rest - {ch};
      }
    }
  }

  // ---- every interleaving ----

  /** A channel with its reader's side: `received` is what the reader has taken, `since` and `until`
      delimit the payloads broadcast while it was subscribed, `offers` are those payloads it has been
      offered, each with the number then unread, and `closes` counts close calls. */
  datatype Sub = Sub(buffer: seq<Payload>, received: seq<Payload>, since: nat, until: Option<nat>,
                     offers: seq<(Payload, nat)>, closes: nat)

  /** `sent` lists every payload broadcast; `visiting` the channels the broadcast under way has yet to
      visit, while it holds the read lock. */
  datatype System = System(subs: set<nat>, channels: seq<Sub>, sent: seq<Payload>, visiting: Option<set<nat>>)

  datatype Step =
    | Join
    | Leave(ch: nat)
    | Begin(payload: Payload)
    | Visit(ch: nat)
    | Finish
    | Receive(ch: nat)

  const START := System({}, [], [], None)

  /** The non-blocking send of the broadcast loop. */
  function Offer(c: Sub, p: Payload): Sub {
    var offered := c.(offers := c.offers + [(p, |c.buffer|)]);
    if |c.buffer| < CAPACITY then offered.(buffer := c.buffer + [p]) else offered
  }

  /** Join and Leave need the write lock, so they wait while a broadcast holds the read lock. */
  function Next(s: System, step: Step): System {
    match step
    case Join =>
      if s.visiting.Some? then s
      else s.(channels := s.channels + [Sub([], [], |s.sent|, None, [], 0)], subs := s.subs + {|s.channels|})
    case Leave(ch) =>
      if s.visiting.Some? || ch !in s.subs || ch >= |s.channels| then s
      else
        var c := s.channels[ch];
        s.(subs := s.subs - {ch}, channels := s.channels[ch := c.(until := Some(|s.sent|), closes := c.closes + 1)])
    case Begin(payload) =>
      if s.visiting.Some? then s else s.(sent := s.sent + [payload], visiting := Some(s.subs))
    case Visit(ch) =>
      if s.visiting.None? || ch !in s.visiting.value || ch >= |s.channels| || s.sent == [] then s
      else
        s.(visiting := Some(s.visiting.value - {ch}),
           channels := s.channels[ch := Offer(s.channels[ch], s.sent[|s.sent| - 1])])
    case Finish =>
      if s.visiting == Some({}) then s.(visiting := None) else s
    case Receive(ch) =>
      if ch >= |s.channels| || s.channels[ch].buffer == [] then s
      else
        var c := s.channels[ch];
        s.(channels := s.channels[ch := c.(buffer := c.buffer[1..], received := c.received + [c.buffer[0]])])
  }

  function Run(steps: seq<Step>): System {
    if steps == [] then START else Next(Run(steps[..|steps| - 1]), steps[|steps| - 1])
  }

  /** The offered payloads that found fewer than four unread. */
  function Delivered(offers: seq<(Payload, nat)>): seq<Payload> {
    if offers == [] then []
    else
      var (p, unread) := offers[|offers| - 1];
      var before := Delivered(offers[..|offers| - 1]);
      if unread < 4 then before + [p] else before
  }

  function Offered(offers: seq<(Payload, nat)>): seq<Payload> {
    seq(|offers|, i requires 0 <= i < |offers| => offers[i].0)
  }

  /** How many payloads channel `ch` should have been offered by now. */
  function Due(s: System, ch: nat): int
    requires ch < |s.channels|
  {
    if s.channels[ch].until.Some? then s.channels[ch].until.value
    else if s.visiting.Some? && ch in s.visiting.value then |s.sent| - 1
    else |s.sent|
  }

  /** The channel has been offered the payloads from its joining up to `due`, and holds those that found room. */
  ghost predicate Tracks(c: Sub, sent: seq<Payload>, due: int) {
    && c.since <= due <= |sent|
    && Offered(c.offers) == sent[c.since..due]
    && c.received + c.buffer == Delivered(c.offers)
    && |c.buffer| <= CAPACITY
  }

  ghost predicate ChannelInv(s: System, ch: nat)
    requires ch < |s.channels|
  {
    var c := s.channels[ch];
    && Tracks(c, s.sent, Due(s, ch))
    && (ch in s.subs <==> c.until.None?)
    && c.closes == (if c.until.Some? then 1 else 0)
  }

  ghost predicate Inv(s: System) {
    && (forall ch :: ch in s.subs ==> ch < |s.channels|)
    && (s.visiting.Some? ==> s.visiting.value <= s.subs && s.sent != [])
    && (forall ch :: 0 <= ch < |s.channels| ==> ChannelInv(s, ch))
  }

  lemma {:induction false} OfferGrows(offers: seq<(Payload, nat)>, p: Payload, unread: nat)
    ensures Offered(offers + [(p, unread)]) == Offered(offers) + [p]
    ensures Delivered(offers + [(p, unread)]) ==
            if unread < CAPACITY then Delivered(offers) + [p] else Delivered(offers)
  {
    assert (offers + [(p, unread)])[..|offers|] == offers;
  }

  lemma OfferTracks(c: Sub, sent: seq<Payload>, before: nat, p: Payload)
    requires Tracks(c, sent, before) && before + 1 == |sent| && sent[before] == p
    ensures Tracks(Offer(c, p), sent, |sent|)
  {
    OfferGrows(c.offers, p, |c.buffer|);
    assert sent[c.since..|sent|] == sent[c.since..before] + [p];
    assert c.received + (c.buffer + [p]) == c.received + c.buffer + [p];
  }

  lemma VisitKeepsInv(s: System, ch: nat)
    requires Inv(s)
    ensures Inv(Next(s, Visit(ch)))
  {
    var t := Next(s, Visit(ch));
    if t != s {
      assert ChannelInv(s, ch);
      OfferTracks(s.channels[ch], s.sent, |s.sent| - 1, s.sent[|s.sent| - 1]);
      forall k | 0 <= k < |t.channels| && k != ch ensures ChannelInv(t, k) {
        assert ChannelInv(s, k);
      }
    }
  }

  lemma BeginKeepsInv(s: System, payload: Payload)
    requires Inv(s)
    ensures Inv(Next(s, Begin(payload)))
  {
    var t := Next(s, Begin(payload));
    forall k | 0 <= k < |t.channels| ensures ChannelInv(t, k) {
      assert ChannelInv(s, k);
      if s.visiting.None? {
        var c := s.channels[k];
        assert t.sent[c.since..Due(s, k)] == s.sent[c.since..Due(s, k)];
      }
    }
  }

  lemma OtherKeepsInv(s: System, step: Step)
    requires Inv(s) && !step.Visit? && !step.Begin?
    ensures Inv(Next(s, step))
  {
    var t := Next(s, step);
    forall k | 0 <= k < |t.channels| ensures ChannelInv(t, k) {
      if k < |s.channels| {
        assert ChannelInv(s, k);
        if step.Receive? && step.ch == k && s.channels[k].buffer != [] {
          var c := s.channels[k];
          assert c.received + [c.buffer[0]] + c.buffer[1..] == c.received + c.buffer;
        }
      } else {
        assert t.sent[|s.sent|..|s.sent|] == [];
      }
    }
  }

  lemma {:induction false} RunKeepsInv(steps: seq<Step>)
    ensures Inv(Run(steps))
  {
    if steps != [] {
      var s, step := Run(steps[..|steps| - 1]), steps[|steps| - 1];
      RunKeepsInv(steps[..|steps| - 1]);
      if step.Visit? {
        VisitKeepsInv(s, step.ch);
      } else if step.Begin? {
        BeginKeepsInv(s, step.payload);
      } else {
        OtherKeepsInv(s, step);
      }
    }
  }

  /** `xs` is `ys` with some elements left out, in order. */
  predicate Subsequence<T(==)>(xs: seq<T>, ys: seq<T>) {
    if xs == [] then true
    else if ys == [] then false
    else if xs[|xs| - 1] == ys[|ys| - 1] then Subsequence(xs[..|xs| - 1], ys[..|ys| - 1])
    else Subsequence(xs, ys[..|ys| - 1])
  }

  lemma {:induction false} SubsequenceSkip<T>(xs: seq<T>, ys: seq<T>)
    requires ys != [] && Subsequence(xs, ys[..|ys| - 1])
    ensures Subsequence(xs, ys)
    decreases |ys|, 0
  {
    var init := ys[..|ys| - 1];
    if xs != [] && xs[|xs| - 1] == ys[|ys| - 1] {
      if xs[|xs| - 1] == init[|init| - 1] {
        SubsequenceSkip(xs[..|xs| - 1], init);
      } else {
        SubsequenceDropLast(xs, init);
      }
    }
  }

  lemma {:induction false} SubsequenceDropLast<T>(xs: seq<T>, ys: seq<T>)
    requires xs != [] && Subsequence(xs, ys)
    ensures Subsequence(xs[..|xs| - 1], ys)
    decreases |ys|, 1
  {
    if xs[|xs| - 1] == ys[|ys| - 1] {
      SubsequenceSkip(xs[..|xs| - 1], ys);
    } else {
      SubsequenceDropLast(xs, ys[..|ys| - 1]);
      SubsequenceSkip(xs[..|xs| - 1], ys);
    }
  }

  lemma {:induction false} DeliveredIsSubsequence(offers: seq<(Payload, nat)>)
    ensures Subsequence(Delivered(offers), Offered(offers))
  {
    if offers != [] {
      var init, last := offers[..|offers| - 1], offers[|offers| - 1];
      DeliveredIsSubsequence(init);
      assert Offered(offers)[..|offers| - 1] == Offered(init);
      if last.1 < CAPACITY {
        assert Delivered(offers)[..|Delivered(init)|] == Delivered(init);
      } else {
        assert Delivered(offers) == Delivered(init);
        SubsequenceSkip(Delivered(init), Offered(offers));
      }
    }
  }

  /** In every interleaving, for every reader: it has been offered exactly the payloads broadcast while
      it was subscribed (up to the one under way); what it has received, followed by its buffer, is
      those that found fewer than four unread, an in-order subsequence; and its channel is closed at
      most once, when it leaves. */
  lemma {:induction false} ReadersSeeSubsequence(steps: seq<Step>, ch: nat)
    requires ch < |Run(steps).channels|
    ensures var s := Run(steps);
            var c := s.channels[ch];
            && c.since <= Due(s, ch) <= |s.sent|
            && Offered(c.offers) == s.sent[c.since..Due(s, ch)]
            && c.received + c.buffer == Delivered(c.offers)
            && Subsequence(c.received + c.buffer, s.sent[c.since..Due(s, ch)])
            && c.closes <= 1 && (c.closes == 1 <==> ch !in s.subs)
  {
    RunKeepsInv(steps);
    assert ChannelInv(Run(steps), ch);
    DeliveredIsSubsequence(Run(steps).channels[ch].offers);
  }

  /** The broadcaster never waits on a reader and never sends on a closed channel: whatever the buffers
      hold, the channel it visits is open and the visit completes. */
  lemma BroadcasterNeverWaits(steps: seq<Step>, ch: nat)
    requires Run(steps).visiting.Some? && ch in Run(steps).visiting.value
    ensures var s := Run(steps);
            && ch < |s.channels| && s.channels[ch].closes == 0
            && Next(s, Visit(ch)).visiting == Some(s.visiting.value - {ch})
            && |Next(s, Visit(ch)).channels[ch].offers| == |s.channels[ch].offers| + 1
  {
    RunKeepsInv(steps);
    assert ChannelInv(Run(steps), ch);
  }

  // ---- the machine and the hub's methods ----

  /** What each step does when it can be taken. */
  lemma StepsTakeEffect(s: System, payload: Payload, ch: nat)
    ensures s.visiting.None? ==>
              var t := Next(s, Join);
              t.channels == s.channels + [Sub([], [], |s.sent|, None, [], 0)] && t.subs == s.subs + {|s.channels|}
    ensures s.visiting.None? && ch in s.subs && ch < |s.channels| ==>
              var t := Next(s, Leave(ch));
              t.subs == s.subs - {ch} && t.channels[ch].closes == s.channels[ch].closes + 1 &&
              t.channels[ch].buffer == s.channels[ch].buffer
    ensures s.visiting.None? ==> Next(s, Begin(payload)) == s.(sent := s.sent + [payload], visiting := Some(s.subs))
    ensures s.visiting == Some({}) ==> Next(s, Finish) == s.(visiting := None)
    ensures ch < |s.channels| && s.channels[ch].buffer != [] ==>
              var c := Next(s, Receive(ch)).channels[ch];
              c.received == s.channels[ch].received + [s.channels[ch].buffer[0]] &&
              c.buffer == s.channels[ch].buffer[1..]
  {
  }

  function Visits(s: System, order: seq<nat>): System {
    if order == [] then s else Next(Visits(s, order[..|order| - 1]), Visit(order[|order| - 1]))
  }

  predicate Listing(order: seq<nat>, chs: set<nat>) {
    (forall i, j :: 0 <= i < j < |order| ==> order[i] != order[j]) && (forall ch :: ch in order ==> ch in chs)
  }

  /** The channel after a broadcast of `p`: it has it unless four were unread. */
  predicate Got(before: Sub, after: Sub, p: Payload) {
    after.buffer == (if |before.buffer| < 4 then before.buffer + [p] else before.buffer) &&
    after.received == before.received && after.closes == before.closes
  }

  ghost predicate Visited(s: System, t: System, order: seq<nat>, p: Payload) {
    && |t.channels| == |s.channels| && t.subs == s.subs && t.sent == s.sent
    && (forall ch :: 0 <= ch < |s.channels| && ch in order ==> Got(s.channels[ch], t.channels[ch], p))
    && (forall ch :: 0 <= ch < |s.channels| && ch !in order ==> t.channels[ch] == s.channels[ch])
  }

  lemma OneMoreVisit(s: System, t: System, order: seq<nat>, ch: nat, p: Payload)
    requires Visited(s, t, order, p) && ch < |s.channels| && ch !in order && s.sent != [] && p == s.sent[|s.sent| - 1]
    requires t.visiting.Some? && ch in t.visiting.value
    ensures Visited(s, Next(t, Visit(ch)), order + [ch], p)
    ensures Next(t, Visit(ch)).visiting == Some(t.visiting.value - {ch})
  {
  }

  function Channels(order: seq<nat>): set<nat> {
    set ch | ch in order
  }

  lemma LeftAfter(waiting: set<nat>, init: seq<nat>, last: nat, order: seq<nat>)
    requires order == init + [last]
    ensures waiting - Channels(init) - {last} == waiting - Channels(order)
  {
    assert Channels(order) == Channels(init) + {last};
  }

  lemma ListingInit(order: seq<nat>, chs: set<nat>)
    requires Listing(order, chs) && order != []
    ensures var init, last := order[..|order| - 1], order[|order| - 1];
            Listing(init, chs) && last !in init && last in chs && order == init + [last]
  {
    assert order[|order| - 1] in order;
  }

  lemma {:induction false} VisitsReach(s: System, order: seq<nat>)
    requires s.visiting.Some? && s.sent != [] && Listing(order, s.visiting.value)
    requires forall ch :: ch in s.visiting.value ==> ch < |s.channels|
    ensures var t := Visits(s, order);
            && Visited(s, t, order, s.sent[|s.sent| - 1])
            && t.visiting == Some(s.visiting.value - Channels(order))
  {
    if order != [] {
      var init, last := order[..|order| - 1], order[|order| - 1];
      ListingInit(order, s.visiting.value);
      VisitsReach(s, init);
      assert last !in Channels(init) && last in Visits(s, init).visiting.value;
      OneMoreVisit(s, Visits(s, init), init, last, s.sent[|s.sent| - 1]);
      LeftAfter(s.visiting.value, init, last, order);
    } else {
      assert s.visiting.value - Channels(order) == s.visiting.value;
    }
  }

  /** A broadcast that nobody interrupts, visiting the subscribers in any order, does what the hub's method
      does: each gets the payload unless four are unread, and nobody else is touched. */
  lemma {:induction false} BroadcastIsMethod(s: System, payload: Payload, order: seq<nat>)
    requires s.visiting.None? && Listing(order, s.subs) && s.subs == Channels(order)
    requires forall ch :: ch in s.subs ==> ch < |s.channels|
    ensures var t := Next(Visits(Next(s, Begin(payload)), order), Finish);
            && t.visiting.None? && t.sent == s.sent + [payload] && t.subs == s.subs && |t.channels| == |s.channels|
            && (forall ch :: 0 <= ch < |s.channels| ==>
                  if ch in s.subs then Got(s.channels[ch], t.channels[ch], payload)
                  else t.channels[ch] == s.channels[ch])
  {
    var b := Next(s, Begin(payload));
    VisitsReach(b, order);
    assert b.visiting.value - Channels(order) == {};
  }
}
