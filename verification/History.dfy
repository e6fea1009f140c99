/** The samples table and the history query: rows keyed by timestamp, pruning, and averages over
    fixed-width buckets. */
module History {

  /** One history point. */
  datatype Sample = Sample(t: int, cpu: real, mem: real, swap: real, disk: real,
                           netUp: real, netDown: real, tcp: real, udp: real, load1: real)

  datatype Field = Cpu | Mem | Swap | Disk | NetUp | NetDown | Tcp | Udp | Load1

  function Get(s: Sample, f: Field): real {
    match f
    case Cpu => s.cpu
    case Mem => s.mem
    case Swap => s.swap
    case Disk => s.disk
    case NetUp => s.netUp
    case NetDown => s.netDown
    case Tcp => s.tcp
    case Udp => s.udp
    case Load1 => s.load1
  }

  const ZERO := Sample(0, 0.0, 0.0, 0.0, 0.0, 0.0, 0.0, 0.0, 0.0, 0.0)

  /** Fieldwise sum; the timestamp is not part of it. */
  function Plus(a: Sample, b: Sample): Sample {
    Sample(0, a.cpu + b.cpu, a.mem + b.mem, a.swap + b.swap, a.disk + b.disk, a.netUp + b.netUp,
           a.netDown + b.netDown, a.tcp + b.tcp, a.udp + b.udp, a.load1 + b.load1)
  }

  /** The averages of `count` samples with the given sums, at time `t`. */
  function Mean(t: int, sum: Sample, count: nat): Sample
    requires count > 0
  {
    var n := count as real;
    Sample(t, sum.cpu / n, sum.mem / n, sum.swap / n, sum.disk / n, sum.netUp / n,
           sum.netDown / n, sum.tcp / n, sum.udp / n, sum.load1 / n)
  }

  // ---- one server's rows, in primary-key order ----

  predicate Ascending(rows: seq<Sample>) {
    forall i, j :: 0 <= i < j < |rows| ==> rows[i].t < rows[j].t
  }

  /** INSERT OR REPLACE. */
  function Inserted(rows: seq<Sample>, v: Sample): seq<Sample> {
    if rows == [] || v.t < rows[0].t then [v] + rows
    else if v.t == rows[0].t then [v] + rows[1..]
    else [rows[0]] + Inserted(rows[1..], v)
  }

  lemma {:induction false} InsertKeeps(rows: seq<Sample>, v: Sample)
    ensures v in Inserted(rows, v)
    ensures forall s :: s in Inserted(rows, v) ==> s == v || s in rows
  {
    if rows != [] && v.t > rows[0].t {
      InsertKeeps(rows[1..], v);
    }
  }

  lemma HeadIsLeast(rows: seq<Sample>, s: Sample)
    requires Ascending(rows) && rows != [] && s in rows[1..]
    ensures rows[0].t < s.t
  {
    var i :| 0 <= i < |rows[1..]| && rows[1..][i] == s;
    assert rows[i + 1] == s;
  }

  lemma AscendingCons(r: Sample, tail: seq<Sample>)
    requires Ascending(tail) && forall s :: s in tail ==> r.t < s.t
    ensures Ascending([r] + tail)
  {
    assert forall i :: 0 <= i < |tail| ==> tail[i] in tail;
  }

  /** The table stays keyed by time. */
  lemma {:induction false} InsertIsKeyed(rows: seq<Sample>, v: Sample)
    requires Ascending(rows)
    ensures Ascending(Inserted(rows, v))
  {
    if rows != [] && v.t > rows[0].t {
      InsertIsKeyed(rows[1..], v);
      InsertKeeps(rows[1..], v);
      forall s | s in Inserted(rows[1..], v) ensures rows[0].t < s.t {
        if s != v {
          HeadIsLeast(rows, s);
        }
      }
      AscendingCons(rows[0], Inserted(rows[1..], v));
    }
  }

  lemma ConsHas(r: Sample, tail: seq<Sample>, s: Sample)
    ensures s in [r] + tail <==> s == r || s in tail
  {
  }

  /** The new row is stored, a row of the same time is replaced by it, and every other row stays. */
  lemma {:induction false} InsertIsExact(rows: seq<Sample>, v: Sample, s: Sample)
    requires Ascending(rows)
    ensures s in Inserted(rows, v) <==> s == v || (s in rows && s.t != v.t)
    ensures Ascending(Inserted(rows, v))
  {
    InsertIsKeyed(rows, v);
    if rows == [] {
      ConsHas(v, rows, s);
    } else {
      assert rows == [rows[0]] + rows[1..];
      ConsHas(rows[0], rows[1..], s);
      if s in rows[1..] {
        HeadIsLeast(rows, s);
      }
      if v.t < rows[0].t {
        ConsHas(v, rows, s);
      } else if v.t == rows[0].t {
        ConsHas(v, rows[1..], s);
      } else {
        InsertIsExact(rows[1..], v, s);
        ConsHas(rows[0], Inserted(rows[1..], v), s);
      }
    }
  }

  /** A row at a new time is added and no other row is replaced. */
  lemma {:induction false} InsertOfNewTimeReplacesNothing(rows: seq<Sample>, v: Sample)
    requires Ascending(rows) && forall s :: s in rows ==> s.t != v.t
    ensures multiset(Inserted(rows, v)) == multiset(rows) + multiset{v}
  {
    if rows != [] {
      assert rows[0] in rows && rows == [rows[0]] + rows[1..];
      if v.t > rows[0].t {
        InsertOfNewTimeReplacesNothing(rows[1..], v);
      }
    }
  }

  /** WHERE ts >= from; also what PruneSamples keeps. */
  function Since(rows: seq<Sample>, from: int): seq<Sample> {
    if rows == [] then []
    else
      var kept := Since(rows[..|rows| - 1], from);
      if rows[|rows| - 1].t >= from then kept + [rows[|rows| - 1]] else kept
  }

  lemma {:induction false} SinceSelects(rows: seq<Sample>, from: int)
    ensures forall s :: s in Since(rows, from) <==> s in rows && s.t >= from
    ensures Ascending(rows) ==> Ascending(Since(rows, from))
  {
    if rows != [] {
      var init, last := rows[..|rows| - 1], rows[|rows| - 1];
      SinceSelects(init, from);
      assert rows == init + [last];
      if Ascending(rows) {
        assert forall i :: 0 <= i < |Since(init, from)| ==> Since(init, from)[i] in init;
      }
    }
  }

  // ---- GROUP BY ts / width ----

  /** SQL integer division truncates toward zero. */
  function Quotient(t: int, width: int): int
    requires width > 0
  {
    if t >= 0 then t / width else -((-t) / width)
  }

  lemma MulAtLeast(k: int, width: int)
    requires k >= 1 && width > 0
    ensures k * width >= width
  {
  }

  lemma MulMinus(a: int, b: int, width: int)
    ensures (a - b) * width == a * width - b * width
  {
  }

  lemma DivMod(a: int, width: int)
    requires width > 0
    ensures a == (a / width) * width + a % width && 0 <= a % width < width
  {
  }

  lemma DivMonotone(a: int, b: int, width: int)
    requires width > 0 && a <= b
    ensures a / width <= b / width
  {
    var p, q := a / width, b / width;
    DivMod(a, width);
    DivMod(b, width);
    if p > q {
      MulAtLeast(p - q, width);
      MulMinus(p, q, width);
    }
  }

  lemma {:induction false} DivUnique(a: int, q: int, r: int, width: int)
    requires width > 0 && a == q * width + r && 0 <= r < width
    ensures a / width == q
  {
    var p := a / width;
    DivMod(a, width);
    MulMinus(p, q, width);
    MulMinus(q, p, width);
    if p > q {
      MulAtLeast(p - q, width);
    } else if q > p {
      MulAtLeast(q - p, width);
    }
  }

  lemma QuotientMonotone(a: int, b: int, width: int)
    requires width > 0 && a <= b
    ensures Quotient(a, width) <= Quotient(b, width)
  {
    if a >= 0 {
      DivMonotone(a, b, width);
    } else if b < 0 {
      DivMonotone(-b, -a, width);
    } else {
      DivMonotone(0, -a, width);
      DivMonotone(0, b, width);
      DivUnique(0, 0, 0, width);
    }
  }

  predicate NonEmpty(groups: seq<seq<Sample>>) {
    forall i :: 0 <= i < |groups| ==> groups[i] != []
  }

  /** `r` joins the last group when it has that group's quotient, and starts a new one otherwise. */
  function AddRow(groups: seq<seq<Sample>>, r: Sample, width: int): (g: seq<seq<Sample>>)
    requires width > 0 && NonEmpty(groups)
    ensures NonEmpty(g)
  {
    var n := |groups|;
    if n > 0 && Quotient(groups[n - 1][0].t, width) == Quotient(r.t, width)
    then groups[..n - 1] + [groups[n - 1] + [r]]
    else groups + [[r]]
  }

  /** Consecutive rows of equal quotient; in timestamp order these are the groups. */
  function Groups(rows: seq<Sample>, width: int): (g: seq<seq<Sample>>)
    requires width > 0
    ensures NonEmpty(g)
  {
    if rows == [] then [] else AddRow(Groups(rows[..|rows| - 1], width), rows[|rows| - 1], width)
  }

  function Sum(rows: seq<Sample>): Sample {
    if rows == [] then ZERO else Plus(Sum(rows[..|rows| - 1]), rows[|rows| - 1])
  }

  /** `(ts / width) * width` with the averages of the group. */
  function Point(group: seq<Sample>, width: int): Sample
    requires width > 0 && group != []
  {
    Mean(Quotient(group[0].t, width) * width, Sum(group), |group|)
  }

  function Points(groups: seq<seq<Sample>>, width: int): seq<Sample>
    requires width > 0 && NonEmpty(groups)
  {
    seq(|groups|, i requires 0 <= i < |groups| => Point(groups[i], width))
  }

  /** The points of all groups but the one still open. */
  function Closed(groups: seq<seq<Sample>>, width: int): seq<Sample>
    requires width > 0 && NonEmpty(groups)
  {
    if groups == [] then [] else Points(groups[..|groups| - 1], width)
  }

  lemma ClosedStep(groups: seq<seq<Sample>>, r: Sample, width: int)
    requires width > 0 && NonEmpty(groups)
    ensures var n := |groups|;
            var after := AddRow(groups, r, width);
            if n > 0 && Quotient(groups[n - 1][0].t, width) == Quotient(r.t, width)
            then Closed(after, width) == Closed(groups, width) && after[|after| - 1] == groups[n - 1] + [r]
            else Closed(after, width) == Points(groups, width) && after[|after| - 1] == [r]
  {
    var after := AddRow(groups, r, width);
    assert after[..|after| - 1] == if |after| == |groups| then groups[..|groups| - 1] else groups;
  }

  lemma PointsSnoc(groups: seq<seq<Sample>>, width: int)
    requires width > 0 && NonEmpty(groups) && groups != []
    ensures Points(groups, width) == Closed(groups, width) + [Point(groups[|groups| - 1], width)]
  {
  }

  lemma SumSnoc(group: seq<Sample>, r: Sample)
    ensures Sum(group + [r]) == Plus(Sum(group), r)
  {
    assert (group + [r])[..|group|] == group;
  }

  lemma SelectStep(rows: seq<Sample>, i: nat, from: int, width: int)
    requires i < |rows| && width > 0
    ensures var before, after := Since(rows[..i], from), Since(rows[..i + 1], from);
            && after == (if rows[i].t >= from then before + [rows[i]] else before)
            && (rows[i].t >= from ==> Groups(after, width) == AddRow(Groups(before, width), rows[i], width))
  {
    assert rows[..i + 1][..i] == rows[..i];
    var before := Since(rows[..i], from);
    assert before + [] == before && (before + [rows[i]])[..|before|] == before;
  }

  /** What the History query returns for one server. */
  function HistoryOf(rows: seq<Sample>, from: int, width: int): seq<Sample>
    requires width > 0
  {
    Points(Groups(Since(rows, from), width), width)
  }

  lemma Inhabited(servers: set<int>)
    ensures servers == {} || exists server :: server in servers
  {
    if forall server :: server !in servers {
      assert servers == {};
    }
  }

  ghost function Pick(servers: set<int>): (server: int)
    requires servers != {}
    ensures server in servers
  {
    Inhabited(servers);
    var server :| server in servers;
    server
  }

  ghost function CountOver(rows: map<int, seq<Sample>>, servers: set<int>): nat
    requires servers <= rows.Keys
  {
    if servers == {} then 0
    else |rows[Pick(servers)]| + CountOver(rows, servers - {Pick(servers)})
  }

  /** The number of rows in the table. */
  ghost function RowCount(rows: map<int, seq<Sample>>): nat {
    CountOver(rows, rows.Keys)
  }

  /** Any server may be counted first. */
  lemma {:induction false} CountSplits(rows: map<int, seq<Sample>>, servers: set<int>, server: int)
    requires server in servers && servers <= rows.Keys
    ensures CountOver(rows, servers) == |rows[server]| + CountOver(rows, servers - {server})
  {
    var first := Pick(servers);
    if first != server {
      CountSplits(rows, servers - {first}, server);
      CountSplits(rows, servers - {server}, first);
      assert servers - {first} - {server} == servers - {server} - {first};
    }
  }

  lemma {:induction false} CountIgnoresOthers(rows: map<int, seq<Sample>>, servers: set<int>, server: int,
                                              kept: seq<Sample>)
    requires server !in servers && servers <= rows.Keys
    ensures CountOver(rows[server := kept], servers) == CountOver(rows, servers)
  {
    if servers != {} {
      CountIgnoresOthers(rows, servers - {Pick(servers)}, server, kept);
    }
  }

  lemma RowCountChanges(rows: map<int, seq<Sample>>, server: int, kept: seq<Sample>)
    requires server in rows
    ensures RowCount(rows[server := kept]) == RowCount(rows) - |rows[server]| + |kept|
  {
    var after := rows[server := kept];
    assert after.Keys == rows.Keys;
    CountSplits(rows, rows.Keys, server);
    CountSplits(after, rows.Keys, server);
    CountIgnoresOthers(rows, rows.Keys - {server}, server, kept);
  }

  lemma {:induction false} SinceShortens(rows: seq<Sample>, from: int)
    ensures |Since(rows, from)| <= |rows|
  {
    if rows != [] {
      SinceShortens(rows[..|rows| - 1], from);
    }
  }

  /** The samples table of all servers. */
  class SampleTable {
    var rows: map<int, seq<Sample>>

    function RowsOf(server: int): seq<Sample>
      reads this
    {
      if server in rows then rows[server] else []
    }

    method InsertSample(server: int, v: Sample)
      modifies this
      ensures rows == old(rows)[server := Inserted(old(RowsOf(server)), v)]
    {
      rows := rows[server := Inserted(RowsOf(server), v)];
    }

    /** Returns the number of rows deleted. */
    method PruneSamples(before: int) returns (deleted: nat)
      modifies this
      ensures rows == map server | server in old(rows) :: Since(old(rows)[server], before)
      ensures RowCount(old(rows)) == RowCount(rows) + deleted
    {
      ghost var all := rows;
      deleted := 0;
      var todo := rows.Keys;
      while todo != {}
        invariant todo <= all.Keys && rows.Keys == all.Keys
        invariant forall server :: server in all ==>
                    rows[server] == if server in todo then all[server] else Since(all[server], before)
        invariant RowCount(all) == RowCount(rows) + deleted
        decreases todo
      {
        assert Pick(todo) in todo;
        var server :| server in todo;
        var kept := Since(rows[server], before);
        SinceShortens(rows[server], before);
        RowCountChanges(rows, server, kept);
        deleted := deleted + (|rows[server]| - |kept|);
        rows := rows[server := kept];
        todo := todo - {server};
      }
      ghost var want := map server | server in all :: Since(all[server], before);
      assert rows.Keys == want.Keys;
      assert forall server :: server in rows ==> rows[server] == want[server];
      assert rows == want;
    }

    /** History: one pass over the selected rows, closing a bucket when the quotient changes. */
    method History(server: int, from: int, bucketSeconds: int) returns (out: seq<Sample>)
      ensures out == HistoryOf(RowsOf(server), from, if bucketSeconds <= 0 then 60 else bucketSeconds)
    {
      var width := if bucketSeconds <= 0 then 60 else bucketSeconds;
      var all := RowsOf(server);
      var scan := Scan([], ZERO, 0, 0);
      for i := 0 to |all|
        invariant Scanned(scan, Groups(Since(all[..i], from), width), width)
      {
        SelectStep(all, i, from, width);
        if all[i].t >= from {
          scan := Add(scan, all[i], width, Groups(Since(all[..i], from), width));
        }
      }
      assert all[..|all|] == all;
      out := scan.out;
      if scan.count > 0 {
        PointsSnoc(Groups(Since(all, from), width), width);
        out := out + [Mean(scan.key * width, scan.sum, scan.count)];
      }
    }

    /** One selected row. */
    static method Add(scan: Scan, r: Sample, width: int, ghost groups: seq<seq<Sample>>) returns (after: Scan)
      requires width > 0 && NonEmpty(groups) && Scanned(scan, groups, width)
      ensures Scanned(after, AddRow(groups, r, width), width)
    {
      var k := Quotient(r.t, width);
      if scan.count > 0 && k == scan.key {
        ScanGrows(scan, r, width, groups);
        return scan.(sum := Plus(scan.sum, r), count := scan.count + 1);
      }
      var out := scan.out;
      if scan.count > 0 {
        out := out + [Mean(scan.key * width, scan.sum, scan.count)];
      }
      ScanOpens(scan, out, r, width, groups);
      return Scan(out, Plus(ZERO, r), 1, k);
    }
  }

  lemma ScanGrows(scan: Scan, r: Sample, width: int, groups: seq<seq<Sample>>)
    requires width > 0 && NonEmpty(groups) && Scanned(scan, groups, width)
    requires scan.count > 0 && Quotient(r.t, width) == scan.key
    ensures Scanned(scan.(sum := Plus(scan.sum, r), count := scan.count + 1), AddRow(groups, r, width), width)
  {
    ClosedStep(groups, r, width);
    SumSnoc(groups[|groups| - 1], r);
  }

  lemma ScanOpens(scan: Scan, out: seq<Sample>, r: Sample, width: int, groups: seq<seq<Sample>>)
    requires width > 0 && NonEmpty(groups) && Scanned(scan, groups, width)
    requires scan.count == 0 || Quotient(r.t, width) != scan.key
    requires out == scan.out + if scan.count > 0 then [Mean(scan.key * width, scan.sum, scan.count)] else []
    ensures Scanned(Scan(out, Plus(ZERO, r), 1, Quotient(r.t, width)), AddRow(groups, r, width), width)
  {
    ClosedStep(groups, r, width);
    if scan.count > 0 {
      PointsSnoc(groups, width);
    } else {
      assert out == [] && Points(groups, width) == [];
    }
    assert [] + [r] == [r];
    SumSnoc([], r);
  }

  /** The state of the grouping pass: the points written and the bucket still open. */
  datatype Scan = Scan(out: seq<Sample>, sum: Sample, count: nat, key: int)

  ghost predicate Scanned(scan: Scan, groups: seq<seq<Sample>>, width: int)
    requires width > 0 && NonEmpty(groups)
  {
    && (scan.count == 0 <==> groups == [])
    && (groups != [] ==>
          var g := groups[|groups| - 1];
          scan.sum == Sum(g) && scan.count == |g| && scan.key == Quotient(g[0].t, width))
    && scan.out == Closed(groups, width)
  }

  // ---- what the buckets are ----

  function Flatten(groups: seq<seq<Sample>>): seq<Sample> {
    if groups == [] then [] else Flatten(groups[..|groups| - 1]) + groups[|groups| - 1]
  }

  /** Each group is one quotient, and the quotients strictly ascend. */
  predicate Bucketed(groups: seq<seq<Sample>>, width: int)
    requires width > 0
  {
    && NonEmpty(groups)
    && (forall i, k :: 0 <= i < |groups| && 0 <= k < |groups[i]| ==>
          Quotient(groups[i][k].t, width) == Quotient(groups[i][0].t, width))
    && (forall i, j :: 0 <= i < j < |groups| ==> Quotient(groups[i][0].t, width) < Quotient(groups[j][0].t, width))
  }

  lemma FlattenSnoc(groups: seq<seq<Sample>>, g: seq<Sample>)
    ensures Flatten(groups + [g]) == Flatten(groups) + g
  {
    assert (groups + [g])[..|groups|] == groups;
  }

  /** The quotient of the group still open. */
  function LastKey(groups: seq<seq<Sample>>, width: int): int
    requires width > 0 && NonEmpty(groups) && groups != []
  {
    Quotient(groups[|groups| - 1][0].t, width)
  }

  lemma JoinKeeps(groups: seq<seq<Sample>>, r: Sample, width: int)
    requires width > 0 && Bucketed(groups, width) && groups != [] && LastKey(groups, width) == Quotient(r.t, width)
    ensures var after := AddRow(groups, r, width);
            Bucketed(after, width) && after != [] && LastKey(after, width) == Quotient(r.t, width)
  {
  }

  lemma OpenKeeps(groups: seq<seq<Sample>>, r: Sample, width: int)
    requires width > 0 && Bucketed(groups, width)
    requires groups != [] ==> LastKey(groups, width) < Quotient(r.t, width)
    ensures var after := AddRow(groups, r, width);
            Bucketed(after, width) && after != [] && LastKey(after, width) == Quotient(r.t, width)
  {
  }

  lemma AddRowFlattens(groups: seq<seq<Sample>>, r: Sample, width: int)
    requires width > 0 && NonEmpty(groups)
    ensures Flatten(AddRow(groups, r, width)) == Flatten(groups) + [r]
  {
    FlattenSnoc(groups, [r]);
    if groups != [] {
      var n := |groups| - 1;
      FlattenSnoc(groups[..n], groups[n] + [r]);
      Regroup(Flatten(groups[..n]), groups[n], r);
    }
  }

  /** Adding a row whose quotient is not below the last one keeps the buckets and appends the row. */
  lemma AddRowKeeps(groups: seq<seq<Sample>>, r: Sample, width: int)
    requires width > 0 && Bucketed(groups, width)
    requires groups != [] ==> LastKey(groups, width) <= Quotient(r.t, width)
    ensures var after := AddRow(groups, r, width);
            && Bucketed(after, width) && after != [] && Flatten(after) == Flatten(groups) + [r]
            && LastKey(after, width) == Quotient(r.t, width)
  {
    AddRowFlattens(groups, r, width);
    if groups != [] && LastKey(groups, width) == Quotient(r.t, width) {
      JoinKeeps(groups, r, width);
    } else {
      OpenKeeps(groups, r, width);
    }
  }

  lemma Regroup(before: seq<Sample>, g: seq<Sample>, r: Sample)
    ensures before + (g + [r]) == before + g + [r]
  {
  }

  lemma {:induction false} GroupsPartition(rows: seq<Sample>, width: int)
    requires width > 0 && Ascending(rows)
    ensures Flatten(Groups(rows, width)) == rows && Bucketed(Groups(rows, width), width)
    ensures rows != [] ==>
              Groups(rows, width) != [] && LastKey(Groups(rows, width), width) == Quotient(rows[|rows| - 1].t, width)
  {
    if rows != [] {
      var init, r := rows[..|rows| - 1], rows[|rows| - 1];
      var groups: seq<seq<Sample>> := Groups(init, width);
      GroupsPartition(init, width);
      if init != [] {
        QuotientMonotone(init[|init| - 1].t, r.t, width);
      } else {
        assert groups == [];
      }
      AddRowKeeps(groups, r, width);
      RowsSnoc(rows);
      assert Groups(rows, width) == AddRow(groups, r, width);
    }
  }

  lemma RowsSnoc(rows: seq<Sample>)
    requires rows != []
    ensures rows == rows[..|rows| - 1] + [rows[|rows| - 1]]
  {
  }

  function Total(rows: seq<Sample>, f: Field): real {
    if rows == [] then 0.0 else Total(rows[..|rows| - 1], f) + Get(rows[|rows| - 1], f)
  }

  /** Count times average. */
  function Share(count: nat, average: real): real {
    count as real * average
  }

  /** Counts times averages, added up over the points. */
  function Weighted(groups: seq<seq<Sample>>, width: int, f: Field): real
    requires width > 0 && NonEmpty(groups)
  {
    if groups == [] then 0.0
    else
      var last := groups[|groups| - 1];
      Weighted(groups[..|groups| - 1], width, f) + Share(|last|, Get(Point(last, width), f))
  }

  lemma {:induction false} SumIsTotal(rows: seq<Sample>, f: Field)
    ensures Get(Sum(rows), f) == Total(rows, f)
  {
    if rows != [] {
      SumIsTotal(rows[..|rows| - 1], f);
    }
  }

  lemma {:induction false} TotalJoin(a: seq<Sample>, b: seq<Sample>, f: Field)
    ensures Total(a + b, f) == Total(a, f) + Total(b, f)
  {
    if b == [] {
      assert a + b == a;
    } else {
      assert (a + b)[..|a + b| - 1] == a + b[..|b| - 1];
      TotalJoin(a, b[..|b| - 1], f);
    }
  }

  lemma PointIsQuotient(group: seq<Sample>, width: int, f: Field)
    requires width > 0 && group != []
    ensures Get(Point(group, width), f) == Total(group, f) / |group| as real
  {
    SumIsTotal(group, f);
  }

  lemma ShareIsTotal(group: seq<Sample>, width: int, f: Field)
    requires width > 0 && group != []
    ensures Share(|group|, Get(Point(group, width), f)) == Total(group, f)
  {
    PointIsQuotient(group, width, f);
    ShareOfQuotient(|group|, Get(Point(group, width), f), Total(group, f));
  }

  lemma ShareOfQuotient(n: nat, q: real, x: real)
    requires n > 0 && q == x / n as real
    ensures Share(n, q) == x
  {
  }

  lemma {:induction false} WeightedIsTotal(groups: seq<seq<Sample>>, width: int, f: Field)
    requires width > 0 && NonEmpty(groups)
    ensures Weighted(groups, width, f) == Total(Flatten(groups), f)
  {
    if groups != [] {
      var init, last := groups[..|groups| - 1], groups[|groups| - 1];
      WeightedIsTotal(init, width, f);
      ShareIsTotal(last, width, f);
      TotalJoin(Flatten(init), last, f);
    }
  }

  lemma {:induction false} InFlatten(groups: seq<seq<Sample>>, s: Sample) returns (at: nat)
    requires s in Flatten(groups)
    ensures at < |groups| && s in groups[at]
  {
    var n := |groups| - 1;
    if s in groups[n] {
      at := n;
    } else {
      at := InFlatten(groups[..n], s);
    }
  }

  lemma PointTimes(groups: seq<seq<Sample>>, width: int)
    requires width > 0 && Bucketed(groups, width)
    ensures Ascending(Points(groups, width))
    ensures forall i :: 0 <= i < |groups| ==> Points(groups, width)[i].t % width == 0
  {
    var points := Points(groups, width);
    forall i, j | 0 <= i < j < |points| ensures points[i].t < points[j].t {
      MulMonotone(Quotient(groups[i][0].t, width), Quotient(groups[j][0].t, width), width);
    }
    forall i | 0 <= i < |points| ensures points[i].t % width == 0 {
      MultipleOf(Quotient(groups[i][0].t, width), width);
    }
  }

  /** The row lies in one bucket only, whose point bears a time less than a width away. */
  ghost predicate InOneBucket(s: Sample, groups: seq<seq<Sample>>, points: seq<Sample>, width: int)
    requires width > 0 && |points| == |groups|
  {
    exists i :: 0 <= i < |groups| && s in groups[i] && StartsAt(points[i].t, s.t, width) &&
      forall j :: 0 <= j < |groups| && s in groups[j] ==> j == i
  }

  /** The bucket of time `t` starts at `start`, or ends there for a time before zero, less than a width away. */
  predicate StartsAt(start: int, t: int, width: int)
    requires width > 0
  {
    start % width == 0 && if t >= 0 then 0 <= t - start < width else 0 <= start - t < width
  }

  lemma QuotientStarts(t: int, width: int)
    requires width > 0
    ensures StartsAt(Quotient(t, width) * width, t, width)
  {
    MultipleOf(Quotient(t, width), width);
    if t >= 0 {
      DivMod(t, width);
    } else {
      DivMod(-t, width);
      assert -((-t) / width) * width == -((-t) / width * width);
    }
  }

  lemma {:induction false} EachInOneBucket(groups: seq<seq<Sample>>, width: int)
    requires width > 0 && Bucketed(groups, width)
    ensures forall s :: s in Flatten(groups) ==> InOneBucket(s, groups, Points(groups, width), width)
  {
    forall s | s in Flatten(groups) ensures InOneBucket(s, groups, Points(groups, width), width) {
      var at := InFlatten(groups, s);
      QuotientStarts(s.t, width);
      forall j | 0 <= j < |groups| && s in groups[j] ensures j == at {
        assert Quotient(groups[j][0].t, width) == Quotient(s.t, width) == Quotient(groups[at][0].t, width);
      }
      assert StartsAt(Points(groups, width)[at].t, s.t, width);
    }
  }

  /** The query conserves the data: bucket times strictly ascend and are multiples of the width, every
      selected row lies in exactly one bucket, and counts times averages add up to the raw totals. */
  lemma {:induction false} HistoryConserves(rows: seq<Sample>, from: int, width: int, f: Field)
    requires width > 0 && Ascending(rows)
    ensures var selected := Since(rows, from);
            var groups := Groups(selected, width);
            var points := HistoryOf(rows, from, width);
            && |points| == |groups| && Ascending(points)
            && (forall i :: 0 <= i < |points| ==> points[i].t % width == 0)
            && Flatten(groups) == selected
            && (forall s :: s in selected ==> InOneBucket(s, groups, points, width))
            && Weighted(groups, width, f) == Total(selected, f)
  {
    var selected := Since(rows, from);
    SinceSelects(rows, from);
    GroupsPartition(selected, width);
    var groups: seq<seq<Sample>> := Groups(selected, width);
    PointTimes(groups, width);
    EachInOneBucket(groups, width);
    WeightedIsTotal(groups, width, f);
  }

  lemma MulMonotone(a: int, b: int, width: int)
    requires a < b && width > 0
    ensures a * width < b * width
  {
  }

  lemma MultipleOf(k: int, width: int)
    requires width > 0
    ensures (k * width) % width == 0
  {
    DivUnique(k * width, k, 0, width);
    DivMod(k * width, width);
  }

  /** n * x, added up. */
  function Times(n: nat, x: real): real {
    if n == 0 then 0.0 else Times(n - 1, x) + x
  }

  lemma {:induction false} TimesIsProduct(n: nat, x: real)
    ensures Times(n, x) == n as real * x
  {
    if n > 0 {
      TimesIsProduct(n - 1, x);
      assert n as real * x == (n - 1) as real * x + x;
    }
  }

  lemma {:induction false} TimesMonotone(n: nat, a: real, b: real)
    requires a <= b
    ensures Times(n, a) <= Times(n, b)
  {
    if n > 0 {
      TimesMonotone(n - 1, a, b);
    }
  }

  lemma {:induction false} TotalBetween(rows: seq<Sample>, f: Field) returns (lo: nat, hi: nat)
    requires rows != []
    ensures lo < |rows| && hi < |rows|
    ensures Times(|rows|, Get(rows[lo], f)) <= Total(rows, f) <= Times(|rows|, Get(rows[hi], f))
    ensures forall i :: 0 <= i < |rows| ==> Get(rows[lo], f) <= Get(rows[i], f) <= Get(rows[hi], f)
  {
    var n := |rows| - 1;
    lo, hi := n, n;
    if n > 0 {
      var l, h := TotalBetween(rows[..n], f);
      assert forall i :: 0 <= i < n ==> rows[..n][i] == rows[i];
      lo := if Get(rows[n], f) < Get(rows[l], f) then n else l;
      hi := if Get(rows[n], f) > Get(rows[h], f) then n else h;
      TimesMonotone(n, Get(rows[lo], f), Get(rows[l], f));
      TimesMonotone(n, Get(rows[h], f), Get(rows[hi], f));
    } else {
      assert Times(0, Get(rows[0], f)) == 0.0 && Total([], f) == 0.0;
    }
  }

  lemma QuotientBetween(n: nat, a: real, total: real, b: real)
    requires n > 0 && n as real * a <= total <= n as real * b
    ensures a <= total / n as real <= b
  {
  }

  /** Every average lies between the least and the greatest value of its bucket. */
  lemma AverageIsBetween(group: seq<Sample>, width: int, f: Field) returns (lo: nat, hi: nat)
    requires width > 0 && group != []
    ensures lo < |group| && hi < |group|
    ensures forall i :: 0 <= i < |group| ==> Get(group[lo], f) <= Get(group[i], f) <= Get(group[hi], f)
    ensures Get(group[lo], f) <= Get(Point(group, width), f) <= Get(group[hi], f)
  {
    lo, hi := TotalBetween(group, f);
    TimesIsProduct(|group|, Get(group[lo], f));
    TimesIsProduct(|group|, Get(group[hi], f));
    QuotientBetween(|group|, Get(group[lo], f), Total(group, f), Get(group[hi], f));
    PointIsQuotient(group, width, f);
  }

  // ---- how many points a chart gets ----

  /** historyRanges: window and bucket width, in seconds; unknown names mean one hour. */
  function Range(name: string): (int, int) {
    if name == "6h" then (21600, 300)
    else if name == "24h" then (86400, 900)
    else if name == "7d" then (604800, 3600)
    else if name == "30d" then (2592000, 10800)
    else (3600, 60)
  }

  lemma {:induction false} AscendingSpread(keys: seq<int>)
    requires keys != [] && forall i, j :: 0 <= i < j < |keys| ==> keys[i] < keys[j]
    ensures keys[|keys| - 1] - keys[0] >= |keys| - 1
  {
    if |keys| > 1 {
      AscendingSpread(keys[..|keys| - 1]);
    }
  }

  lemma QuotientSpread(now: int, window: int, width: int)
    requires width > 0 && window >= 0 && window % width == 0
    ensures Quotient(now, width) - Quotient(now - window, width) <= window / width
  {
    var m := window / width;
    DivMod(window, width);
    if now - window >= 0 {
      DivShift(now - window, m, width);
    } else if now < 0 {
      DivShift(-now, m, width);
    } else {
      DivShift(now - window, m, width);
      FloorBelow(now - window, width);
    }
  }

  lemma DivShift(a: int, m: int, width: int)
    requires width > 0
    ensures (a + m * width) / width == a / width + m
  {
    var q, r := a / width, a % width;
    DivMod(a, width);
    assert (q + m) * width == q * width + m * width;
    DivUnique(a + m * width, q + m, r, width);
  }

  /** Truncation never lies below the floor. */
  lemma FloorBelow(a: int, width: int)
    requires width > 0 && a < 0
    ensures a / width <= -((-a) / width)
  {
    var q, r := (-a) / width, (-a) % width;
    DivMod(-a, width);
    assert (-q) * width == -(q * width) && (-q - 1) * width == -(q * width) - width;
    if r == 0 {
      DivUnique(a, -q, 0, width);
    } else {
      DivUnique(a, -q - 1, width - r, width);
    }
  }

  lemma KeysSpread(groups: seq<seq<Sample>>, width: int)
    requires width > 0 && Bucketed(groups, width) && groups != []
    ensures LastKey(groups, width) - Quotient(groups[0][0].t, width) >= |groups| - 1
  {
    var keys := seq(|groups|, i requires 0 <= i < |groups| => Quotient(groups[i][0].t, width));
    AscendingSpread(keys);
  }

  /** Groups of rows in a window spanning whole buckets number at most one more than the buckets. */
  lemma WindowBoundsGroups(groups: seq<seq<Sample>>, from: int, now: int, window: int, width: int)
    requires width > 0 && window >= 0 && window % width == 0 && Bucketed(groups, width) && from == now - window
    requires forall s :: s in Flatten(groups) ==> from <= s.t <= now
    ensures groups != [] ==> |groups| <= window / width + 1
  {
    if groups != [] {
      KeysSpread(groups, width);
      FirstAndLast(groups);
      KeyWindow(groups[0][0].t, groups[|groups| - 1][0].t, now, window, width);
    }
  }

  lemma KeyWindow(first: int, last: int, now: int, window: int, width: int)
    requires width > 0 && window >= 0 && window % width == 0
    requires now - window <= first && last <= now
    ensures Quotient(last, width) - Quotient(first, width) <= window / width
  {
    QuotientMonotone(now - window, first, width);
    QuotientMonotone(last, now, width);
    QuotientSpread(now, window, width);
  }

  lemma {:induction false} WindowBoundsPoints(rows: seq<Sample>, from: int, now: int, window: int, width: int)
    requires width > 0 && window >= 0 && window % width == 0 && from == now - window
    requires Ascending(rows) && forall s :: s in rows ==> s.t <= now
    ensures var groups := Groups(Since(rows, from), width);
            groups == [] || |groups| <= window / width + 1
  {
    var selected := Since(rows, from);
    SinceSelects(rows, from);
    GroupsPartition(selected, width);
    WindowBoundsGroups(Groups(selected, width), from, now, window, width);
  }

  /** The hours a chart's range is named after; any other name means one. */
  function Hours(name: string): int {
    if name == "6h" then 6
    else if name == "24h" then 24
    else if name == "7d" then 7 * 24
    else if name == "30d" then 30 * 24
    else 1
  }

  /** How many buckets a chart of that many hours is cut into. */
  function Buckets(hours: int): int {
    if hours == 6 then 72
    else if hours == 24 then 96
    else if hours == 7 * 24 then 168
    else if hours == 30 * 24 then 240
    else 60
  }

  /** Every range reaches back as far as its name says and, given no sample from the future, yields at most one
      point more than its buckets. */
  lemma RangeBoundsPoints(rows: seq<Sample>, now: int, name: string)
    requires Ascending(rows) && forall s :: s in rows ==> s.t <= now
    ensures var (window, bucket) := Range(name);
            && window == Hours(name) * 3600
            && window / bucket == Buckets(Hours(name)) && window % bucket == 0
            && |HistoryOf(rows, now - window, bucket)| <= Buckets(Hours(name)) + 1
  {
    var (window, width) := Range(name);
    RangesAreWhole(name);
    WindowBoundsPoints(rows, now - window, now, window, width);
  }

  lemma RangesAreWhole(name: string)
    ensures var (window, bucket) := Range(name);
            && bucket > 0 && window == Hours(name) * 3600 && window % bucket == 0
            && window / bucket == Buckets(Hours(name))
  {
  }

  lemma {:induction false} FirstAndLast(groups: seq<seq<Sample>>)
    requires groups != [] && NonEmpty(groups)
    ensures groups[0][0] in Flatten(groups) && groups[|groups| - 1][0] in Flatten(groups)
  {
    if |groups| > 1 {
      FirstAndLast(groups[..|groups| - 1]);
    } else {
      assert Flatten(groups[..0]) == [];
    }
  }
}
