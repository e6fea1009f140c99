/** The agent self-update: the verify-before-install file sequence, the hub's request flag, and the
    two-party protocol between them over unbounded runs. */
module Update {
  import opened Text
  import opened Files

  // ---- the binary and its version ----

  /** An executable, by what running it with -version prints; `None` when it does not run. */
  datatype Binary = Binary(output: Option<string>)

  /** versionOf: the last field of the output, of which there must be two. */
  function VersionOf(b: Binary): Option<string> {
    if b.output.None? then None
    else
      var fields := Fields(b.output.value);
      if |fields| < 2 then None else Some(fields[|fields| - 1])
  }

  /** The line `fmt.Println("srvmon-agent", version)` prints. */
  function VersionLine(version: string): string {
    "srvmon-agent" + (" " + (version + "\n"))
  }

  /** An intact agent build is recognised: what it prints yields the version compiled into it. */
  lemma VersionRoundTrip(version: string)
    requires version != "" && forall i :: 0 <= i < |version| ==> !IsSpace(version[i])
    ensures VersionOf(Binary(Some(VersionLine(version)))) == Some(version)
  {
    var name, tail := "srvmon-agent", version + "\n";
    WordThen(name, "", " " + tail);
    assert "" + name == name && (" " + tail)[1..] == tail;
    WordThen(version, "", "\n");
    assert "" + version == version && "\n"[1..] == "";
    assert FieldsFrom("\n", version) == [version];
    assert Fields(VersionLine(version)) == [name, version];
  }

  /** In general the version is the last of at least two words, whatever stands between them. */
  lemma {:induction false} VersionIsLastWord(words: seq<string>)
    requires AllWords(words)
    ensures VersionOf(Binary(Some(JoinSpace(words)))) ==
            if |words| < 2 then None else Some(words[|words| - 1])
  {
    JoinedWords(words);
  }

  // ---- selfUpdate ----

  /** selfUpdate. `located` is whether the running binary's path could be resolved and `served` what
      the hub's download answers with, `None` for a failed request. */
  method SelfUpdate(fs: FileSystem<Binary>, located: bool, self: string, staged: string, served: Option<Binary>,
                    want: string)
    returns (ok: bool)
    requires fs.Valid() && self in fs.files
    requires staged != self && staged != self + ".old"
    modifies fs
    ensures fs.Valid() && old(fs.trace) <= fs.trace && fs.faults >= old(fs.faults)
    // at every moment the installed binary is the old one or a verified new one
    ensures forall i :: |old(fs.trace)| <= i < |fs.trace| ==>
              self in fs.trace[i] &&
              (fs.trace[i][self] == old(fs.files)[self] || VersionOf(fs.trace[i][self]) == Some(want))
    ensures ok ==> served.Some? && VersionOf(served.value) == Some(want) && fs.files[self] == served.value
    ensures !ok ==> fs.files[self] == old(fs.files)[self]
    ensures ok ==> staged !in fs.files
    ensures self + ".old" in fs.files ==>
              fs.files[self + ".old"] == old(fs.files)[self] ||
              (self + ".old" in old(fs.files) && fs.files[self + ".old"] == old(fs.files)[self + ".old"])
    // without a fault it succeeds exactly on the wanted version, cleans up and leaves the old binary spare
    ensures located && fs.faults == old(fs.faults) ==>
              (ok <==> served.Some? && VersionOf(served.value) == Some(want)) && staged !in fs.files &&
              (ok ==> self + ".old" in fs.files && fs.files[self + ".old"] == old(fs.files)[self])
  {
    if !located {
      return false;
    }
    ghost var start, begin := fs.files, |fs.trace|;
    if served.None? {
      var _ := fs.Remove(staged);
      return false;
    }
    var downloaded := Download(fs, staged, served.value);
    OthersStand(fs.trace, fs.files, begin, start, staged, self);
    SpareStands(fs.files, start, staged, self + ".old");
    // what runs with -version is the staged file
    if !downloaded || VersionOf(fs.files[staged]) != Some(want) {
      var _ := fs.Remove(staged);
      return false;
    }
    ok := Install(fs, self, staged, want);
  }

  /** download, once the hub has answered. */
  method Download(fs: FileSystem<Binary>, staged: string, served: Binary) returns (ok: bool)
    requires fs.Valid()
    modifies fs
    ensures fs.Valid() && old(fs.trace) <= fs.trace && fs.faults >= old(fs.faults)
    ensures forall i :: |old(fs.trace)| <= i < |fs.trace| ==> fs.trace[i] - {staged} == old(fs.files) - {staged}
    ensures fs.files - {staged} == old(fs.files) - {staged}
    ensures ok ==> fs.files == old(fs.files)[staged := served]
    ensures !ok ==> fs.faults > old(fs.faults)
  {
    ok := fs.Create(staged);
    if ok {
      ghost var blank := fs.files;
      ok := fs.Copy(staged, served);
      assert ok ==> fs.files == old(fs.files)[staged := served] by {
        assert blank[staged := served] - {staged} == blank - {staged};
        SameBut(blank[staged := served], old(fs.files), staged, served);
      }
    }
  }

  lemma SameBut(files: map<string, Binary>, start: map<string, Binary>, name: string, content: Binary)
    requires files - {name} == start - {name} && name in files && files[name] == content
    ensures files == start[name := content]
  {
    var target := start[name := content];
    forall k | k in files || k in target
      ensures k in files && k in target && files[k] == target[k]
    {
      if k != name {
        assert k in files <==> k in files - {name};
        assert k in start <==> k in start - {name};
        assert k in start - {name} ==> (start - {name})[k] == (files - {name})[k];
      }
    }
  }

  lemma SpareStands(files: map<string, Binary>, start: map<string, Binary>, changed: string, name: string)
    requires files - {changed} == start - {changed} && name != changed
    ensures name in files <==> name in start
    ensures name in files ==> files[name] == start[name]
  {
    assert name in files <==> name in files - {changed};
    assert name in start <==> name in start - {changed};
    assert name in start ==> (files - {changed})[name] == (start - {changed})[name];
  }

  /** The end of selfUpdate: a spare link to the old binary, then the verified one renamed over it. */
  method Install(fs: FileSystem<Binary>, self: string, staged: string, want: string) returns (ok: bool)
    requires fs.Valid() && self in fs.files && staged in fs.files
    requires staged != self && staged != self + ".old" && VersionOf(fs.files[staged]) == Some(want)
    modifies fs
    ensures fs.Valid() && old(fs.trace) <= fs.trace && fs.faults >= old(fs.faults)
    ensures forall i :: |old(fs.trace)| <= i < |fs.trace| ==>
              self in fs.trace[i] &&
              (fs.trace[i][self] == old(fs.files)[self] || VersionOf(fs.trace[i][self]) == Some(want))
    ensures self in fs.files && fs.files[self] == old(fs.files)[if ok then staged else self]
    ensures ok ==> staged !in fs.files
    ensures self + ".old" in fs.files ==>
              fs.files[self + ".old"] == old(fs.files)[self] ||
              (self + ".old" in old(fs.files) && fs.files[self + ".old"] == old(fs.files)[self + ".old"])
    ensures fs.faults == old(fs.faults) ==>
              ok && self + ".old" in fs.files && fs.files[self + ".old"] == old(fs.files)[self]
  {
    var backup := self + ".old";
    assert |backup| == |self| + 4;
    var _ := fs.Remove(backup);
    var _ := fs.Link(self, backup);
    ok := fs.Rename(staged, self);
    var _ := fs.Remove(staged);
  }

  lemma OthersStand(trace: seq<map<string, Binary>>, files: map<string, Binary>, begin: nat,
                    start: map<string, Binary>, changed: string, name: string)
    requires name in start && name != changed
    requires files - {changed} == start - {changed}
    requires forall i :: begin <= i < |trace| ==> trace[i] - {changed} == start - {changed}
    ensures name in files && files[name] == start[name]
    ensures forall i :: begin <= i < |trace| ==> name in trace[i] && trace[i][name] == start[name]
  {
    var rest := start - {changed};
    assert name in rest && name in files - {changed} && (files - {changed})[name] == rest[name];
    forall i | begin <= i < |trace|
      ensures name in trace[i] && trace[i][name] == start[name]
    {
      assert name in trace[i] - {changed} && (trace[i] - {changed})[name] == rest[name];
    }
  }

  // ---- the servers table ----

  datatype Row = Row(agent: string, updateTo: string, lastSeen: int)

  class ServerTable {
    var rows: map<int, Row>

    /** TouchServer. */
    method Touch(id: int, seenAt: int, agent: string)
      modifies this
      ensures rows == if id !in old(rows) then old(rows)
                      else old(rows)[id := old(rows)[id].(agent := agent, lastSeen := seenAt)]
    {
      if id in rows {
        rows := rows[id := rows[id].(agent := agent, lastSeen := seenAt)];
      }
    }

    /** RequestAgentUpdate: one server for a positive id, otherwise every server not on `version`. */
    method Request(id: int, version: string) returns (affected: nat)
      modifies this
      ensures rows.Keys == old(rows).Keys
      ensures forall k :: k in rows ==>
                rows[k] == if (if id > 0 then k == id else old(rows)[k].agent != version)
                           then old(rows)[k].(updateTo := version) else old(rows)[k]
      ensures affected == |set k | k in old(rows) && (if id > 0 then k == id else old(rows)[k].agent != version)|
      ensures rows == Requested(old(rows), id, version)
    {
      var hit := Targets(rows, id, version);
      affected := |hit|;
      rows := Requested(rows, id, version);
    }

    /** ClearAgentUpdate. */
    method Clear(id: int)
      modifies this
      ensures rows == if id in old(rows) then old(rows)[id := old(rows)[id].(updateTo := "")] else old(rows)
    {
      if id in rows {
        rows := rows[id := rows[id].(updateTo := "")];
      }
    }
  }

  /** The table after a request. */
  function Requested(rows: map<int, Row>, id: int, version: string): map<int, Row> {
    map k | k in rows :: if k in Targets(rows, id, version) then rows[k].(updateTo := version) else rows[k]
  }

  function Targets(rows: map<int, Row>, id: int, version: string): set<int> {
    set k | k in rows && (if id > 0 then k == id else rows[k].agent != version)
  }

  // ---- the protocol ----

  /** updateRetryAfter, in nanoseconds. */
  const RETRY_AFTER: int := 300_000_000_000

  /** Where the agent and its current push are. `Asked` carries the request flag the push has read,
      `Answered` the `update` field of the reply, and `Updating` the version being fetched. */
  datatype Phase =
    | Waiting
    | Pushed
    | Asked(target: string)
    | Answered(update: string)
    | Updating(want: string)
    | Exited

  /** A push the agent has given up on while the hub goes on with it: which push it is, the version its
      snapshot reports and the request flag it has read, if it has. */
  datatype Late = Late(id: nat, agent: string, target: Option<string>)

  /** One agent and its row. `running` is the version of the process, `installed` the binary on disk,
      `lastTry` is unset in a fresh process, `tries` the times of this process's download attempts and
      `requested` every version an operator has asked for. `late` holds the abandoned pushes and `begun`
      counts the pushes begun, the current one included. */
  datatype State = State(
    flag: string, recorded: string, requested: set<string>,
    running: string, installed: Binary, lastTry: Option<int>, tries: seq<int>,
    now: int, phase: Phase, late: seq<Late>, begun: nat)

  datatype Step =
    | Request(version: string, all: bool)            // operator, one server or every outdated one
    | Push                                           // the ticker fires
    | Lost                                           // the push or its reply is lost
    | Abandon                                        // the agent times out, the hub does not
    | Read                                           // the hub looks the server up
    | Answer(touchFails: bool, clearFails: bool)     // the hub clears the flag or answers with it
    | LateRead(push: nat)                            // the same two for an abandoned push
    | LateAnswer(push: nat, touchFails: bool, clearFails: bool)
    | Handle(elapsed: nat)                           // the agent acts on the reply
    | Finish(served: Option<Binary>, installs: bool) // selfUpdate returns
    | Kill                                           // the process stops
    | Restart                                        // the service manager starts the binary
    | Elapse(elapsed: nat)

  predicate Due(s: State) {
    s.lastTry.None? || s.now - s.lastTry.value > RETRY_AFTER
  }

  /** The request a row holds after a push has been answered: cleared when the snapshot reports the target
      the push has read, whatever the row held by then. */
  function FlagAfter(flag: string, agent: string, target: string, clearFails: bool): string {
    if target != "" && target == agent && !clearFails then "" else flag
  }

  /** The `update` field of the reply. */
  function UpdateField(agent: string, target: string): string {
    if target == agent then "" else target
  }

  /** The row after handleAgentPush, with the reported version recorded. */
  function Handled(s: State, agent: string, target: string, touchFails: bool, clearFails: bool): State {
    s.(recorded := if touchFails then s.recorded else agent, flag := FlagAfter(s.flag, agent, target, clearFails))
  }

  function Next(s: State, step: Step): State {
    match step
    case Request(version, all) =>
      var hit := !all || s.recorded != version;
      s.(flag := if hit then version else s.flag, requested := s.requested + {version})
    case Push => if s.phase.Waiting? then s.(phase := Pushed, begun := s.begun + 1) else s
    case Lost => if s.phase.Pushed? || s.phase.Asked? || s.phase.Answered? then s.(phase := Waiting) else s
    case Abandon =>
      if s.phase.Pushed? then s.(phase := Waiting, late := s.late + [Late(s.begun, s.running, None)])
      else if s.phase.Asked?
      then s.(phase := Waiting, late := s.late + [Late(s.begun, s.running, Some(s.phase.target))])
      else s
    case Read => if s.phase.Pushed? then s.(phase := Asked(s.flag)) else s
    case Answer(touchFails, clearFails) =>
      if !s.phase.Asked? then s
      else
        var target := s.phase.target;
        Handled(s, s.running, target, touchFails, clearFails).(
          phase := Answered(UpdateField(s.running, target)))
    case LateRead(push) =>
      if push < |s.late| && s.late[push].target.None?
      then s.(late := s.late[push := s.late[push].(target := Some(s.flag))]) else s
    case LateAnswer(push, touchFails, clearFails) =>
      if push < |s.late| && s.late[push].target.Some?
      then Handled(s, s.late[push].agent, s.late[push].target.value, touchFails, clearFails).(
             late := s.late[..push] + s.late[push + 1..])
      else s
    case Handle(elapsed) =>
      if !s.phase.Answered? then s
      else
        var update := s.phase.update;
        if update != "" && update != s.running && Due(s) then
          s.(lastTry := Some(s.now), tries := s.tries + [s.now], phase := Updating(update))
        else s.(phase := Waiting, now := s.now + elapsed)
    case Finish(served, installs) =>
      if !s.phase.Updating? then s
      else if served.Some? && VersionOf(served.value) == Some(s.phase.want) && installs then
        s.(installed := served.value, phase := Exited)
      else s.(phase := Waiting)
    case Kill => s.(phase := Exited)
    case Restart =>
      if s.phase.Exited? && VersionOf(s.installed).Some? then
        s.(running := VersionOf(s.installed).value, lastTry := None, tries := [], phase := Waiting)
      else s
    case Elapse(elapsed) => s.(now := s.now + elapsed)
  }

  /** A freshly started agent that reports the version its binary prints. */
  ghost predicate Initial(s: State) {
    s.flag == "" && s.requested == {} && VersionOf(s.installed) == Some(s.running) &&
    s.lastTry == None && s.tries == [] && s.phase == Waiting && s.late == []
  }

  function Run(s: State, steps: seq<Step>): State {
    if steps == [] then s else Next(Run(s, steps[..|steps| - 1]), steps[|steps| - 1])
  }

  /** Any two attempts lie more than five minutes apart. */
  predicate Spaced(tries: seq<int>) {
    forall i, j :: 0 <= i < j < |tries| ==> tries[j] - tries[i] > RETRY_AFTER
  }

  ghost predicate Inv(s: State, start: Binary) {
    && (s.installed == start ||
        (VersionOf(s.installed).Some? && VersionOf(s.installed).value in s.requested))
    && VersionOf(s.installed).Some?
    && (!s.phase.Exited? ==> VersionOf(s.installed) == Some(s.running))
    && (s.flag == "" || s.flag in s.requested)
    && (s.phase.Asked? ==> s.phase.target == "" || s.phase.target in s.requested)
    && (s.phase.Answered? ==> s.phase.update == "" || s.phase.update in s.requested)
    && (s.phase.Answered? ==> s.phase.update != s.running || s.phase.update == "")
    && (s.phase.Updating? ==> s.phase.want in s.requested && s.phase.want != s.running)
    && Spaced(s.tries)
    && (s.tries == [] ==> s.lastTry == None)
    && (s.tries != [] ==> s.lastTry == Some(s.tries[|s.tries| - 1]) && s.lastTry.value <= s.now)
  }

  lemma SpacedSnoc(tries: seq<int>, now: int)
    requires Spaced(tries) && (tries != [] ==> now - tries[|tries| - 1] > RETRY_AFTER)
    ensures Spaced(tries + [now])
  {
    forall i, j | 0 <= i < j < |tries| + 1
      ensures (tries + [now])[j] - (tries + [now])[i] > RETRY_AFTER
    {
      if j == |tries| && i < |tries| - 1 {
        assert tries[|tries| - 1] - tries[i] > RETRY_AFTER;
      }
    }
  }

  lemma HubKeepsInv(s: State, step: Step, start: Binary)
    requires Inv(s, start)
    requires step.Answer? || step.LateRead? || step.LateAnswer? || step.Read? || step.Abandon?
    ensures Inv(Next(s, step), start)
  {
  }

  lemma HandleKeepsInv(s: State, elapsed: nat, start: Binary)
    requires Inv(s, start)
    ensures Inv(Next(s, Handle(elapsed)), start)
  {
    if s.phase.Answered? && Due(s) {
      SpacedSnoc(s.tries, s.now);
    }
  }

  lemma FinishKeepsInv(s: State, served: Option<Binary>, installs: bool, start: Binary)
    requires Inv(s, start)
    ensures Inv(Next(s, Finish(served, installs)), start)
  {
  }

  lemma RestKeepsInv(s: State, step: Step, start: Binary)
    requires Inv(s, start)
    requires step.Request? || step.Push? || step.Lost? || step.Kill? || step.Restart? || step.Elapse?
    ensures Inv(Next(s, step), start)
  {
  }

  lemma StepKeepsInv(s: State, step: Step, start: Binary)
    requires Inv(s, start)
    ensures Inv(Next(s, step), start)
  {
    match step
    case Handle(elapsed) => HandleKeepsInv(s, elapsed, start);
    case Finish(served, installs) => FinishKeepsInv(s, served, installs, start);
    case Answer(_, _) => HubKeepsInv(s, step, start);
    case LateRead(_) => HubKeepsInv(s, step, start);
    case LateAnswer(_, _, _) => HubKeepsInv(s, step, start);
    case Read => HubKeepsInv(s, step, start);
    case Abandon => HubKeepsInv(s, step, start);
    case _ => RestKeepsInv(s, step, start);
  }

  lemma {:induction false} RunKeepsInv(s: State, steps: seq<Step>, start: Binary)
    requires Inv(s, start)
    ensures Inv(Run(s, steps), start)
  {
    if steps != [] {
      RunKeepsInv(s, steps[..|steps| - 1], start);
      StepKeepsInv(Run(s, steps[..|steps| - 1]), steps[|steps| - 1], start);
    }
  }

  /** Update safety over every run: the installed binary is the starting one or one whose own -version
      output is a version an operator requested, and the download attempts of one agent process lie
      more than five minutes apart. */
  lemma UpdateIsSafe(s: State, steps: seq<Step>)
    requires Initial(s)
    ensures var t := Run(s, steps);
            && (t.installed == s.installed ||
                (VersionOf(t.installed).Some? && VersionOf(t.installed).value in t.requested))
            && forall i, j :: 0 <= i < j < |t.tries| ==> t.tries[j] - t.tries[i] > 300_000_000_000
  {
    RunKeepsInv(s, steps, s.installed);
  }

  /** A push whose snapshot reports the target it has read is being answered. */
  predicate Clears(s: State, step: Step) {
    (step.Answer? && !step.clearFails && s.phase.Asked? && s.phase.target != "" && s.phase.target == s.running) ||
    (step.LateAnswer? && !step.clearFails && step.push < |s.late| &&
     var l := s.late[step.push]; l.agent != "" && l.target == Some(l.agent))
  }

  /** The flag is cleared by exactly those pushes; until then every answered push of a mismatched agent
      carries the target it has read. */
  lemma FlagIsClearedOnArrival(s: State, step: Step)
    requires step.Request? ==> step.version != ""
    ensures s.flag != "" ==> (Next(s, step).flag == "" <==> Clears(s, step))
    ensures !step.Request? ==> Next(s, step).flag == s.flag || Next(s, step).flag == ""
    ensures s.phase.Asked? && step.Answer? && s.phase.target != "" && s.phase.target != s.running ==>
              Next(s, step).phase == Answered(s.phase.target) && Next(s, step).flag == s.flag
    ensures s.phase.Pushed? && step.Read? ==> Next(s, step).phase == Asked(s.flag)
  {
  }

  /** An agent running `agent` began push number `id` with step `i`. */
  predicate PushedAt(s: State, steps: seq<Step>, i: nat, id: nat, agent: string) {
    i < |steps| && steps[i].Push? &&
    (var t := Run(s, steps[..i]); t.phase.Waiting? && t.begun + 1 == id && t.running == agent)
  }

  /** Handling push number `id`, the hub read the request `target` with step `j`. */
  predicate ReadAt(s: State, steps: seq<Step>, j: nat, id: nat, target: string) {
    j < |steps| && Reads(Run(s, steps[..j]), steps[j], id) && Run(s, steps[..j]).flag == target
  }

  predicate Reads(s: State, step: Step, id: nat) {
    (step.Read? && s.phase.Pushed? && s.begun == id) ||
    (step.LateRead? && step.push < |s.late| && s.late[step.push].target.None? && s.late[step.push].id == id)
  }

  /** The step answers push number `id`. */
  predicate Answers(s: State, step: Step, id: nat) {
    (step.Answer? && s.phase.Asked? && s.begun == id) ||
    (step.LateAnswer? && step.push < |s.late| && s.late[step.push].target.Some? && s.late[step.push].id == id)
  }

  /** Push `id` was begun by an agent of that version and then, if it has a target, read it. */
  ghost predicate Backed(s: State, steps: seq<Step>, id: nat, agent: string, target: Option<string>) {
    exists i: nat :: PushedAt(s, steps, i, id, agent) &&
      (target.Some? ==> exists j: nat :: i < j && ReadAt(s, steps, j, id, target.value))
  }

  ghost predicate Traced(s: State, steps: seq<Step>) {
    var t := Run(s, steps);
    && (t.phase.Pushed? ==> Backed(s, steps, t.begun, t.running, None))
    && (t.phase.Asked? ==> Backed(s, steps, t.begun, t.running, Some(t.phase.target)))
    && (forall k :: 0 <= k < |t.late| ==> Backed(s, steps, t.late[k].id, t.late[k].agent, t.late[k].target))
  }

  lemma BackedGrows(s: State, steps: seq<Step>, step: Step, id: nat, agent: string, target: Option<string>)
    requires Backed(s, steps, id, agent, target)
    ensures Backed(s, steps + [step], id, agent, target)
  {
    var all := steps + [step];
    var i: nat :| PushedAt(s, steps, i, id, agent) &&
      (target.Some? ==> exists j: nat :: i < j && ReadAt(s, steps, j, id, target.value));
    assert all[..i] == steps[..i] && PushedAt(s, all, i, id, agent);
    if target.Some? {
      var j: nat :| i < j && ReadAt(s, steps, j, id, target.value);
      assert all[..j] == steps[..j] && ReadAt(s, all, j, id, target.value);
    }
  }

  lemma BackedByRead(s: State, steps: seq<Step>, step: Step, id: nat, agent: string)
    requires Backed(s, steps, id, agent, None) && Reads(Run(s, steps), step, id)
    ensures Backed(s, steps + [step], id, agent, Some(Run(s, steps).flag))
  {
    var all, n := steps + [step], |steps|;
    var i: nat :| PushedAt(s, steps, i, id, agent);
    assert all[..i] == steps[..i] && PushedAt(s, all, i, id, agent);
    assert all[..n] == steps && ReadAt(s, all, n, id, Run(s, steps).flag);
  }

  lemma BackedByPush(s: State, steps: seq<Step>, id: nat)
    requires Run(s, steps).phase.Waiting? && id == Run(s, steps).begun + 1
    ensures Backed(s, steps + [Push], id, Run(s, steps).running, None)
  {
    var all, n := steps + [Push], |steps|;
    assert all[..n] == steps && PushedAt(s, all, n, id, Run(s, steps).running);
  }

  lemma {:induction false} RunIsTraced(s: State, steps: seq<Step>)
    requires Initial(s)
    ensures Traced(s, steps)
  {
    if steps != [] {
      var init, step := steps[..|steps| - 1], steps[|steps| - 1];
      RunIsTraced(s, init);
      StepIsTraced(s, init, step);
      assert steps == init + [step];
    }
  }

  lemma StepIsTraced(s: State, steps: seq<Step>, step: Step)
    requires Traced(s, steps)
    ensures Traced(s, steps + [step])
  {
    var all := steps + [step];
    assert all[..|steps|] == steps;
    var before, after := Run(s, steps), Run(s, all);
    assert after == Next(before, step);
    if after.phase.Pushed? {
      if before.phase.Pushed? {
        BackedGrows(s, steps, step, before.begun, before.running, None);
      } else {
        BackedByPush(s, steps, after.begun);
      }
    }
    if after.phase.Asked? {
      if before.phase.Asked? {
        BackedGrows(s, steps, step, before.begun, before.running, Some(before.phase.target));
      } else {
        BackedByRead(s, steps, step, before.begun, before.running);
      }
    }
    forall k | 0 <= k < |after.late|
      ensures Backed(s, all, after.late[k].id, after.late[k].agent, after.late[k].target)
    {
      LateIsTraced(s, steps, step, k);
    }
  }

  lemma {:induction false} LateIsTraced(s: State, steps: seq<Step>, step: Step, k: nat)
    requires Traced(s, steps) && k < |Next(Run(s, steps), step).late|
    ensures var l := Next(Run(s, steps), step).late[k]; Backed(s, steps + [step], l.id, l.agent, l.target)
  {
    var before := Run(s, steps);
    var l := Next(before, step).late[k];
    if step.Abandon? && k == |before.late| {
      BackedGrows(s, steps, step, l.id, l.agent, l.target);
    } else {
      var j, read := LateOrigin(before, step, k);
      if read {
        BackedByRead(s, steps, step, l.id, l.agent);
      } else {
        BackedGrows(s, steps, step, l.id, l.agent, l.target);
      }
    }
  }

  /** An abandoned push was there before the step, unread if the step is its read. */
  lemma LateOrigin(s: State, step: Step, k: nat) returns (j: nat, read: bool)
    requires k < |Next(s, step).late| && !(step.Abandon? && k == |s.late|)
    ensures j < |s.late|
    ensures read ==> s.late[j].target == None && Reads(s, step, s.late[j].id) &&
                     Next(s, step).late[k] == s.late[j].(target := Some(s.flag))
    ensures !read ==> Next(s, step).late[k] == s.late[j]
  {
    read := step.LateRead? && step.push == k && s.late[k].target.None?;
    j := if step.LateAnswer? && |Next(s, step).late| < |s.late| && k >= step.push then k + 1 else k;
  }

  /** In every run, a request is cleared only by answering a push that an agent began while running some
      version and with which the hub afterwards read a request for that very version. */
  lemma ClearIsEarned(s: State, steps: seq<Step>, step: Step)
    returns (id: nat, version: string, i: nat, j: nat)
    requires Initial(s) && (step.Request? ==> step.version != "")
    requires Run(s, steps).flag != "" && Next(Run(s, steps), step).flag == ""
    ensures version != "" && i < j && Answers(Run(s, steps), step, id)
    ensures PushedAt(s, steps, i, id, version) && ReadAt(s, steps, j, id, version)
  {
    RunIsTraced(s, steps);
    var t := Run(s, steps);
    id := if step.Answer? then t.begun else t.late[step.push].id;
    version := if step.Answer? then t.running else t.late[step.push].agent;
    assert Backed(s, steps, id, version, Some(version));
    i :| PushedAt(s, steps, i, id, version) && exists j: nat :: i < j && ReadAt(s, steps, j, id, version);
    j :| i < j && ReadAt(s, steps, j, id, version);
  }

  /** No two pushes bear the same number. */
  lemma PushNumbersDiffer(s: State, steps: seq<Step>, i: nat, j: nat, id: nat, a: string, b: string)
    requires PushedAt(s, steps, i, id, a) && PushedAt(s, steps, j, id, b) && i <= j
    ensures i == j
  {
    if i < j {
      assert steps[..j][..i + 1] == steps[..i + 1] && steps[..i + 1][..i] == steps[..i];
      BegunGrows(s, steps[..j], i + 1);
    }
  }

  lemma {:induction false} BegunGrows(s: State, steps: seq<Step>, i: nat)
    requires i <= |steps|
    ensures Run(s, steps[..i]).begun <= Run(s, steps).begun
  {
    if i < |steps| {
      var init := steps[..|steps| - 1];
      BegunGrows(s, init, i);
      assert init[..i] == steps[..i];
    } else {
      assert steps[..i] == steps;
    }
  }

  /** The request for `target` stands, the push under way, if any, has seen it, and no abandoned push
      reports `target` or the older target it has read. */
  ghost predicate Told(s: State, target: string) {
    && s.flag == target && s.running != target
    && (s.phase.Asked? ==> s.phase.target == target)
    && (s.phase.Answered? ==> s.phase.update == target)
    && (forall i :: 0 <= i < |s.late| ==> s.late[i].agent != target && s.late[i].target != Some(s.late[i].agent))
  }

  lemma StepKeepsTold(s: State, step: Step, target: string)
    requires target != "" && Told(s, target) && !step.Request? && Next(s, step).running != target
    ensures Told(Next(s, step), target)
  {
  }

  /** Whatever fails, restarts or is lost: as long as the agent has not reported the target, the
      request stands and every reply carries it. */
  lemma {:induction false} MismatchedAgentIsTold(s: State, steps: seq<Step>, target: string)
    requires target != "" && Told(s, target)
    requires forall i :: 0 <= i < |steps| ==> !steps[i].Request?
    requires forall i :: 0 <= i <= |steps| ==> Run(s, steps[..i]).running != target
    ensures Told(Run(s, steps), target)
  {
    if steps != [] {
      var init := steps[..|steps| - 1];
      forall i | 0 <= i <= |init| ensures Run(s, init[..i]).running != target {
        assert init[..i] == steps[..i];
      }
      MismatchedAgentIsTold(s, init, target);
      assert steps[..|steps|] == steps;
      StepKeepsTold(Run(s, init), steps[|steps| - 1], target);
    }
  }

  /** A build that does not report the target. */
  predicate Refused(step: Step, target: string) {
    step.Finish? && step.served.Some? ==> VersionOf(step.served.value) != Some(target)
  }

  lemma StepStrands(s: State, step: Step, target: string)
    requires target != "" && Told(s, target) && VersionOf(s.installed) != Some(target)
    requires !step.Request? && Refused(step, target)
    ensures Told(Next(s, step), target) && VersionOf(Next(s, step).installed) != Some(target)
  {
  }

  /** As long as no build that reports the target is served, no run without a new request installs
      the target, and the agent is told for it to the end: a failed update strands nobody. */
  lemma {:induction false} MismatchInstallsNothing(s: State, steps: seq<Step>, target: string)
    requires target != "" && Told(s, target) && VersionOf(s.installed) != Some(target)
    requires forall i :: 0 <= i < |steps| ==> !steps[i].Request? && Refused(steps[i], target)
    ensures Told(Run(s, steps), target) && VersionOf(Run(s, steps).installed) != Some(target)
  {
    if steps != [] {
      MismatchInstallsNothing(s, steps[..|steps| - 1], target);
      StepStrands(Run(s, steps[..|steps| - 1]), steps[|steps| - 1], target);
    }
  }

  // ---- progress ----

  /** A step that can be taken in `s` and in which nothing fails, with `build` the one the hub serves. The
      hub's steps for abandoned pushes are among them. */
  predicate FaultFree(s: State, step: Step, build: Binary) {
    match step
    case Push => s.phase.Waiting?
    case Read => s.phase.Pushed?
    case Answer(_, clearFails) => s.phase.Asked? && !clearFails
    case Handle(elapsed) => s.phase.Answered? && elapsed > 0
    case Finish(served, installs) => s.phase.Updating? && served == Some(build) && installs
    case Restart => s.phase.Exited?
    case LateRead(push) => push < |s.late| && s.late[push].target.None?
    case LateAnswer(push, _, clearFails) => push < |s.late| && s.late[push].target.Some? && !clearFails
    case _ => false
  }

  /** How far the agent is from running `target`: on disk, being fetched, or neither. */
  function Distance(s: State, target: string): nat {
    if VersionOf(s.installed) == Some(target) then 0
    else if s.phase == Updating(target) then 1
    else 2
  }

  /** How long a push that read an older flag can still be acted upon. */
  function Stale(s: State, target: string): nat {
    match s.phase
    case Asked(t) => if t == target then 0 else 3
    case Answered(t) => if t == target then 0 else 2
    case Updating(t) => if t == target then 0 else 1
    case _ => 0
  }

  function Cooldown(s: State): nat {
    if Due(s) then 0 else s.lastTry.value + RETRY_AFTER - s.now + 1
  }

  function Rank(p: Phase): nat {
    match p
    case Exited => 6
    case Waiting => 5
    case Pushed => 4
    case Asked(_) => 3
    case Answered(_) => 2
    case Updating(_) => 1
  }

  /** The hub's steps still to come for the abandoned pushes. */
  function Backlog(late: seq<Late>): nat {
    if late == [] then 0
    else Backlog(late[..|late| - 1]) + (if late[|late| - 1].target.None? then 2 else 1)
  }

  datatype Measure = Measure(distance: nat, stale: nat, cooldown: nat, rank: nat, backlog: nat) {
    predicate Below(m: Measure) {
      distance < m.distance || (distance == m.distance &&
      (stale < m.stale || (stale == m.stale &&
      (cooldown < m.cooldown || (cooldown == m.cooldown &&
      (rank < m.rank || (rank == m.rank && backlog < m.backlog)))))))
    }
  }

  function MeasureOf(s: State, target: string): Measure {
    Measure(Distance(s, target), Stale(s, target), Cooldown(s), Rank(s.phase), Backlog(s.late))
  }

  /** The agent already runs what the row asks for. */
  predicate Met(s: State) {
    s.running == s.flag && VersionOf(s.installed) == Some(s.flag)
  }

  /** The push under way has read an older request that the agent already satisfies: the clear that
      follows is not conditional on what the row now holds. */
  predicate AboutToLose(s: State) {
    s.phase.Asked? && s.phase.target != "" && s.phase.target == s.running && s.flag != s.running
  }

  /** An abandoned push that will clear the row: it has read the version it reports, or is about to. */
  predicate WillClear(l: Late, flag: string) {
    l.agent != "" && (l.target == Some(l.agent) || (l.target == None && l.agent == flag))
  }

  /** No push in the hub's hands is going to clear a request the agent has not met. */
  predicate Steady(s: State) {
    Met(s) || (!AboutToLose(s) && forall i :: 0 <= i < |s.late| ==> !WillClear(s.late[i], s.flag))
  }

  /** The agent runs `target`, from disk too, and the request is cleared. */
  predicate Arrived(s: State, target: string) {
    s.flag == "" && s.running == target && VersionOf(s.installed) == Some(target)
  }

  lemma {:induction false} BacklogRead(late: seq<Late>, i: nat, flag: string)
    requires i < |late| && late[i].target == None
    ensures Backlog(late[i := late[i].(target := Some(flag))]) < Backlog(late)
  {
    var n := |late| - 1;
    var after := late[i := late[i].(target := Some(flag))];
    if i < n {
      assert after[..n] == late[..n][i := late[i].(target := Some(flag))];
      BacklogRead(late[..n], i, flag);
    } else {
      assert after[..n] == late[..n];
    }
  }

  lemma {:induction false} BacklogAnswer(late: seq<Late>, i: nat)
    requires i < |late|
    ensures Backlog(late[..i] + late[i + 1..]) < Backlog(late)
  {
    var n := |late| - 1;
    var after := late[..i] + late[i + 1..];
    if i < n {
      assert after[..n - 1] == late[..n][..i] + late[..n][i + 1..];
      BacklogAnswer(late[..n], i);
    } else {
      assert after == late[..n];
    }
  }

  lemma LateReadDecreases(s: State, push: nat)
    requires s.flag != "" && Steady(s) && push < |s.late| && s.late[push].target.None?
    ensures var t := Next(s, LateRead(push));
            t.flag == s.flag && Steady(t) && MeasureOf(t, s.flag).Below(MeasureOf(s, s.flag))
  {
    BacklogRead(s.late, push, s.flag);
  }

  lemma LateAnswerDecreases(s: State, push: nat, touchFails: bool)
    requires s.flag != "" && Steady(s) && push < |s.late| && s.late[push].target.Some?
    ensures var t := Next(s, LateAnswer(push, touchFails, false));
            Arrived(t, s.flag) ||
            (t.flag == s.flag && Steady(t) && MeasureOf(t, s.flag).Below(MeasureOf(s, s.flag)))
  {
    BacklogAnswer(s.late, push);
    var rest := s.late[..push] + s.late[push + 1..];
    assert forall i :: 0 <= i < |rest| ==> rest[i] == s.late[if i < push then i else i + 1];
  }

  lemma OwnStepDecreases(s: State, step: Step, build: Binary, start: Binary)
    requires Inv(s, start) && s.flag != "" && VersionOf(build) == Some(s.flag)
    requires Steady(s) && FaultFree(s, step, build) && !step.LateRead? && !step.LateAnswer?
    ensures var t := Next(s, step);
            Arrived(t, s.flag) ||
            (t.flag == s.flag && Steady(t) && MeasureOf(t, s.flag).Below(MeasureOf(s, s.flag)))
  {
  }

  /** From every reachable steady state with the flag set to what the served build reports, every step
      in which nothing fails, the agent's or the hub's, arrives or decreases the measure. */
  lemma GoodStepDecreases(s: State, step: Step, build: Binary, start: Binary)
    requires Inv(s, start) && s.flag != "" && VersionOf(build) == Some(s.flag)
    requires Steady(s) && FaultFree(s, step, build)
    ensures var t := Next(s, step);
            && Inv(t, start)
            && (Arrived(t, s.flag) ||
                (t.flag == s.flag && Steady(t) && MeasureOf(t, s.flag).Below(MeasureOf(s, s.flag))))
  {
    StepKeepsInv(s, step, start);
    if step.LateRead? {
      LateReadDecreases(s, step.push);
    } else if step.LateAnswer? {
      LateAnswerDecreases(s, step.push, step.touchFails);
    } else {
      OwnStepDecreases(s, step, build, start);
    }
  }

  /** Such a step can always be taken, so a run without failures never gets stuck. */
  lemma SomeStepIsEnabled(s: State, build: Binary) returns (step: Step)
    ensures FaultFree(s, step, build) && !step.LateRead? && !step.LateAnswer?
  {
    match s.phase
    case Waiting => step := Push;
    case Pushed => step := Read;
    case Asked(_) => step := Answer(false, false);
    case Answered(_) => step := Handle(1);
    case Updating(_) => step := Finish(Some(build), true);
    case Exited => step := Restart;
  }

  /** Time alone takes nothing back. */
  lemma ElapseIsHarmless(s: State, elapsed: nat, start: Binary)
    requires Inv(s, start)
    ensures var t := Next(s, Elapse(elapsed));
            && Inv(t, start) && t.flag == s.flag && (Steady(t) <==> Steady(s))
            && (MeasureOf(t, s.flag) == MeasureOf(s, s.flag) || MeasureOf(t, s.flag).Below(MeasureOf(s, s.flag)))
  {
    StepKeepsInv(s, Elapse(elapsed), start);
  }

  /** Time passes, then one step is taken. */
  function After(s: State, wait: nat, step: Step): State {
    Next(Next(s, Elapse(wait)), step)
  }

  lemma AfterDecreases(s: State, wait: nat, step: Step, build: Binary, start: Binary)
    requires Inv(s, start) && s.flag != "" && VersionOf(build) == Some(s.flag)
    requires Steady(s) && FaultFree(s, step, build)
    ensures var t := After(s, wait, step);
            && Inv(t, start)
            && (Arrived(t, s.flag) ||
                (t.flag == s.flag && Steady(t) && MeasureOf(t, s.flag).Below(MeasureOf(s, s.flag))))
  {
    var later := Next(s, Elapse(wait));
    ElapseIsHarmless(s, wait, start);
    GoodStepDecreases(later, step, build, start);
    var a, b, c := MeasureOf(Next(later, step), s.flag), MeasureOf(later, s.flag), MeasureOf(s, s.flag);
    assert b == c || (a.Below(b) && b.Below(c) ==> a.Below(c));
  }

  /** So every endless run without failures arrives, however it interleaves the agent's steps with the
      hub's for abandoned pushes and whatever time passes between them; until then the request stands. */
  lemma {:induction false} UpdateArrives(at: nat -> State, waits: nat -> nat, steps: nat -> Step,
                                         build: Binary, start: Binary, n: nat) returns (m: nat)
    requires Inv(at(n), start) && at(n).flag != "" && VersionOf(build) == Some(at(n).flag) && Steady(at(n))
    requires forall k {:trigger steps(k)} :: n <= k ==>
               FaultFree(at(k), steps(k), build) && at(k + 1) == After(at(k), waits(k), steps(k))
    ensures m > n && Arrived(at(m), at(n).flag)
    ensures forall k :: n <= k < m ==> at(k).flag == at(n).flag
    decreases var m := MeasureOf(at(n), at(n).flag); m.distance,
              var m := MeasureOf(at(n), at(n).flag); m.stale,
              var m := MeasureOf(at(n), at(n).flag); m.cooldown,
              var m := MeasureOf(at(n), at(n).flag); m.rank,
              var m := MeasureOf(at(n), at(n).flag); m.backlog
  {
    var s, next := at(n), n + 1;
    assert FaultFree(s, steps(n), build) && at(next) == After(s, waits(n), steps(n));
    AfterDecreases(s, waits(n), steps(n), build, start);
    if Arrived(at(next), s.flag) {
      m := next;
    } else {
      m := UpdateArrives(at, waits, steps, build, start, next);
    }
  }

  /** A finite run without failures, with time passing anywhere. */
  predicate FaultFreeRun(s: State, steps: seq<Step>, build: Binary) {
    forall i :: 0 <= i < |steps| ==> steps[i].Elapse? || FaultFree(Run(s, steps[..i]), steps[i], build)
  }

  /** The last step of such a run clears the request although the agent has not met it. */
  predicate Loses(s: State, steps: seq<Step>, build: Binary) {
    && steps != [] && FaultFreeRun(s, steps, build)
    && Run(s, steps[..|steps| - 1]).flag == s.flag
    && Run(s, steps).flag == "" && !Arrived(Run(s, steps), s.flag)
  }

  lemma {:induction false} SteadyRunKeeps(s: State, steps: seq<Step>, build: Binary, start: Binary)
    requires Inv(s, start) && s.flag != "" && VersionOf(build) == Some(s.flag) && Steady(s)
    requires FaultFreeRun(s, steps, build) && Run(s, steps).flag == s.flag
    ensures Inv(Run(s, steps), start) && Steady(Run(s, steps))
  {
    if steps != [] {
      var init, step := steps[..|steps| - 1], steps[|steps| - 1];
      var t := Run(s, init);
      InitIsFaultFree(s, steps, build);
      FlagsOnlyClear(s, init, build);
      if t.flag == s.flag {
        SteadyRunKeeps(s, init, build, start);
        if step.Elapse? {
          ElapseIsHarmless(t, step.elapsed, start);
        } else {
          GoodStepDecreases(t, step, build, start);
        }
      }
    }
  }

  lemma InitIsFaultFree(s: State, steps: seq<Step>, build: Binary)
    requires FaultFreeRun(s, steps, build) && steps != []
    ensures FaultFreeRun(s, steps[..|steps| - 1], build)
    ensures var last := steps[|steps| - 1];
            last.Elapse? || FaultFree(Run(s, steps[..|steps| - 1]), last, build)
  {
    var init := steps[..|steps| - 1];
    forall i | 0 <= i < |init| ensures init[i].Elapse? || FaultFree(Run(s, init[..i]), init[i], build) {
      assert init[..i] == steps[..i];
    }
  }

  lemma {:induction false} FlagsOnlyClear(s: State, steps: seq<Step>, build: Binary)
    requires FaultFreeRun(s, steps, build)
    ensures Run(s, steps).flag == s.flag || Run(s, steps).flag == ""
  {
    if steps != [] {
      InitIsFaultFree(s, steps, build);
      FlagsOnlyClear(s, steps[..|steps| - 1], build);
    }
  }

  lemma RunOne(s: State, step: Step, build: Binary)
    requires FaultFree(s, step, build)
    ensures Run(s, [step]) == Next(s, step) && FaultFreeRun(s, [step], build)
  {
    assert [step][..0] == [] && Run(s, []) == s;
  }

  lemma RunTwo(s: State, a: Step, b: Step, build: Binary)
    requires FaultFree(s, a, build) && FaultFree(Next(s, a), b, build)
    ensures [a, b][..1] == [a] && Run(s, [a]) == Next(s, a)
    ensures Run(s, [a, b]) == Next(Next(s, a), b) && FaultFreeRun(s, [a, b], build)
  {
    assert [a, b][..1] == [a] && [a][..0] == [] && [a, b][..0] == [] && Run(s, []) == s;
  }

  lemma UnsteadyLoses(s: State, build: Binary) returns (steps: seq<Step>)
    requires s.flag != "" && !Steady(s)
    ensures Loses(s, steps, build)
  {
    if AboutToLose(s) {
      RunOne(s, Answer(false, false), build);
      return [Answer(false, false)];
    }
    var i: nat :| i < |s.late| && WillClear(s.late[i], s.flag);
    var answer := LateAnswer(i, false, false);
    if s.late[i].target.Some? {
      RunOne(s, answer, build);
      return [answer];
    }
    RunTwo(s, LateRead(i), answer, build);
    return [LateRead(i), answer];
  }

  /** Progress holds exactly from the steady states: from any other, some run without failures clears a
      request the agent has not met, and from a steady one none does. */
  lemma LostExactlyInRace(s: State, build: Binary, start: Binary)
    requires Inv(s, start) && s.flag != "" && VersionOf(build) == Some(s.flag)
    ensures Steady(s) <==> !exists steps :: Loses(s, steps, build)
  {
    if !Steady(s) {
      var steps := UnsteadyLoses(s, build);
    } else {
      forall steps: seq<Step> ensures !Loses(s, steps, build) {
        if Loses(s, steps, build) {
          InitIsFaultFree(s, steps, build);
          SteadyRunKeeps(s, steps[..|steps| - 1], build, start);
          var t, last := Run(s, steps[..|steps| - 1]), steps[|steps| - 1];
          if !last.Elapse? {
            GoodStepDecreases(t, last, build, start);
          }
        }
      }
    }
  }

  lemma {:induction false} ClearedStaysCleared(s: State, steps: seq<Step>)
    requires s.flag == "" && forall i :: 0 <= i < |steps| ==> !steps[i].Request?
    ensures Run(s, steps).flag == ""
  {
    if steps != [] {
      ClearedStaysCleared(s, steps[..|steps| - 1]);
    }
  }

  /** The excluded states are reachable from every start: the second request arrives while a push that
      saw the first one is being answered. A hub only ever asks for the version it was built with, so the
      two requests are made by a hub before and after its own upgrade, which the stored request survives;
      the push comes after the upgrade. */
  lemma {:induction false} RequestCanBeLost(s: State, other: string)
    requires Initial(s) && s.running == s.recorded != "" && other != "" && other != s.running
    ensures var t := Run(s, [Request(s.running, false), Push, Read, Request(other, true)]);
            t.flag == other && AboutToLose(t) && !Steady(t) && Next(t, Answer(false, false)).flag == ""
  {
    RunFour(s, Request(s.running, false), Push, Read, Request(other, true));
    RaceIsReached(s, other);
  }

  lemma RaceIsReached(s: State, other: string)
    requires Initial(s) && s.running == s.recorded != "" && other != "" && other != s.running
    ensures var t := Next(Next(Next(Next(s, Request(s.running, false)), Push), Read), Request(other, true));
            t.flag == other && t.phase == Asked(s.running) && t.running == s.running && t.late == []
  {
    var a := Next(s, Request(s.running, false));
    var c := Next(Next(a, Push), Read);
    assert a.flag == s.running && c.phase == Asked(s.running) && c.recorded == s.running;
  }

  /** And so they are when the agent has given up on that push, with no push of its own under way. */
  lemma AbandonedPushCanLose(s: State, other: string)
    requires Initial(s) && s.running == s.recorded != "" && other != "" && other != s.running
    ensures var t := Run(s, [Request(s.running, false), Push, Read, Abandon, Request(other, true)]);
            t.flag == other && t.phase == Waiting && !AboutToLose(t) && !Steady(t) &&
            Next(t, LateAnswer(0, false, false)).flag == ""
  {
    var a, e := Request(s.running, false), Request(other, true);
    RunFour(s, a, Push, Read, Abandon);
    RunSnoc(s, [a, Push, Read, Abandon], e);
    assert [a, Push, Read, Abandon] + [e] == [a, Push, Read, Abandon, e];
    var t := Next(Run(s, [a, Push, Read, Abandon]), e);
    assert t.late == [Late(s.begun + 1, s.running, Some(s.running))] && WillClear(t.late[0], t.flag);
  }

  lemma RunSnoc(s: State, steps: seq<Step>, step: Step)
    ensures Run(s, steps + [step]) == Next(Run(s, steps), step)
  {
    assert (steps + [step])[..|steps|] == steps;
  }

  lemma RunFour(s: State, a: Step, b: Step, c: Step, d: Step)
    ensures Run(s, [a, b, c, d]) == Next(Next(Next(Next(s, a), b), c), d)
  {
    assert [a] == [] + [a] && [a, b] == [a] + [b] && [a, b, c] == [a, b] + [c] && [a, b, c, d] == [a, b, c] + [d];
    RunSnoc(s, [], a);
    RunSnoc(s, [a], b);
    RunSnoc(s, [a, b], c);
    RunSnoc(s, [a, b, c], d);
  }

  /** What the protocol takes the agent to do with a reply is what its loop does: a download attempt exactly
      when another version is asked for and the last attempt is more than five minutes past. */
  lemma HandleIsTick(s: State, elapsed: nat)
    requires s.phase.Answered?
    ensures var t, update := Next(s, Handle(elapsed)), s.phase.update;
            if update != "" && update != s.running &&
               (s.lastTry.None? || s.now - s.lastTry.value > 300_000_000_000)
            then t.phase == Updating(update) && t.lastTry == Some(s.now) && t.tries == s.tries + [s.now]
            else t.phase == Waiting && t.lastTry == s.lastTry && t.tries == s.tries
  {
  }

  /** And what it takes an attempt to do is what selfUpdate does when it returns: success installs the served
      build and ends the process, anything else leaves the old one running. */
  lemma FinishIsSelfUpdate(s: State, served: Option<Binary>, installs: bool)
    requires s.phase.Updating?
    ensures var t := Next(s, Finish(served, installs));
            if served.Some? && VersionOf(served.value) == Some(s.phase.want) && installs
            then t.installed == served.value && t.phase == Exited
            else t.installed == s.installed && t.phase == Waiting
  {
  }

  // ---- one tick of the agent's loop ----

  /** The part of `run` that survives from tick to tick, with one tick's reply handling. */
  class Agent {
    var failures: nat
    var interval: int
    var lastTry: Option<int>
    const version: string

    constructor (version: string, interval: int)
      ensures this.version == version && this.interval == interval && failures == 0 && lastTry == None
    {
      this.version, this.interval, failures, lastTry := version, interval, 0, None;
    }

    /** `reply` is the hub's interval in seconds and update field, `None` for a failed push; times are
        in nanoseconds. `attempt` tells the caller to run selfUpdate and, if it succeeds, to exit. */
    method Tick(reply: Option<(int, string)>, now: int) returns (attempt: Option<string>, logged: bool)
      modifies this
      ensures reply.None? ==>
                attempt == None && failures == old(failures) + 1 &&
                interval == old(interval) && lastTry == old(lastTry) &&
                (logged <==> failures == 1 || failures % 30 == 0)
      ensures reply.Some? ==>
                var want := reply.value.0 * 1_000_000_000;
                var due := old(lastTry).None? || now - old(lastTry).value > 300_000_000_000;
                && failures == 0 && (logged <==> old(failures) > 0)
                && interval == (if want > 0 then want else old(interval))
                && (attempt.Some? <==> reply.value.1 != "" && reply.value.1 != version && due)
                && (attempt.Some? ==> attempt.value == reply.value.1 && lastTry == Some(now))
                && (attempt.None? ==> lastTry == old(lastTry))
    {
      attempt, logged := None, false;
      if reply.None? {
        failures := failures + 1;
        logged := failures == 1 || failures % 30 == 0;
        return;
      }
      if failures > 0 {
        logged := true;
        failures := 0;
      }
      var want := reply.value.0 * 1_000_000_000;
      if want > 0 && want != interval {
        interval := want;
      }
      var update := reply.value.1;
      if update != "" && update != version && (lastTry.None? || now - lastTry.value > RETRY_AFTER) {
        lastTry := Some(now);
        attempt := Some(update);
      }
    }
  }
}
