/** Paid runs as they happen: any number of runs over one directory, overlapping and started again,
    while files are overwritten at will, each run checking marker and digest before every launch. */
module Runs {
  import opened Wrappers
  import opened JsonTree
  import opened Store
  import opened Freeze
  import opened Prepared
  import Counting
  import OnePost

  // ---------- state ----------

  /** What a run verified: the directory at that moment, and the digest table it took from it. */
  datatype Verified = Verified(files: Files, table: map<string, Json>)

  /** Where a run is: selected, about to look at the next slot, past the marker check, waiting for the
      process it launched, or over. */
  datatype Phase = Selected | Ready | Cleared | Waiting(pid: nat) | Halted

  datatype Runner = Runner(order: seq<(string, Arm)>, next: nat, verified: Option<Verified>, phase: Phase)

  /** On whose behalf a process was launched. */
  datatype Origin = Origin(run: nat, slot: (string, Arm))

  datatype World = World(files: Files, core: OnePost.State, runs: map<nat, Runner>,
                         origins: map<nat, Origin>, launches: seq<Origin>)

  datatype Step =
    | Overwrite(path: FilePath, data: Option<Bytes>)
    | Select(run: nat, cases: seq<string>, arms: seq<Arm>)
    | Verify(run: nat)
    | Look(run: nat)
    | Launch(run: nat, pid: nat)
    | Proceed(run: nat, inconclusive: bool)
    | Abort(run: nat)
    | Protocol(step: OnePost.Step)

  function Opening(files: Files): World {
    World(files, OnePost.INITIAL, map[], map[], [])
  }

  function Started(w: World, slot: (string, Arm)): bool {
    OnePost.EvidenceOf(w.core, TargetOf(slot.0, slot.1)).started.Some?
  }

  /** The bytes of the prepared payload at this moment. */
  function PayloadBytes(files: Files, slot: (string, Arm)): Option<Bytes> {
    var path := PreparedCase(slot.0, ArmName(slot.1) + ".json");
    if path in files then Some(files[path]) else None
  }

  /** The payload, if it can be read now and still has the verified digest. */
  function VettedPayload(codec: Codec, files: Files, table: map<string, Json>, slot: (string, Arm)): Option<Json> {
    match PayloadBytes(files, slot)
    case None => None
    case Some(data) =>
      match codec.parse(data)
      case None => None
      case Some(payload) => if Vetted(codec, table, slot.0, slot.1, payload) then Some(payload) else None
  }

  function Put(w: World, run: nat, r: Runner): World {
    w.(runs := w.runs[run := r])
  }

  /** One atomic action; an action that is not possible changes nothing. */
  ghost function Next(codec: Codec, w: World, step: Step): World {
    match step
    case Overwrite(path, data) =>
      w.(files := if data.Some? then w.files[path := data.value] else w.files - {path})
    case Select(run, cases, arms) =>
      if run in w.runs || !Intact(codec, w.files) || Selection(codec, w.files).None?
         || !Selectable(Selection(codec, w.files).value, cases, arms)
      then w
      else Put(w, run, Runner(Order(cases, arms), 0, None, Selected))
    case Protocol(s) => if s.Launch? then w else w.(core := OnePost.Next(codec, w.core, s))
    case _ =>
      if step.run !in w.runs then w else Advance(codec, w, step, w.runs[step.run])
  }

  /** The actions of a run under way. */
  ghost function Advance(codec: Codec, w: World, step: Step, r: Runner): World
    requires step.Verify? || step.Look? || step.Launch? || step.Proceed? || step.Abort?
  {
    match step
    case Verify(run) =>
      if r.phase != Selected then w
      else
        (match ReadDoc(codec, w.files, PreparedFile)
         case None => Put(w, run, r.(phase := Halted))
         case Some(record) =>
           if !PreparedOk(codec, w.files, record) then Put(w, run, r.(phase := Halted))
           else Put(w, run, r.(verified := Some(Verified(w.files, CaseTable(record).value)), phase := Ready)))
    case Look(run) =>
      if r.phase != Ready || r.next >= |r.order| then w
      else Put(w, run, r.(phase := if Started(w, r.order[r.next]) then Halted else Cleared))
    case Launch(run, pid) =>
      if r.phase != Cleared || r.next >= |r.order| || r.verified.None? || pid in w.core.processes then w
      else
        var slot := r.order[r.next];
        (match VettedPayload(codec, w.files, r.verified.value.table, slot)
         case None => Put(w, run, r.(phase := Halted))
         case Some(payload) =>
           World(w.files, OnePost.Next(codec, w.core, OnePost.Launch(pid, TargetOf(slot.0, slot.1), payload)),
                 w.runs[run := r.(next := r.next + 1, phase := Waiting(pid))],
                 w.origins[pid := Origin(run, slot)], w.launches + [Origin(run, slot)]))
    case Proceed(run, inconclusive) =>
      if !r.phase.Waiting? || r.phase.pid !in w.core.processes
         || w.core.processes[r.phase.pid].stage != OnePost.Finished
      then w
      else Put(w, run, r.(phase := if inconclusive then Halted else Ready))
    case Abort(run) => Put(w, run, r.(phase := Halted))
  }

  ghost function Exec(codec: Codec, w: World, steps: seq<Step>): World {
    if steps == [] then w
    else Next(codec, Exec(codec, w, steps[..|steps| - 1]), steps[|steps| - 1])
  }

  // ---------- invariant ----------

  /** The slots a run has launched, in order. */
  function LaunchedBy(launches: seq<Origin>, run: nat): seq<(string, Arm)> {
    if launches == [] then []
    else
      var last := launches[|launches| - 1];
      LaunchedBy(launches[..|launches| - 1], run) + if last.run == run then [last.slot] else []
  }

  ghost predicate VerifiedOk(codec: Codec, v: Verified) {
    && ReadDoc(codec, v.files, PreparedFile).Some?
    && PreparedOk(codec, v.files, ReadDoc(codec, v.files, PreparedFile).value)
    && CaseTable(ReadDoc(codec, v.files, PreparedFile).value) == Some(v.table)
  }

  /** What is known of a run that has launched these slots. */
  ghost predicate RunnerOk(codec: Codec, r: Runner, launched: seq<(string, Arm)>) {
    && r.next <= |r.order| && Counting.NoRepeats(r.order) && launched == r.order[..r.next]
    && (r.phase == Selected ==> r.verified.None?)
    && (r.phase == Ready || r.phase == Cleared || r.phase.Waiting? ==> r.verified.Some?)
    && (r.verified.Some? ==> VerifiedOk(codec, r.verified.value))
  }

  ghost predicate RunOk(codec: Codec, w: World, run: nat)
    requires run in w.runs
  {
    RunnerOk(codec, w.runs[run], LaunchedBy(w.launches, run))
  }

  /** A process works for a slot of a run, with a payload that run had vetted. */
  ghost predicate OriginOk(codec: Codec, w: World, pid: nat)
    requires pid in w.core.processes
  {
    && pid in w.origins && w.origins[pid].run in w.runs
    && var r, slot, p := w.runs[w.origins[pid].run], w.origins[pid].slot, w.core.processes[pid];
       && r.verified.Some? && p.target == TargetOf(slot.0, slot.1)
       && Vetted(codec, r.verified.value.table, slot.0, slot.1, p.payload)
  }

  ghost predicate Inv(codec: Codec, w: World) {
    && OnePost.Inv(codec, w.core)
    && (forall run | run in w.runs :: RunOk(codec, w, run))
    && (forall pid | pid in w.core.processes :: OriginOk(codec, w, pid))
    && (forall i | 0 <= i < |w.launches| :: w.launches[i].run in w.runs)
  }

  lemma CoreKept(codec: Codec, w: World, step: Step)
    requires Inv(codec, w)
    ensures OnePost.Inv(codec, Next(codec, w, step).core)
  {
    var w' := Next(codec, w, step);
    if w'.core != w.core {
      if step.Protocol? {
        OnePost.NextKeepsInv(codec, w.core, step.step);
      } else {
        var r := w.runs[step.run];
        var slot := r.order[r.next];
        var payload := VettedPayload(codec, w.files, r.verified.value.table, slot).value;
        OnePost.NextKeepsInv(codec, w.core, OnePost.Launch(step.pid, TargetOf(slot.0, slot.1), payload));
      }
    }
  }

  /** The action is one of this run under way. */
  predicate Acts(step: Step, run: nat) {
    (step.Verify? || step.Look? || step.Launch? || step.Proceed? || step.Abort?) && step.run == run
  }

  lemma LaunchedGrows(launches: seq<Origin>, o: Origin, run: nat)
    ensures LaunchedBy(launches + [o], run) ==
            LaunchedBy(launches, run) + if o.run == run then [o.slot] else []
  {
    assert (launches + [o])[..|launches|] == launches;
  }

  lemma {:induction false} NothingLaunched(launches: seq<Origin>, run: nat)
    requires forall i | 0 <= i < |launches| :: launches[i].run != run
    ensures LaunchedBy(launches, run) == []
  {
    if launches != [] {
      NothingLaunched(launches[..|launches| - 1], run);
    }
  }

  /** Every action is that of at most one run. */
  lemma RunsShape(codec: Codec, w: World, step: Step)
    ensures var w' := Next(codec, w, step);
            && (forall run | run in w.runs :: run in w'.runs)
            && (forall run | run in w.runs && !Acts(step, run) :: w'.runs[run] == w.runs[run])
  {
  }

  /** It logs at most one launch, of that run, and nobody loses the origin of a process. */
  lemma LaunchesShape(codec: Codec, w: World, step: Step)
    ensures var w' := Next(codec, w, step);
            && (w'.launches != w.launches ==>
                  && step.Launch? && step.run in w.runs && |w'.launches| == |w.launches| + 1
                  && w'.launches[..|w.launches|] == w.launches && w'.launches[|w.launches|].run == step.run)
            && (forall pid | pid in w.origins && pid in w.core.processes ::
                  pid in w'.origins && w'.origins[pid] == w.origins[pid])
  {
  }

  lemma StepShape(codec: Codec, w: World, step: Step)
    ensures var w' := Next(codec, w, step);
            && (forall run | run in w.runs :: run in w'.runs)
            && (forall run | run in w.runs && !Acts(step, run) :: w'.runs[run] == w.runs[run])
            && (w'.launches != w.launches ==>
                  && step.Launch? && step.run in w.runs && |w'.launches| == |w.launches| + 1
                  && w'.launches[..|w.launches|] == w.launches && w'.launches[|w.launches|].run == step.run)
            && (forall pid | pid in w.origins && pid in w.core.processes ::
                  pid in w'.origins && w'.origins[pid] == w.origins[pid])
  {
    RunsShape(codec, w, step);
    LaunchesShape(codec, w, step);
  }

  lemma OthersKept(codec: Codec, w: World, step: Step, run: nat)
    requires Inv(codec, w) && run in w.runs && !Acts(step, run)
    ensures run in Next(codec, w, step).runs && RunOk(codec, Next(codec, w, step), run)
  {
    var w' := Next(codec, w, step);
    StepShape(codec, w, step);
    if w'.launches != w.launches {
      var o := w'.launches[|w.launches|];
      assert w'.launches == w.launches + [o];
      LaunchedGrows(w.launches, o, run);
    }
  }

  lemma VerifyKept(codec: Codec, w: World, step: Step, run: nat)
    requires run in w.runs && step == Verify(run) && RunOk(codec, w, run)
    ensures RunOk(codec, Next(codec, w, step), run)
    ensures w.runs[run].verified.Some? ==> Next(codec, w, step) == w
  {
    var w', r := Next(codec, w, step), w.runs[run];
    if r.phase == Selected && w'.runs[run].phase == Ready {
      assert VerifiedOk(codec, w'.runs[run].verified.value);
    }
  }

  /** A launch goes through, takes the next slot and logs it, or it only ends the run. */
  lemma LaunchShape(codec: Codec, w: World, step: Step, run: nat)
    requires run in w.runs && step.Launch? && step.run == run
    ensures var w', r := Next(codec, w, step), w.runs[run];
            var r' := w'.runs[run];
            || (w'.launches == w.launches && (r' == r || r' == r.(phase := Halted)))
            || (r.next < |r.order| && r.verified.Some?
                && r' == r.(next := r.next + 1, phase := Waiting(step.pid))
                && w'.launches == w.launches + [Origin(run, r.order[r.next])])
  {
  }

  lemma LaunchKept(codec: Codec, w: World, step: Step, run: nat)
    requires run in w.runs && step.Launch? && step.run == run && RunOk(codec, w, run)
    ensures RunOk(codec, Next(codec, w, step), run)
    ensures Next(codec, w, step).runs[run].verified == w.runs[run].verified
  {
    var w' := Next(codec, w, step);
    LaunchShape(codec, w, step, run);
    LaunchedSlots(codec, w.runs[run], w'.runs[run], w.launches, w'.launches, run, step.pid);
  }

  lemma LaunchedSlots(codec: Codec, r: Runner, r': Runner, launches: seq<Origin>, launches': seq<Origin>,
                      run: nat, pid: nat)
    requires RunnerOk(codec, r, LaunchedBy(launches, run))
    requires || (launches' == launches && (r' == r || r' == r.(phase := Halted)))
             || (r.next < |r.order| && r.verified.Some?
                 && r' == r.(next := r.next + 1, phase := Waiting(pid))
                 && launches' == launches + [Origin(run, r.order[r.next])])
    ensures RunnerOk(codec, r', LaunchedBy(launches', run)) && r'.verified == r.verified
  {
    if launches' != launches {
      LaunchedGrows(launches, Origin(run, r.order[r.next]), run);
      SlotTaken(codec, r, LaunchedBy(launches, run), pid);
    }
  }

  lemma SlotTaken(codec: Codec, r: Runner, launched: seq<(string, Arm)>, pid: nat)
    requires RunnerOk(codec, r, launched) && r.next < |r.order| && r.verified.Some?
    ensures RunnerOk(codec, r.(next := r.next + 1, phase := Waiting(pid)), launched + [r.order[r.next]])
  {
  }

  /** The other actions of a run only change its phase, and only from and to a verified one or to the
      end. */
  lemma PhaseKept(codec: Codec, w: World, step: Step, run: nat)
    requires run in w.runs && Acts(step, run) && !step.Verify? && !step.Launch?
    requires RunOk(codec, w, run)
    ensures RunOk(codec, Next(codec, w, step), run)
    ensures Next(codec, w, step).runs[run].verified == w.runs[run].verified
  {
    var r, r' := w.runs[run], Next(codec, w, step).runs[run];
    assert r' == r.(phase := r'.phase);
  }

  lemma ActorKept(codec: Codec, w: World, step: Step, run: nat)
    requires run in w.runs && Acts(step, run) && RunOk(codec, w, run)
    ensures run in Next(codec, w, step).runs && RunOk(codec, Next(codec, w, step), run)
    ensures w.runs[run].verified.Some? ==>
              Next(codec, w, step).runs[run].verified == w.runs[run].verified
  {
    if step.Verify? {
      VerifyKept(codec, w, step, run);
    } else if step.Launch? {
      LaunchKept(codec, w, step, run);
    } else {
      PhaseKept(codec, w, step, run);
    }
  }

  lemma OpenedOk(codec: Codec, w: World, step: Step, run: nat)
    requires Inv(codec, w) && run !in w.runs && run in Next(codec, w, step).runs
    ensures RunOk(codec, Next(codec, w, step), run)
  {
    assert step.Select? && step.run == run;
    NothingLaunched(w.launches, run);
    OrderDistinct(step.cases, step.arms);
  }

  lemma RunsKept(codec: Codec, w: World, step: Step, run: nat)
    requires Inv(codec, w) && run in Next(codec, w, step).runs
    ensures RunOk(codec, Next(codec, w, step), run)
  {
    if run !in w.runs {
      OpenedOk(codec, w, step, run);
    } else if Acts(step, run) {
      ActorKept(codec, w, step, run);
    } else {
      OthersKept(codec, w, step, run);
    }
  }

  /** What a run verified stays what it verified. */
  lemma VerifiedKept(codec: Codec, w: World, step: Step, run: nat)
    requires run in w.runs && RunOk(codec, w, run) && w.runs[run].verified.Some?
    ensures run in Next(codec, w, step).runs
    ensures Next(codec, w, step).runs[run].verified == w.runs[run].verified
  {
    StepShape(codec, w, step);
    if Acts(step, run) {
      ActorKept(codec, w, step, run);
    }
  }

  /** A process that is there already keeps its target and payload. */
  lemma ProcessKept(codec: Codec, w: World, step: Step, pid: nat)
    requires pid in w.core.processes
    ensures var w' := Next(codec, w, step);
            && pid in w'.core.processes
            && w'.core.processes[pid].target == w.core.processes[pid].target
            && w'.core.processes[pid].payload == w.core.processes[pid].payload
  {
    if step.Protocol? && !step.step.Launch? && step.step.pid in w.core.processes {
      OnePost.StepShape(codec, w.core, step.step);
    }
  }

  /** A process that is new was launched by this action, with a payload vetted in it. */
  lemma ProcessLaunched(codec: Codec, w: World, step: Step, pid: nat)
    requires Inv(codec, w) && pid !in w.core.processes
    ensures pid in Next(codec, w, step).core.processes ==> OriginOk(codec, Next(codec, w, step), pid)
  {
    if pid in Next(codec, w, step).core.processes {
      OnlyLaunchAdds(codec, w, step, pid);
      LaunchVetted(codec, w, step.run, pid);
    }
  }

  lemma OnlyLaunchAdds(codec: Codec, w: World, step: Step, pid: nat)
    requires pid !in w.core.processes && pid in Next(codec, w, step).core.processes
    ensures step.Launch? && step.pid == pid && step.run in w.runs
  {
    if step.Protocol? && !step.step.Launch? && step.step.pid in w.core.processes {
      OnePost.ProcessShape(codec, w.core, step.step);
    }
  }

  lemma LaunchVetted(codec: Codec, w: World, run: nat, pid: nat)
    requires run in w.runs && pid !in w.core.processes
    ensures pid in Next(codec, w, Launch(run, pid)).core.processes ==>
              OriginOk(codec, Next(codec, w, Launch(run, pid)), pid)
  {
  }

  lemma OriginsKept(codec: Codec, w: World, step: Step, pid: nat)
    requires Inv(codec, w)
    ensures pid in Next(codec, w, step).core.processes ==> OriginOk(codec, Next(codec, w, step), pid)
  {
    if pid in w.core.processes {
      assert OriginOk(codec, w, pid);
      StepShape(codec, w, step);
      ProcessKept(codec, w, step, pid);
      VerifiedKept(codec, w, step, w.origins[pid].run);
    } else {
      ProcessLaunched(codec, w, step, pid);
    }
  }

  lemma NextKeepsInv(codec: Codec, w: World, step: Step)
    requires Inv(codec, w)
    ensures Inv(codec, Next(codec, w, step))
  {
    var w' := Next(codec, w, step);
    CoreKept(codec, w, step);
    LaunchesKnown(codec, w, step);
    forall run | run in w'.runs
      ensures RunOk(codec, w', run)
    {
      RunsKept(codec, w, step, run);
    }
    forall pid | pid in w'.core.processes
      ensures OriginOk(codec, w', pid)
    {
      OriginsKept(codec, w, step, pid);
    }
  }

  lemma LaunchesKnown(codec: Codec, w: World, step: Step)
    requires forall i | 0 <= i < |w.launches| :: w.launches[i].run in w.runs
    ensures var w' := Next(codec, w, step);
            forall i | 0 <= i < |w'.launches| :: w'.launches[i].run in w'.runs
  {
    var w' := Next(codec, w, step);
    StepShape(codec, w, step);
    forall i | 0 <= i < |w'.launches|
      ensures w'.launches[i].run in w'.runs
    {
      if i < |w.launches| && w'.launches != w.launches {
        assert w'.launches[..|w.launches|][i] == w.launches[i];
      }
    }
  }

  /** Over every interleaving of runs, processes and overwritten files, every process was launched for
      a slot of a run that had verified the directory, with a payload whose digest it had checked. */
  lemma {:induction false} ExecKeepsInv(codec: Codec, files: Files, steps: seq<Step>)
    ensures Inv(codec, Exec(codec, Opening(files), steps))
  {
    if steps != [] {
      ExecKeepsInv(codec, files, steps[..|steps| - 1]);
      NextKeepsInv(codec, Exec(codec, Opening(files), steps[..|steps| - 1]), steps[|steps| - 1]);
    }
  }

  // ---------- what every run guarantees ----------

  /** Each run launches a prefix of its selection, in order and without repetition. */
  lemma LaunchesInOrder(codec: Codec, files: Files, steps: seq<Step>, run: nat)
    ensures var w := Exec(codec, Opening(files), steps);
            run in w.runs ==>
              LaunchedBy(w.launches, run) <= w.runs[run].order && Counting.NoRepeats(w.runs[run].order)
  {
    ExecKeepsInv(codec, files, steps);
    var w := Exec(codec, Opening(files), steps);
    if run in w.runs {
      assert RunOk(codec, w, run);
    }
  }

  /** A POST to the frozen endpoint, whose body parses to a document that the state of the directory
      allows for the case and arm. */
  ghost predicate InScope(codec: Codec, files: Files, id: string, arm: Arm, r: OnePost.Request) {
    && r.verb == "POST" && r.url == OnePost.FROZEN_URL
    && codec.parse(r.body).Some? && WithinScope(codec, files, id, arm, codec.parse(r.body).value)
  }

  /** The transmission was made for a run, and is in the scope of what that run had verified. */
  ghost predicate Answered(codec: Codec, w: World, k: nat, id: string, arm: Arm)
    requires k < |w.core.history|
  {
    var ev := w.core.history[k];
    && ev.Sent? && ev.pid in w.origins && w.origins[ev.pid].slot == (id, arm)
    && w.origins[ev.pid].run in w.runs && w.runs[w.origins[ev.pid].run].verified.Some?
    && InScope(codec, w.runs[w.origins[ev.pid].run].verified.value.files, id, arm, ev.request)
  }

  lemma SendingVetted(codec: Codec, w: World, k: nat) returns (run: nat, id: string, arm: Arm, payload: Json)
    requires Inv(codec, w) && k < |w.core.history| && w.core.history[k].Sent?
    ensures var ev := w.core.history[k];
            && ev.pid in w.origins && w.origins[ev.pid] == Origin(run, (id, arm))
            && ev.target == TargetOf(id, arm) && OnePost.Frozen(codec, payload, ev.request)
            && run in w.runs && w.runs[run].verified.Some?
            && VerifiedOk(codec, w.runs[run].verified.value)
            && Vetted(codec, w.runs[run].verified.value.table, id, arm, payload)
  {
    OnePost.SentIsAccounted(codec, w.core, k);
    var pid := w.core.history[k].pid;
    assert OriginOk(codec, w, pid);
    run, id, arm := w.origins[pid].run, w.origins[pid].slot.0, w.origins[pid].slot.1;
    payload := w.core.processes[pid].payload;
    assert RunOk(codec, w, run);
  }

  /** Whatever is overwritten meanwhile, also the record itself: what goes out for a case and arm was
      launched by a run for that case and arm, and is in the scope of the state that run verified. */
  lemma SentWithinVerified(codec: Codec, files: Files, steps: seq<Step>, k: nat, id: string, arm: Arm)
    requires codec.Faithful()
    requires var h := Exec(codec, Opening(files), steps).core.history;
             k < |h| && h[k].Sent? && h[k].target == TargetOf(id, arm)
    ensures Answered(codec, Exec(codec, Opening(files), steps), k, id, arm)
  {
    var w := Exec(codec, Opening(files), steps);
    ExecKeepsInv(codec, files, steps);
    var run, id', arm', payload := SendingVetted(codec, w, k);
    TargetsDiffer(id, arm, id', arm');
    var v := w.runs[run].verified.value;
    VettedIsWithinScope(codec, v.files, ReadDoc(codec, v.files, PreparedFile).value, id, arm, payload);
  }

  /** A run that is over stays over and launches nothing more, whatever happens next. */
  lemma {:induction false} HaltedIsSilent(codec: Codec, w: World, steps: seq<Step>, run: nat)
    requires run in w.runs && w.runs[run].phase == Halted
    ensures var w' := Exec(codec, w, steps);
            && run in w'.runs && w'.runs[run].phase == Halted
            && LaunchedBy(w'.launches, run) == LaunchedBy(w.launches, run)
  {
    if steps != [] {
      HaltedIsSilent(codec, w, steps[..|steps| - 1], run);
      HaltedStays(codec, Exec(codec, w, steps[..|steps| - 1]), steps[|steps| - 1], run);
    }
  }

  lemma HaltedStays(codec: Codec, w: World, step: Step, run: nat)
    requires run in w.runs && w.runs[run].phase == Halted
    ensures var w' := Next(codec, w, step);
            && run in w'.runs && w'.runs[run].phase == Halted
            && LaunchedBy(w'.launches, run) == LaunchedBy(w.launches, run)
  {
    RunsShape(codec, w, step);
    LaunchesShape(codec, w, step);
    var w' := Next(codec, w, step);
    if w'.launches != w.launches {
      var o := w'.launches[|w.launches|];
      assert w'.launches == w.launches + [o];
      LaunchedGrows(w.launches, o, run);
    }
  }

  /** An inconclusive answer ends the run for good: it launches nothing after it. */
  lemma InconclusiveEndsRun(codec: Codec, w: World, run: nat, pid: nat, steps: seq<Step>)
    requires run in w.runs && w.runs[run].phase == Waiting(pid)
    requires pid in w.core.processes && w.core.processes[pid].stage == OnePost.Finished
    ensures var w' := Exec(codec, Next(codec, w, Proceed(run, true)), steps);
            && run in w'.runs && LaunchedBy(w'.launches, run) == LaunchedBy(w.launches, run)
  {
    HaltedIsSilent(codec, Next(codec, w, Proceed(run, true)), steps, run);
  }

  /** So does finding the next slot started: nothing is launched for it or for any later one. */
  lemma StartedEndsRun(codec: Codec, w: World, run: nat, steps: seq<Step>)
    requires run in w.runs && w.runs[run].phase == Ready && w.runs[run].next < |w.runs[run].order|
    requires var (id, arm) := w.runs[run].order[w.runs[run].next];
             OnePost.EvidenceOf(w.core, TargetOf(id, arm)).started.Some?
    ensures var w' := Exec(codec, Next(codec, w, Look(run)), steps);
            && run in w'.runs && LaunchedBy(w'.launches, run) == LaunchedBy(w.launches, run)
  {
    HaltedIsSilent(codec, Next(codec, w, Look(run)), steps, run);
  }

  // ---------- end to end ----------

  predicate KeepsRecord(step: Step) {
    !(step.Overwrite? && step.path == PreparedFile)
  }

  /** The preparation record is still the one of the start, here and in what every run verified. */
  ghost predicate Pinned(w: World, files: Files) {
    && PreparedFile in files && PreparedFile in w.files && w.files[PreparedFile] == files[PreparedFile]
    && forall run | run in w.runs && w.runs[run].verified.Some? ::
         var v := w.runs[run].verified.value;
         PreparedFile in v.files && v.files[PreparedFile] == files[PreparedFile]
  }

  lemma StepPinned(codec: Codec, w: World, step: Step, files: Files)
    requires Inv(codec, w) && Pinned(w, files) && KeepsRecord(step)
    ensures Pinned(Next(codec, w, step), files)
  {
    var w' := Next(codec, w, step);
    forall run | run in w'.runs && w'.runs[run].verified.Some?
      ensures var v := w'.runs[run].verified.value;
              PreparedFile in v.files && v.files[PreparedFile] == files[PreparedFile]
    {
      if run in w.runs && w.runs[run].verified.Some? {
        VerifiedKept(codec, w, step, run);
      } else {
        NewlyVerified(codec, w, step, run);
      }
    }
  }

  lemma NewlyVerified(codec: Codec, w: World, step: Step, run: nat)
    requires run in Next(codec, w, step).runs && Next(codec, w, step).runs[run].verified.Some?
    requires run in w.runs ==> w.runs[run].verified.None?
    ensures Next(codec, w, step).runs[run].verified.value.files == w.files == Next(codec, w, step).files
  {
  }

  lemma {:induction false} ExecPinned(codec: Codec, files: Files, steps: seq<Step>)
    requires PreparedFile in files && forall step | step in steps :: KeepsRecord(step)
    ensures Pinned(Exec(codec, Opening(files), steps), files)
  {
    if steps != [] {
      var front, step := steps[..|steps| - 1], steps[|steps| - 1];
      assert forall s | s in front :: s in steps;
      assert step in steps;
      ExecPinned(codec, files, front);
      ExecKeepsInv(codec, files, front);
      StepPinned(codec, Exec(codec, Opening(files), front), step, files);
    }
  }

  /** The protocols together.  Start from a directory that verifies and let any number of runs overlap,
      crash and start again, while every file but the preparation record may be overwritten at any
      moment: each case and arm is sent for at most once, and what is sent for it is the frozen request
      of the start, or differs from it only where the whitelist of the start allows. */
  lemma EndToEnd(codec: Codec, files: Files, steps: seq<Step>)
    requires codec.Faithful() && ReadDoc(codec, files, PreparedFile).Some?
    requires PreparedOk(codec, files, ReadDoc(codec, files, PreparedFile).value)
    requires forall step | step in steps :: KeepsRecord(step)
    ensures var h := Exec(codec, Opening(files), steps).core.history;
            && (forall id, arm :: OnePost.SentFor(h, TargetOf(id, arm)) <= 1)
            && (forall id, arm, k | 0 <= k < |h| && h[k].Sent? && h[k].target == TargetOf(id, arm) ::
                  InScope(codec, files, id, arm, h[k].request))
  {
    var w := Exec(codec, Opening(files), steps);
    ExecKeepsInv(codec, files, steps);
    ExecPinned(codec, files, steps);
    forall id, arm
      ensures OnePost.SentFor(w.core.history, TargetOf(id, arm)) <= 1
    {
      OnePost.SentForBounds(w.core.history, TargetOf(id, arm));
    }
    forall id, arm, k | 0 <= k < |w.core.history| && w.core.history[k].Sent?
                        && w.core.history[k].target == TargetOf(id, arm)
      ensures InScope(codec, files, id, arm, w.core.history[k].request)
    {
      var run, id', arm', payload := SendingVetted(codec, w, k);
      TargetsDiffer(id, arm, id', arm');
      VettedIsWithinScope(codec, files, ReadDoc(codec, files, PreparedFile).value, id, arm, payload);
    }
  }

  /** Looking and launching without interruption is one attempt of the sequential pool: a process is
      launched exactly for what is sendable at that moment, with the payload that is sendable. */
  lemma UninterruptedAttempt(codec: Codec, w: World, run: nat, pid: nat, inconclusive: bool)
    requires run in w.runs && w.runs[run].phase == Ready && w.runs[run].verified.Some?
    requires w.runs[run].next < |w.runs[run].order| && pid !in w.core.processes
    ensures var r := w.runs[run];
            var slot := r.order[r.next];
            var m := Moment(Started(w, slot), PayloadBytes(w.files, slot), inconclusive);
            var w' := Next(codec, Next(codec, w, Look(run)), Launch(run, pid));
            && (Sendable(codec, r.verified.value.table, slot.0, slot.1, m) <==> pid in w'.core.processes)
            && (pid in w'.core.processes ==>
                  && w'.core.processes[pid].target == TargetOf(slot.0, slot.1)
                  && Some(w'.core.processes[pid].payload) == codec.parse(m.file.value)
                  && w'.runs[run].phase == Waiting(pid))
            && (pid !in w'.core.processes ==> w'.core == w.core && w'.runs[run].phase == Halted)
  {
    var r, w1 := w.runs[run], Next(codec, w, Look(run));
    var slot := r.order[r.next];
    assert w1 == Put(w, run, r.(phase := if Started(w, slot) then Halted else Cleared));
  }
}
