/** The paid-request protocol: exclusive start markers, a transport gate that lets one POST
    through, and write-once evidence, run by any number of processes that interleave, crash and are
    started again. */
module OnePost {
  import opened Wrappers
  import opened JsonTree
  import opened Store

  // ---------- the transport gate ----------

  /** `ENDPOINT + "/chat/completions"` */
  const FROZEN_URL := "https://api.commandcode.ai/provider/v1/chat/completions"

  /** An outgoing HTTP request. */
  datatype Request = Request(verb: string, url: string, body: Bytes)

  const NO_REQUEST := Request("", "", [])

  /** What the gate lets through: the first POST, to the frozen endpoint, whose body parses to the
      prepared payload. */
  predicate Admits(codec: Codec, payload: Json, posts: nat, r: Request) {
    posts == 0 && r.verb == "POST" && r.url == FROZEN_URL && codec.parse(r.body) == Some(payload)
  }

  // ---------- one result directory ----------

  /** The evidence files of one case and arm.  `started` also names the process that created it. */
  datatype Evidence = Evidence(started: Option<nat>, transport: Option<Bytes>, wire: Option<Bytes>,
                               posts: Option<nat>)

  const UNTOUCHED := Evidence(None, None, None, None)

  /** `write_once` on one file: None where it refuses to replace. */
  function Once<T(==)>(file: Option<T>, data: T): Option<T> {
    if file.None? || file == Some(data) then Some(data) else None
  }

  // ---------- processes ----------

  /** Where a process is in `complete`: before the marker, running with an open client, or inside
      the gate between counting the post, writing the two records and sending. */
  datatype Stage = Created | Running | Admitted | Recorded | Wired | Finished | Dead

  predicate Inside(stage: Stage) {
    stage == Admitted || stage == Recorded || stage == Wired
  }

  datatype Process = Process(target: string, payload: Json, stage: Stage, posts: nat, request: Request)

  datatype Event =
    | MarkerCreated(target: string, pid: nat)
    | TransportWritten(target: string, pid: nat)
    | Sent(target: string, pid: nat, request: Request)

  datatype State = State(files: map<string, Evidence>, processes: map<nat, Process>,
                         history: seq<Event>)

  const INITIAL := State(map[], map[], [])

  datatype Step =
    | Launch(pid: nat, target: string, payload: Json)
    | Start(pid: nat)
    | Handle(pid: nat, request: Request)
    | RecordTransport(pid: nat, data: Bytes)
    | RecordWire(pid: nat)
    | Transmit(pid: nat)
    | Fail(pid: nat)
    | Finish(pid: nat)
    | Crash(pid: nat)

  function EvidenceOf(s: State, target: string): Evidence {
    if target in s.files then s.files[target] else UNTOUCHED
  }

  function Put(s: State, p: Process, e: Evidence, pid: nat, log: seq<Event>): State {
    State(s.files[p.target := e], s.processes[pid := p], s.history + log)
  }

  /** One atomic action of one process; an action that is not possible changes nothing. */
  function Next(codec: Codec, s: State, step: Step): State {
    if step.Launch? then
      if step.pid in s.processes then s
      else s.(processes := s.processes[step.pid :=
                Process(step.target, step.payload, Created, 0, NO_REQUEST)])
    else if step.pid !in s.processes then s
    else
      var p := s.processes[step.pid];
      var e := EvidenceOf(s, p.target);
      match step
      case Start(pid) =>
        if p.stage != Created then s
        else if e.started.Some? then Put(s, p.(stage := Dead), e, pid, [])
        else Put(s, p.(stage := Running), e.(started := Some(pid)), pid, [MarkerCreated(p.target, pid)])
      case Handle(pid, r) =>
        if p.stage != Running || !Admits(codec, p.payload, p.posts, r) then s
        else Put(s, p.(stage := Admitted, posts := p.posts + 1, request := r), e, pid, [])
      case RecordTransport(pid, data) =>
        if p.stage != Admitted then s
        else
          (match Once(e.transport, data)
           case None => Put(s, p.(stage := Running), e, pid, [])
           case Some(_) => Put(s, p.(stage := Recorded), e.(transport := Some(data)), pid,
                               [TransportWritten(p.target, pid)]))
      case RecordWire(pid) =>
        if p.stage != Recorded then s
        else Put(s, p.(stage := Wired), e.(wire := Some(p.request.body)), pid, [])
      case Transmit(pid) =>
        if p.stage != Wired then s
        else Put(s, p.(stage := Running), e, pid, [Sent(p.target, pid, p.request)])
      case Fail(pid) =>
        if !Inside(p.stage) then s else Put(s, p.(stage := Running), e, pid, [])
      case Finish(pid) =>
        if p.stage != Running then s
        else
          (match Once(e.posts, p.posts)
           case None => Put(s, p.(stage := Dead), e, pid, [])
           case Some(_) => Put(s, p.(stage := Finished), e.(posts := Some(p.posts)), pid, []))
      case Crash(pid) => Put(s, p.(stage := Dead), e, pid, [])
  }

  function Exec(codec: Codec, s: State, steps: seq<Step>): State {
    if steps == [] then s
    else Next(codec, Exec(codec, s, steps[..|steps| - 1]), steps[|steps| - 1])
  }

  // ---------- the invariant ----------

  /** The event happened before position `k` of the history. */
  ghost predicate Before(s: State, k: nat, ev: Event)
    requires k <= |s.history|
  {
    exists i | 0 <= i < k :: s.history[i] == ev
  }

  /** A POST of the payload to the frozen endpoint. */
  ghost predicate Frozen(codec: Codec, payload: Json, r: Request) {
    r.verb == "POST" && r.url == FROZEN_URL && codec.parse(r.body) == Some(payload)
  }

  /** What is known of every process. */
  ghost predicate ProcessOk(codec: Codec, s: State, pid: nat)
    requires pid in s.processes
  {
    var p := s.processes[pid];
    var e := EvidenceOf(s, p.target);
    && (p.stage == Running || p.stage == Finished || Inside(p.stage) ==>
          e.started == Some(pid) && Before(s, |s.history|, MarkerCreated(p.target, pid)))
    && (p.stage == Created ==> p.posts == 0)
    && p.posts <= 1
    && (Inside(p.stage) ==> p.posts == 1 && Frozen(codec, p.payload, p.request))
    && (p.stage == Recorded || p.stage == Wired ==>
          e.transport.Some? && Before(s, |s.history|, TransportWritten(p.target, pid)))
    && (p.stage == Wired ==> e.wire == Some(p.request.body))
  }

  /** What is known of every event: who did it, what the files say, and what came before. */
  ghost predicate EventOk(codec: Codec, s: State, k: nat)
    requires k < |s.history|
  {
    var ev := s.history[k];
    && ev.pid in s.processes && s.processes[ev.pid].target == ev.target
    && EvidenceOf(s, ev.target).started == Some(ev.pid)
    && (ev.TransportWritten? ==> Before(s, k, MarkerCreated(ev.target, ev.pid)))
    && (ev.Sent? ==>
          && s.processes[ev.pid].posts == 1 && !Inside(s.processes[ev.pid].stage)
          && Frozen(codec, s.processes[ev.pid].payload, ev.request)
          && EvidenceOf(s, ev.target).transport.Some?
          && EvidenceOf(s, ev.target).wire == Some(ev.request.body)
          && Before(s, k, TransportWritten(ev.target, ev.pid)))
  }

  /** `output.json` was written by the owner of the directory, with its own counter. */
  ghost predicate CountOk(s: State, target: string) {
    var e := EvidenceOf(s, target);
    e.posts.Some? ==>
      && e.started.Some? && e.started.value in s.processes
      && var p := s.processes[e.started.value];
         p.target == target && p.posts == e.posts.value && (p.stage == Finished || p.stage == Dead)
  }

  ghost predicate Inv(codec: Codec, s: State) {
    && (forall pid | pid in s.processes :: ProcessOk(codec, s, pid))
    && (forall k | 0 <= k < |s.history| :: EventOk(codec, s, k))
    && (forall i, j | 0 <= i < j < |s.history| && s.history[i].Sent? && s.history[j].Sent? ::
          s.history[i].target != s.history[j].target)
    && (forall i, j | 0 <= i < j < |s.history| && s.history[i].MarkerCreated?
          && s.history[j].MarkerCreated? :: s.history[i].target != s.history[j].target)
    && (forall t | t in s.files :: CountOk(s, t))
  }

  lemma ProcessShape(codec: Codec, s: State, step: Step)
    requires !step.Launch? && step.pid in s.processes
    ensures var s' := Next(codec, s, step);
            && s'.processes.Keys == s.processes.Keys
            && (forall pid | pid in s.processes && pid != step.pid ::
                  s'.processes[pid] == s.processes[pid])
            && s'.processes[step.pid].target == s.processes[step.pid].target
            && s'.processes[step.pid].payload == s.processes[step.pid].payload
            && s.history <= s'.history && |s'.history| <= |s.history| + 1
  {
  }

  lemma EvidenceShape(codec: Codec, s: State, step: Step)
    requires !step.Launch? && step.pid in s.processes
    ensures var s', t := Next(codec, s, step), s.processes[step.pid].target;
            && (forall u | u != t :: EvidenceOf(s', u) == EvidenceOf(s, u))
            && (EvidenceOf(s, t).started.Some? ==>
                  EvidenceOf(s', t).started == EvidenceOf(s, t).started)
            && (EvidenceOf(s, t).transport.Some? ==>
                  EvidenceOf(s', t).transport == EvidenceOf(s, t).transport)
  {
  }

  /** One action moves one process and its directory, and logs at most one event. */
  lemma StepShape(codec: Codec, s: State, step: Step)
    requires !step.Launch? && step.pid in s.processes
    ensures var s', t := Next(codec, s, step), s.processes[step.pid].target;
            && s'.processes.Keys == s.processes.Keys
            && (forall pid | pid in s.processes && pid != step.pid ::
                  s'.processes[pid] == s.processes[pid])
            && s'.processes[step.pid].target == t
            && s'.processes[step.pid].payload == s.processes[step.pid].payload
            && (forall u | u != t :: EvidenceOf(s', u) == EvidenceOf(s, u))
            && s.history <= s'.history && |s'.history| <= |s.history| + 1
            && (EvidenceOf(s, t).started.Some? ==>
                  EvidenceOf(s', t).started == EvidenceOf(s, t).started)
            && (EvidenceOf(s, t).transport.Some? ==>
                  EvidenceOf(s', t).transport == EvidenceOf(s, t).transport)
  {
    ProcessShape(codec, s, step);
    EvidenceShape(codec, s, step);
  }

  lemma ActorKept(codec: Codec, s: State, step: Step)
    requires Inv(codec, s) && !step.Launch? && step.pid in s.processes
    ensures step.pid in Next(codec, s, step).processes
    ensures ProcessOk(codec, Next(codec, s, step), step.pid)
  {
    StepShape(codec, s, step);
    var s' := Next(codec, s, step);
    assert ProcessOk(codec, s, step.pid);
    BeforeKept(s, s', |s.history|);
    if |s'.history| > |s.history| {
      assert Before(s', |s'.history|, s'.history[|s.history|]);
    }
  }

  lemma OthersKept(codec: Codec, s: State, step: Step, pid: nat)
    requires Inv(codec, s) && !step.Launch? && step.pid in s.processes
    requires pid in s.processes && pid != step.pid
    ensures pid in Next(codec, s, step).processes
    ensures ProcessOk(codec, Next(codec, s, step), pid)
  {
    StepShape(codec, s, step);
    assert ProcessOk(codec, s, pid) && ProcessOk(codec, s, step.pid);
    BeforeKept(s, Next(codec, s, step), |s.history|);
  }

  /** What was known of an event is still known after the action. */
  lemma OldEventKept(codec: Codec, s: State, step: Step, k: nat)
    requires Inv(codec, s) && !step.Launch? && step.pid in s.processes && k < |s.history|
    ensures |s.history| <= |Next(codec, s, step).history|
    ensures EventOk(codec, Next(codec, s, step), k)
  {
    StepShape(codec, s, step);
    assert EventOk(codec, s, k) && ProcessOk(codec, s, step.pid);
    BeforeKept(s, Next(codec, s, step), k);
  }

  lemma NewEventOk(codec: Codec, s: State, step: Step)
    requires Inv(codec, s) && !step.Launch? && step.pid in s.processes
    requires |Next(codec, s, step).history| == |s.history| + 1
    ensures EventOk(codec, Next(codec, s, step), |s.history|)
  {
    StepShape(codec, s, step);
    assert ProcessOk(codec, s, step.pid);
    BeforeKept(s, Next(codec, s, step), |s.history|);
  }

  lemma EventsKept(codec: Codec, s: State, step: Step)
    requires Inv(codec, s) && !step.Launch? && step.pid in s.processes
    ensures var s' := Next(codec, s, step);
            forall k | 0 <= k < |s'.history| :: EventOk(codec, s', k)
  {
    StepShape(codec, s, step);
    var s' := Next(codec, s, step);
    forall k | 0 <= k < |s'.history|
      ensures EventOk(codec, s', k)
    {
      if k < |s.history| {
        OldEventKept(codec, s, step, k);
      } else {
        NewEventOk(codec, s, step);
      }
    }
  }

  lemma MarkersKept(codec: Codec, s: State, step: Step)
    requires Inv(codec, s) && !step.Launch? && step.pid in s.processes
    ensures var s' := Next(codec, s, step);
            forall i, j | 0 <= i < j < |s'.history| && s'.history[i].MarkerCreated?
              && s'.history[j].MarkerCreated? :: s'.history[i].target != s'.history[j].target
  {
    StepShape(codec, s, step);
    var s' := Next(codec, s, step);
    forall i, j | 0 <= i < j < |s'.history| && s'.history[i].MarkerCreated? && s'.history[j].MarkerCreated?
      ensures s'.history[i].target != s'.history[j].target
    {
      assert EventOk(codec, s, i);
    }
  }

  /** A process that sends has not sent before, and nobody else has sent for its directory. */
  lemma SendsKept(codec: Codec, s: State, step: Step)
    requires Inv(codec, s) && !step.Launch? && step.pid in s.processes
    ensures var s' := Next(codec, s, step);
            forall i, j | 0 <= i < j < |s'.history| && s'.history[i].Sent? && s'.history[j].Sent? ::
              s'.history[i].target != s'.history[j].target
  {
    StepShape(codec, s, step);
    var s' := Next(codec, s, step);
    assert ProcessOk(codec, s, step.pid);
    forall i, j | 0 <= i < j < |s'.history| && s'.history[i].Sent? && s'.history[j].Sent?
      ensures s'.history[i].target != s'.history[j].target
    {
      assert EventOk(codec, s, i);
    }
  }

  lemma CountsKept(codec: Codec, s: State, step: Step)
    requires Inv(codec, s) && !step.Launch? && step.pid in s.processes
    ensures var s' := Next(codec, s, step);
            forall t | t in s'.files :: CountOk(s', t)
  {
    StepShape(codec, s, step);
    var s' := Next(codec, s, step);
    assert ProcessOk(codec, s, step.pid);
    forall t | t in s'.files
      ensures CountOk(s', t)
    {
      assert t in s.files ==> CountOk(s, t);
      assert EvidenceOf(s, t).posts.Some? ==> t in s.files;
    }
  }

  lemma NextKeepsInv(codec: Codec, s: State, step: Step)
    requires Inv(codec, s)
    ensures Inv(codec, Next(codec, s, step))
  {
    if !step.Launch? && step.pid in s.processes {
      StepShape(codec, s, step);
      forall pid | pid in s.processes
        ensures ProcessOk(codec, Next(codec, s, step), pid)
      {
        if pid == step.pid { ActorKept(codec, s, step); } else { OthersKept(codec, s, step, pid); }
      }
      EventsKept(codec, s, step);
      MarkersKept(codec, s, step);
      SendsKept(codec, s, step);
      CountsKept(codec, s, step);
    } else if step.Launch? && step.pid !in s.processes {
      LaunchKeepsInv(codec, s, step);
    }
  }

  lemma LaunchKeepsInv(codec: Codec, s: State, step: Step)
    requires Inv(codec, s) && step.Launch? && step.pid !in s.processes
    ensures Inv(codec, Next(codec, s, step))
  {
    var s' := Next(codec, s, step);
    forall pid | pid in s'.processes
      ensures ProcessOk(codec, s', pid)
    {
      if pid != step.pid {
        assert ProcessOk(codec, s, pid);
        BeforeKept(s, s', |s.history|);
      }
    }
    forall k | 0 <= k < |s'.history|
      ensures EventOk(codec, s', k)
    {
      assert EventOk(codec, s, k);
      BeforeKept(s, s', k);
    }
    forall t | t in s'.files
      ensures CountOk(s', t)
    {
      assert CountOk(s, t);
    }
  }

  /** The invariant holds over every interleaving of any number of processes, with crashes and
      restarts anywhere. */
  lemma {:induction false} ExecKeepsInv(codec: Codec, s: State, steps: seq<Step>)
    requires Inv(codec, s)
    ensures Inv(codec, Exec(codec, s, steps))
  {
    if steps != [] {
      ExecKeepsInv(codec, s, steps[..|steps| - 1]);
      NextKeepsInv(codec, Exec(codec, s, steps[..|steps| - 1]), steps[|steps| - 1]);
    }
  }

  lemma BeforeKept(s: State, s': State, k: nat)
    requires s.history <= s'.history && k <= |s.history|
    ensures forall ev :: Before(s, k, ev) ==> Before(s', k, ev) && Before(s', |s'.history|, ev)
  {
  }

  // ---------- what every run guarantees ----------

  /** How many requests went out for one directory. */
  function SentFor(history: seq<Event>, target: string): nat {
    if history == [] then 0
    else
      var last := history[|history| - 1];
      SentFor(history[..|history| - 1], target) +
      if last.Sent? && last.target == target then 1 else 0
  }

  lemma {:induction false} SentForBounds(history: seq<Event>, target: string)
    requires forall i, j | 0 <= i < j < |history| && history[i].Sent? && history[j].Sent? ::
               history[i].target != history[j].target
    ensures SentFor(history, target) <= 1
    ensures SentFor(history, target) == 1 <==>
            exists k :: 0 <= k < |history| && history[k].Sent? && history[k].target == target
  {
    if history != [] {
      var front := history[..|history| - 1];
      SentForBounds(front, target);
      assert forall k | 0 <= k < |front| :: front[k] == history[k];
    }
  }

  /** What is known of a transmission: who made it, of what, and what was written before it. */
  ghost predicate Accounted(codec: Codec, s: State, k: nat)
    requires k < |s.history|
  {
    var ev := s.history[k];
    && ev.Sent? && ev.pid in s.processes && s.processes[ev.pid].target == ev.target
    && ev.request.verb == "POST" && ev.request.url == FROZEN_URL
    && codec.parse(ev.request.body) == Some(s.processes[ev.pid].payload)
    && EvidenceOf(s, ev.target).wire == Some(ev.request.body)
    && exists i, j | 0 <= i < j < k ::
         && s.history[i] == MarkerCreated(ev.target, ev.pid)
         && s.history[j] == TransportWritten(ev.target, ev.pid)
  }

  lemma SentIsAccounted(codec: Codec, s: State, k: nat)
    requires Inv(codec, s) && k < |s.history| && s.history[k].Sent?
    ensures Accounted(codec, s, k)
  {
    assert EventOk(codec, s, k);
    var ev := s.history[k];
    var j :| 0 <= j < k && s.history[j] == TransportWritten(ev.target, ev.pid);
    assert EventOk(codec, s, j);
    var i :| 0 <= i < j && s.history[i] == MarkerCreated(ev.target, ev.pid);
  }

  /** At most one POST per directory, over every run; it is sent by the process that created the
      start marker, after that marker and the transport record were written, and its body is the
      payload that process was given. */
  lemma AtMostOnePost(codec: Codec, steps: seq<Step>)
    ensures var s := Exec(codec, INITIAL, steps);
            && (forall target :: SentFor(s.history, target) <= 1)
            && (forall i, j | 0 <= i < j < |s.history| && s.history[i].MarkerCreated?
                  && s.history[j].MarkerCreated? :: s.history[i].target != s.history[j].target)
            && (forall k | 0 <= k < |s.history| && s.history[k].Sent? :: Accounted(codec, s, k))
  {
    var s := Exec(codec, INITIAL, steps);
    ExecKeepsInv(codec, INITIAL, steps);
    forall target
      ensures SentFor(s.history, target) <= 1
    {
      SentForBounds(s.history, target);
    }
    forall k | 0 <= k < |s.history| && s.history[k].Sent?
      ensures Accounted(codec, s, k)
    {
      SentIsAccounted(codec, s, k);
    }
  }

  /** The recorded count never understates what was sent. */
  lemma RecordedPostsNeverUndercount(codec: Codec, steps: seq<Step>, target: string)
    ensures var s := Exec(codec, INITIAL, steps);
            EvidenceOf(s, target).posts.Some? ==>
              SentFor(s.history, target) <= EvidenceOf(s, target).posts.value
  {
    var s := Exec(codec, INITIAL, steps);
    ExecKeepsInv(codec, INITIAL, steps);
    SentForBounds(s.history, target);
    if EvidenceOf(s, target).posts.Some? {
      assert target in s.files && CountOk(s, target);
      if k :| 0 <= k < |s.history| && s.history[k].Sent? && s.history[k].target == target {
        assert EventOk(codec, s, k);
      }
    }
  }

  ghost predicate Abandoned(s: State, target: string) {
    match EvidenceOf(s, target).started
    case None => false
    case Some(pid) => pid in s.processes && s.processes[pid].stage == Dead
  }

  /** Only the transmission of a process past both records adds a Sent event, and only for its
      directory. */
  lemma OnlyTransmitSends(codec: Codec, s: State, step: Step, target: string)
    ensures var s' := Next(codec, s, step);
            SentFor(s'.history, target) == SentFor(s.history, target) ||
            (step.Transmit? && step.pid in s.processes
             && s.processes[step.pid].stage == Wired && s.processes[step.pid].target == target)
  {
    var s' := Next(codec, s, step);
    if s'.history != s.history {
      StepShape(codec, s, step);
      assert s'.history[..|s.history|] == s.history;
    }
  }

  lemma AbandonedStays(codec: Codec, s: State, step: Step, target: string)
    requires Inv(codec, s) && Abandoned(s, target)
    ensures Abandoned(Next(codec, s, step), target)
  {
    if !step.Launch? && step.pid in s.processes {
      StepShape(codec, s, step);
    }
  }

  lemma AbandonedIsSilent(codec: Codec, s: State, step: Step, target: string)
    requires Inv(codec, s) && Abandoned(s, target)
    ensures SentFor(Next(codec, s, step).history, target) == SentFor(s.history, target)
  {
    OnlyTransmitSends(codec, s, step, target);
    if step.Transmit? && step.pid in s.processes {
      assert ProcessOk(codec, s, step.pid);
    }
  }

  /** An attempt whose process died after creating the marker is never replayed: whatever runs
      later, nothing more is sent for that directory. */
  lemma {:induction false} AbandonedIsNeverReplayed(codec: Codec, s: State, steps: seq<Step>,
                                                    target: string)
    requires Inv(codec, s) && Abandoned(s, target)
    ensures Abandoned(Exec(codec, s, steps), target)
    ensures SentFor(Exec(codec, s, steps).history, target) == SentFor(s.history, target)
  {
    if steps != [] {
      var front, step := steps[..|steps| - 1], steps[|steps| - 1];
      AbandonedIsNeverReplayed(codec, s, front, target);
      ExecKeepsInv(codec, s, front);
      AbandonedStays(codec, Exec(codec, s, front), step, target);
      AbandonedIsSilent(codec, Exec(codec, s, front), step, target);
    }
  }

  // ---------- the gate as the client sees it ----------

  /** What one request through the gate leads to when nothing else happens in between. */
  datatype GateResult = GateResult(posts: nat, evidence: Evidence, sent: seq<Request>)

  function Gate(codec: Codec, payload: Json, posts: nat, e: Evidence, r: Request, data: Bytes)
    : GateResult
  {
    if !Admits(codec, payload, posts, r) then GateResult(posts, e, [])
    else if Once(e.transport, data).None? then GateResult(posts + 1, e, [])
    else GateResult(posts + 1, e.(transport := Some(data), wire := Some(r.body)), [r])
  }

  /** The gate's atomic actions, run without interruption, have exactly that outcome. */
  lemma UninterruptedGate(codec: Codec, s: State, pid: nat, r: Request, data: Bytes)
    requires pid in s.processes && s.processes[pid].stage == Running
    ensures var p := s.processes[pid];
            var g := Gate(codec, p.payload, p.posts, EvidenceOf(s, p.target), r, data);
            var s' := Next(codec, Next(codec, Next(codec, Next(codec, s, Handle(pid, r)),
                        RecordTransport(pid, data)), RecordWire(pid)), Transmit(pid));
            && pid in s'.processes && s'.processes[pid].stage == Running
            && s'.processes[pid].posts == g.posts
            && EvidenceOf(s', p.target) == g.evidence
            && s'.history == s.history + if g.sent == [] then []
                 else [TransportWritten(p.target, pid), Sent(p.target, pid, g.sent[0])]
  {
  }

  /** One result directory and what has been transmitted from it. */
  class ResultDirectory {
    var evidence: Evidence
    var sent: seq<Request>

    constructor ()
      ensures evidence == UNTOUCHED && sent == []
    {
      evidence, sent := UNTOUCHED, [];
    }
  }

  class OnePost {
    const codec: Codec
    const payload: Json
    const directory: ResultDirectory
    var posts: nat

    constructor (codec: Codec, payload: Json, directory: ResultDirectory)
      ensures this.codec == codec && this.payload == payload && this.directory == directory
      ensures posts == 0
    {
      this.codec, this.payload, this.directory := codec, payload, directory;
      posts := 0;
    }

    method HandleRequest(request: Request, data: Bytes) returns (ok: bool)
      modifies this`posts, directory
      ensures var g := Gate(codec, payload, old(posts), old(directory.evidence), request, data);
              && posts == g.posts && directory.evidence == g.evidence
              && directory.sent == old(directory.sent) + g.sent
              && ok == (g.sent != [])
      ensures old(posts) != 0 || request.verb != "POST" || request.url != FROZEN_URL
              || codec.parse(request.body) != Some(payload) ==>
                !ok && posts == old(posts) && directory.evidence == old(directory.evidence)
                && directory.sent == old(directory.sent)
      ensures old(posts) == 0 && request.verb == "POST" && request.url == FROZEN_URL
              && codec.parse(request.body) == Some(payload) ==>
                && posts == 1
                && (ok <==> old(directory.evidence).transport in {None, Some(data)})
                && directory.sent == old(directory.sent) + (if ok then [request] else [])
                && directory.evidence ==
                   if ok then old(directory.evidence).(transport := Some(data), wire := Some(request.body))
                   else old(directory.evidence)
    {
      if posts != 0 || request.verb != "POST" || request.url != FROZEN_URL {
        return false;
      }
      if codec.parse(request.body) != Some(payload) {
        return false;
      }
      posts := posts + 1;
      var saved := Once(directory.evidence.transport, data);
      if saved.None? {
        return false;
      }
      directory.evidence := directory.evidence.(transport := saved);
      directory.evidence := directory.evidence.(wire := Some(request.body));
      directory.sent := directory.sent + [request];
      return true;
    }
  }

  /** `complete`, with the requests the client happens to issue: whatever they are, a started
      directory is refused untouched, and a fresh one sees at most one transmission, of the
      prepared payload, counted in the output written at the end. */
  method Complete(codec: Codec, pid: nat, payload: Json, directory: ResultDirectory,
                  requests: seq<Request>, data: Bytes) returns (ok: bool)
    modifies directory
    ensures ok <==> old(directory.evidence).started.None?
    ensures !ok ==> directory.evidence == old(directory.evidence) && directory.sent == old(directory.sent)
    ensures ok ==> directory.evidence.started == Some(pid)
    ensures ok ==> directory.sent == old(directory.sent) ||
                   exists r :: directory.sent == old(directory.sent) + [r] && r in requests
                               && r.verb == "POST" && r.url == FROZEN_URL
                               && codec.parse(r.body) == Some(payload)
                               && directory.evidence.wire == Some(r.body)
    ensures ok && old(directory.evidence) == UNTOUCHED ==>
              directory.evidence.posts.Some? &&
              |directory.sent| <= |old(directory.sent)| + directory.evidence.posts.value <= |old(directory.sent)| + 1
    ensures ok && old(directory.evidence) == UNTOUCHED
            && (exists r | r in requests ::
                  r.verb == "POST" && r.url == FROZEN_URL && codec.parse(r.body) == Some(payload)) ==>
              |directory.sent| == |old(directory.sent)| + 1
  {
    if directory.evidence.started.Some? {
      return false;
    }
    directory.evidence := directory.evidence.(started := Some(pid));
    var gate := new OnePost(codec, payload, directory);
    ghost var before, initial := directory.sent, directory.evidence;
    for i := 0 to |requests|
      invariant gate.codec == codec && gate.payload == payload && gate.directory == directory
      invariant gate.posts <= 1
      invariant directory.evidence.started == Some(pid)
      invariant directory.evidence.posts == initial.posts
      invariant gate.posts == 0 ==> directory.sent == before && directory.evidence == initial
      invariant directory.sent == before ||
                (gate.posts == 1 &&
                 exists r :: directory.sent == before + [r] && r in requests && Frozen(codec, payload, r)
                             && directory.evidence.wire == Some(r.body))
      invariant gate.posts == 1 && initial.transport.None? ==> |directory.sent| == |before| + 1
      invariant gate.posts == 0 ==> forall j | 0 <= j < i :: !Frozen(codec, payload, requests[j])
    {
      ghost var sent := directory.sent;
      var _ := gate.HandleRequest(requests[i], data);
      if directory.sent != sent {
        assert directory.sent == before + [requests[i]];
      }
    }
    var output := Once(directory.evidence.posts, gate.posts);
    if output.Some? {
      directory.evidence := directory.evidence.(posts := output);
    }
    return true;
  }
}
