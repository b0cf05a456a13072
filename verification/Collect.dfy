/** The paid collection pool: sessions that each share one queue between two workers and a stop
    flag, started again at will over the same result directories. */
module Collect {
  import opened Wrappers
  import opened JsonTree
  import opened Store
  import opened OnePost
  import Counting

  datatype Row = Row(id: string, request: Json)

  /** `id.replace(':', '_')`: the directory name of a row. */
  function Target(id: string): string {
    if id == "" then "" else [if id[0] == ':' then '_' else id[0]] + Target(id[1..])
  }

  lemma {:induction false} TargetIs(id: string)
    ensures |Target(id)| == |id|
    ensures forall i | 0 <= i < |id| :: Target(id)[i] == if id[i] == ':' then '_' else id[i]
  {
    if id != "" {
      TargetIs(id[1..]);
    }
  }

  /** Two rows share a directory, so that at most one of them is ever sent for, exactly if their ids differ
      at most in having a colon where the other has an underscore. */
  lemma TargetsClash(a: string, b: string)
    ensures Target(a) == Target(b) <==>
            |a| == |b| && forall i | 0 <= i < |a| :: a[i] == b[i] || {a[i], b[i]} == {':', '_'}
  {
    TargetIs(a);
    TargetIs(b);
    if |a| == |b| {
      forall i | 0 <= i < |a|
        ensures Target(a)[i] == Target(b)[i] <==> a[i] == b[i] || {a[i], b[i]} == {':', '_'}
      {
        SameOrSwapped(a[i], b[i]);
      }
    }
  }

  lemma SameOrSwapped(x: char, y: char)
    ensures (if x == ':' then '_' else x) == (if y == ':' then '_' else y) <==> x == y || {x, y} == {':', '_'}
  {
    if {x, y} == {':', '_'} {
      assert x in {':', '_'} && y in {':', '_'};
      assert ':' in {x, y} && '_' in {x, y};
    }
  }

  datatype Worker = Idle | Busy(pid: nat) | Gone

  datatype Session = Session(pending: seq<Row>, queue: seq<Row>, stop: bool, workers: (Worker, Worker))

  datatype PoolEvent = Dequeued(session: nat, row: Row) | Stopped(session: nat)

  datatype Pool = Pool(core: State, sessions: map<nat, Session>, log: seq<PoolEvent>)

  const EMPTY_POOL := Pool(INITIAL, map[], [])

  datatype PoolStep =
    | Open(session: nat, limit: nat)
    | Take(session: nat, second: bool, pid: nat)
    | Protocol(step: Step)
    | Return(session: nat, second: bool, incomplete: bool)
    | Raise(session: nat, second: bool)

  /** The rows whose start marker does not exist yet. */
  function Pending(s: State, rows: seq<Row>): seq<Row> {
    if rows == [] then []
    else if EvidenceOf(s, Target(rows[0].id)).started.Some? then Pending(s, rows[1..])
    else [rows[0]] + Pending(s, rows[1..])
  }

  function WorkerOf(s: Session, second: bool): Worker {
    if second then s.workers.1 else s.workers.0
  }

  function SetWorker(s: Session, second: bool, w: Worker): Session {
    s.(workers := if second then (s.workers.0, w) else (w, s.workers.1))
  }

  /** One atomic action of the pool; an action that is not possible changes nothing. */
  function PoolNext(codec: Codec, rows: seq<Row>, p: Pool, step: PoolStep): Pool {
    match step
    case Open(id, limit) =>
      if id in p.sessions then p
      else
        var all := Pending(p.core, rows);
        var chosen := if 0 < limit < |all| then all[..limit] else all;
        p.(sessions := p.sessions[id := Session(chosen, chosen, false, (Idle, Idle))])
    case Protocol(s) =>
      if s.Launch? then p else p.(core := Next(codec, p.core, s))
    case Take(id, second, pid) =>
      if id !in p.sessions || pid in p.core.processes then p
      else
        var session := p.sessions[id];
        if WorkerOf(session, second) != Idle || session.queue == [] || session.stop then p
        else
          var row := session.queue[0];
          Pool(Next(codec, p.core, Launch(pid, Target(row.id), row.request)),
               p.sessions[id := SetWorker(session.(queue := session.queue[1..]), second, Busy(pid))],
               p.log + [Dequeued(id, row)])
    case Return(id, second, incomplete) =>
      if id !in p.sessions then p
      else
        var session := p.sessions[id];
        var w := WorkerOf(session, second);
        if !w.Busy? || w.pid !in p.core.processes || p.core.processes[w.pid].stage != Finished then p
        else if incomplete then
          Pool(p.core, p.sessions[id := SetWorker(session.(stop := true), second, Idle)],
               p.log + [Stopped(id)])
        else p.(sessions := p.sessions[id := SetWorker(session, second, Idle)])
    case Raise(id, second) =>
      if id !in p.sessions || !WorkerOf(p.sessions[id], second).Busy? then p
      else
        Pool(p.core, p.sessions[id := SetWorker(p.sessions[id].(stop := true), second, Gone)],
             p.log + [Stopped(id)])
  }

  function PoolExec(codec: Codec, rows: seq<Row>, p: Pool, steps: seq<PoolStep>): Pool {
    if steps == [] then p
    else PoolNext(codec, rows, PoolExec(codec, rows, p, steps[..|steps| - 1]), steps[|steps| - 1])
  }

  // ---------- the queue ----------

  /** The rows a session has handed to its workers, in order. */
  function Taken(log: seq<PoolEvent>, session: nat): seq<Row> {
    if log == [] then []
    else
      var last := log[|log| - 1];
      Taken(log[..|log| - 1], session) +
      if last.Dequeued? && last.session == session then [last.row] else []
  }

  /** What a session handed out followed by what is still queued is what it found pending. */
  ghost predicate QueueOk(p: Pool, id: nat)
    requires id in p.sessions
  {
    && Taken(p.log, id) + p.sessions[id].queue == p.sessions[id].pending
    && ((exists i :: 0 <= i < |p.log| && p.log[i] == Stopped(id)) ==> p.sessions[id].stop)
  }

  /** Sessions and log: queues add up, hold rows only, and nothing is dequeued after a stop. */
  ghost predicate QueueInv(rows: seq<Row>, p: Pool) {
    && (forall id | id in p.sessions :: QueueOk(p, id) && FromRows(p.sessions[id].queue, rows))
    && (forall i | 0 <= i < |p.log| :: p.log[i].session in p.sessions)
    && NoneAfterStop(p.log)
  }

  ghost predicate FromRows(queue: seq<Row>, rows: seq<Row>) {
    forall r | r in queue :: r in rows
  }

  ghost predicate NoneAfterStop(log: seq<PoolEvent>) {
    forall i, j | 0 <= i < j < |log| && log[i].Stopped? && log[j].Dequeued? ::
      log[i].session != log[j].session
  }

  /** Processes: the protocol's invariant, and every process works for some row. */
  ghost predicate CoreInv(codec: Codec, rows: seq<Row>, s: State) {
    && Inv(codec, s)
    && forall pid | pid in s.processes :: s.processes[pid].target in Targets(rows)
  }

  function Targets(rows: seq<Row>): set<string> {
    set r | r in rows :: Target(r.id)
  }

  lemma {:induction false} PendingFromRows(s: State, rows: seq<Row>)
    ensures FromRows(Pending(s, rows), rows)
    ensures forall r | r in Pending(s, rows) :: EvidenceOf(s, Target(r.id)).started.None?
  {
    if rows != [] {
      PendingFromRows(s, rows[1..]);
    }
  }

  lemma TakenGrows(log: seq<PoolEvent>, ev: PoolEvent, session: nat)
    ensures Taken(log + [ev], session) ==
            Taken(log, session) + if ev.Dequeued? && ev.session == session then [ev.row] else []
  {
    assert (log + [ev])[..|log|] == log;
  }

  lemma {:induction false} NothingTaken(log: seq<PoolEvent>, session: nat)
    requires forall i | 0 <= i < |log| :: log[i].session != session
    ensures Taken(log, session) == []
  {
    if log != [] {
      NothingTaken(log[..|log| - 1], session);
    }
  }

  /** A pool action leaves a session alone, opens it, or advances it with one logged event. */
  lemma SessionStep(codec: Codec, rows: seq<Row>, p: Pool, step: PoolStep, id: nat)
    requires id in PoolNext(codec, rows, p, step).sessions
    ensures var p' := PoolNext(codec, rows, p, step);
            && (id !in p.sessions ==>
                  p'.log == p.log && p'.sessions[id].queue == p'.sessions[id].pending)
            && (id in p.sessions ==>
                  && p'.sessions[id].pending == p.sessions[id].pending
                  && (p.sessions[id].stop ==> p'.sessions[id].stop)
                  && (p'.log == p.log ==> p'.sessions[id].queue == p.sessions[id].queue))
            && (p'.log != p.log ==>
                  |p'.log| == |p.log| + 1 && p'.log[..|p.log|] == p.log
                  && p'.log[|p.log|].session in p.sessions)
            && (p'.log != p.log && id in p.sessions ==>
                  var ev := p'.log[|p.log|];
                  && (ev == Stopped(id) ==> p'.sessions[id].stop)
                  && (ev.Dequeued? && ev.session == id ==>
                        !p.sessions[id].stop && p.sessions[id].queue == [ev.row] + p'.sessions[id].queue)
                  && (!(ev.Dequeued? && ev.session == id) ==>
                        p'.sessions[id].queue == p.sessions[id].queue))
  {
  }

  lemma QueueKept(codec: Codec, rows: seq<Row>, p: Pool, step: PoolStep, id: nat)
    requires QueueInv(rows, p) && id in PoolNext(codec, rows, p, step).sessions
    ensures QueueOk(PoolNext(codec, rows, p, step), id)
  {
    var p' := PoolNext(codec, rows, p, step);
    SessionStep(codec, rows, p, step, id);
    if id !in p.sessions {
      NothingTaken(p.log, id);
    } else {
      assert QueueOk(p, id);
      if p'.log != p.log {
        var ev := p'.log[|p.log|];
        assert p'.log == p.log + [ev];
        TakenGrows(p.log, ev, id);
        AddsUp(Taken(p.log, id), p.sessions[id].queue, p'.sessions[id].queue, p.sessions[id].pending,
               if ev.Dequeued? && ev.session == id then [ev.row] else []);
      }
    }
  }

  lemma AddsUp(taken: seq<Row>, queue: seq<Row>, queue': seq<Row>, pending: seq<Row>, step: seq<Row>)
    requires taken + queue == pending && queue == step + queue'
    ensures taken + step + queue' == pending
  {
  }

  lemma SessionsFromRows(codec: Codec, rows: seq<Row>, p: Pool, step: PoolStep, id: nat)
    requires QueueInv(rows, p) && id in PoolNext(codec, rows, p, step).sessions
    ensures FromRows(PoolNext(codec, rows, p, step).sessions[id].queue, rows)
  {
    PendingFromRows(p.core, rows);
    if id in p.sessions {
      SessionStep(codec, rows, p, step, id);
      assert FromRows(p.sessions[id].queue, rows);
    }
  }

  lemma LogKept(codec: Codec, rows: seq<Row>, p: Pool, step: PoolStep)
    requires QueueInv(rows, p)
    ensures var p' := PoolNext(codec, rows, p, step);
            NoneAfterStop(p'.log) && forall i | 0 <= i < |p'.log| :: p'.log[i].session in p'.sessions
  {
    var p' := PoolNext(codec, rows, p, step);
    if p'.log != p.log {
      var id := p'.log[|p.log|].session;
      SessionStep(codec, rows, p, step, id);
      assert QueueOk(p, id);
      assert forall i | 0 <= i < |p.log| :: p'.log[i] == p.log[i];
    }
  }

  lemma CoreKept(codec: Codec, rows: seq<Row>, p: Pool, step: PoolStep)
    requires QueueInv(rows, p) && CoreInv(codec, rows, p.core)
    ensures CoreInv(codec, rows, PoolNext(codec, rows, p, step).core)
  {
    match step {
      case Protocol(s) =>
        if !s.Launch? {
          NextKeepsInv(codec, p.core, s);
          if s.pid in p.core.processes { StepShape(codec, p.core, s); }
        }
      case Take(id, second, pid) =>
        var p' := PoolNext(codec, rows, p, step);
        if p'.core != p.core {
          var row := p.sessions[id].queue[0];
          assert FromRows(p.sessions[id].queue, rows) && row in p.sessions[id].queue;
          NextKeepsInv(codec, p.core, Launch(pid, Target(row.id), row.request));
        }
      case _ =>
    }
  }

  lemma {:induction false} PoolExecKeepsInv(codec: Codec, rows: seq<Row>, steps: seq<PoolStep>)
    ensures var p := PoolExec(codec, rows, EMPTY_POOL, steps);
            QueueInv(rows, p) && CoreInv(codec, rows, p.core)
  {
    if steps != [] {
      var front, step := steps[..|steps| - 1], steps[|steps| - 1];
      var p := PoolExec(codec, rows, EMPTY_POOL, front);
      PoolExecKeepsInv(codec, rows, front);
      CoreKept(codec, rows, p, step);
      LogKept(codec, rows, p, step);
      forall id | id in PoolNext(codec, rows, p, step).sessions
        ensures QueueOk(PoolNext(codec, rows, p, step), id)
        ensures FromRows(PoolNext(codec, rows, p, step).sessions[id].queue, rows)
      {
        QueueKept(codec, rows, p, step, id);
        SessionsFromRows(codec, rows, p, step, id);
      }
    }
  }

  /** Over every interleaving of any number of sessions, resumed or overlapping: a session hands out
      exactly a prefix of what it found pending, each entry once and in order, and nothing after its
      stop flag was set. */
  lemma QueueSharedSafely(codec: Codec, rows: seq<Row>, steps: seq<PoolStep>, id: nat)
    ensures var p := PoolExec(codec, rows, EMPTY_POOL, steps);
            && (id in p.sessions ==> Taken(p.log, id) + p.sessions[id].queue == p.sessions[id].pending)
            && NoneAfterStop(p.log)
  {
    PoolExecKeepsInv(codec, rows, steps);
    var p := PoolExec(codec, rows, EMPTY_POOL, steps);
    assert id in p.sessions ==> QueueOk(p, id);
  }

  lemma {:induction false} PendingIs(s: State, rows: seq<Row>, r: Row)
    ensures r in Pending(s, rows) <==> r in rows && EvidenceOf(s, Target(r.id)).started.None?
  {
    if rows != [] {
      PendingIs(s, rows[1..], r);
      assert rows == [rows[0]] + rows[1..];
    }
  }

  /** A session that is opened, for the first time or as a resumption, skips every row that was ever
      started; without a limit it takes all others. */
  lemma ResumeSkipsStarted(codec: Codec, rows: seq<Row>, p: Pool, id: nat, limit: nat, r: Row)
    requires id !in p.sessions
    ensures var queue := PoolNext(codec, rows, p, Open(id, limit)).sessions[id].queue;
            && (r in queue ==> r in rows && EvidenceOf(p.core, Target(r.id)).started.None?)
            && (limit > 0 ==> |queue| <= limit)
            && (limit == 0 && r in rows && EvidenceOf(p.core, Target(r.id)).started.None? ==> r in queue)
  {
    PendingIs(p.core, rows, r);
  }

  /** What is pending keeps the order of the rows, and a row's place depends on its marker alone. */
  lemma {:induction false} PendingInOrder(s: State, first: seq<Row>, r: Row, rest: seq<Row>)
    ensures Pending(s, first + [r] + rest) ==
            Pending(s, first)
            + (if EvidenceOf(s, Target(r.id)).started.None? then [r] else []) + Pending(s, rest)
  {
    if first == [] {
      assert [] + [r] + rest == [r] + rest && ([r] + rest)[1..] == rest;
    } else {
      var all := first + [r] + rest;
      assert all[0] == first[0] && all[1..] == first[1..] + [r] + rest;
      PendingInOrder(s, first[1..], r, rest);
    }
  }

  /** A session takes the first pending rows, as many as its limit says, and all of them without one. */
  lemma OpenTakesFirst(codec: Codec, rows: seq<Row>, p: Pool, id: nat, limit: nat)
    requires id !in p.sessions
    ensures var session := PoolNext(codec, rows, p, Open(id, limit)).sessions[id];
            var pending := Pending(p.core, rows);
            && session.queue == session.pending <= pending && !session.stop
            && |session.queue| == if limit == 0 || |pending| <= limit then |pending| else limit
  {
  }

  /** Once its stop flag is set, a session hands out nothing more, whatever happens next. */
  lemma {:induction false} StoppedIsSilent(codec: Codec, rows: seq<Row>, p: Pool, steps: seq<PoolStep>, id: nat)
    requires id in p.sessions && p.sessions[id].stop
    ensures var p' := PoolExec(codec, rows, p, steps);
            && id in p'.sessions && p'.sessions[id].stop
            && Taken(p'.log, id) == Taken(p.log, id) && p'.sessions[id].queue == p.sessions[id].queue
  {
    if steps != [] {
      StoppedIsSilent(codec, rows, p, steps[..|steps| - 1], id);
      StoppedStays(codec, rows, PoolExec(codec, rows, p, steps[..|steps| - 1]), steps[|steps| - 1], id);
    }
  }

  lemma StoppedStays(codec: Codec, rows: seq<Row>, p: Pool, step: PoolStep, id: nat)
    requires id in p.sessions && p.sessions[id].stop
    ensures var p' := PoolNext(codec, rows, p, step);
            && id in p'.sessions && p'.sessions[id].stop
            && Taken(p'.log, id) == Taken(p.log, id) && p'.sessions[id].queue == p.sessions[id].queue
  {
    SessionStep(codec, rows, p, step, id);
    var p' := PoolNext(codec, rows, p, step);
    if p'.log != p.log {
      assert p'.log == p.log + [p'.log[|p.log|]];
      TakenGrows(p.log, p'.log[|p.log|], id);
    }
  }

  /** A failing worker stops its session for good. */
  lemma FailureEndsSession(codec: Codec, rows: seq<Row>, p: Pool, id: nat, second: bool, steps: seq<PoolStep>)
    requires id in p.sessions && WorkerOf(p.sessions[id], second).Busy?
    ensures var p' := PoolExec(codec, rows, PoolNext(codec, rows, p, Raise(id, second)), steps);
            id in p'.sessions && Taken(p'.log, id) == Taken(p.log, id)
  {
    TakenGrows(p.log, Stopped(id), id);
    StoppedIsSilent(codec, rows, PoolNext(codec, rows, p, Raise(id, second)), steps, id);
  }

  /** The worker's process has written its output. */
  predicate Answered(p: Pool, id: nat, second: bool)
    requires id in p.sessions
  {
    var w := WorkerOf(p.sessions[id], second);
    w.Busy? && w.pid in p.core.processes && p.core.processes[w.pid].stage == Finished
  }

  /** So does an incomplete answer. */
  lemma IncompleteEndsSession(codec: Codec, rows: seq<Row>, p: Pool, id: nat, second: bool, steps: seq<PoolStep>)
    requires id in p.sessions && Answered(p, id, second)
    ensures var p' := PoolExec(codec, rows, PoolNext(codec, rows, p, Return(id, second, true)), steps);
            id in p'.sessions && Taken(p'.log, id) == Taken(p.log, id)
  {
    TakenGrows(p.log, Stopped(id), id);
    StoppedIsSilent(codec, rows, PoolNext(codec, rows, p, Return(id, second, true)), steps, id);
  }

  /** A complete answer frees its worker and stops nobody: the next row is then the first of the queue. */
  lemma CompleteGoesOn(codec: Codec, rows: seq<Row>, p: Pool, id: nat, second: bool, pid: nat)
    requires id in p.sessions && Answered(p, id, second)
    requires !p.sessions[id].stop && p.sessions[id].queue != [] && pid !in p.core.processes
    ensures var p' := PoolNext(codec, rows, PoolNext(codec, rows, p, Return(id, second, false)), Take(id, second, pid));
            && id in p'.sessions && !p'.sessions[id].stop
            && p'.log == p.log + [Dequeued(id, p.sessions[id].queue[0])]
            && pid in p'.core.processes && p'.core.processes[pid].target == Target(p.sessions[id].queue[0].id)
            && p'.core.processes[pid].payload == p.sessions[id].queue[0].request
  {
  }

  // ---------- the bill ----------

  function SentTargets(history: seq<Event>): set<string> {
    set i | 0 <= i < |history| && history[i].Sent? :: history[i].target
  }

  function SentInAll(history: seq<Event>): nat {
    if history == [] then 0
    else SentInAll(history[..|history| - 1]) + if history[|history| - 1].Sent? then 1 else 0
  }

  ghost predicate SentApart(history: seq<Event>) {
    forall i, j | 0 <= i < j < |history| && history[i].Sent? && history[j].Sent? ::
      history[i].target != history[j].target
  }

  lemma SentTargetsStep(front: seq<Event>, last: Event)
    ensures SentTargets(front + [last]) ==
            SentTargets(front) + if last.Sent? then {last.target} else {}
  {
    var h := front + [last];
    assert forall i | 0 <= i < |front| :: h[i] == front[i];
    assert h[|front|] == last;
  }

  lemma {:induction false} SentOncePerTarget(history: seq<Event>)
    requires SentApart(history)
    ensures SentInAll(history) == |SentTargets(history)|
  {
    if history != [] {
      var n := |history| - 1;
      var front, last := history[..n], history[n];
      assert history == front + [last];
      SentOncePerTarget(front);
      SentTargetsStep(front, last);
    }
  }

  lemma {:induction false} TargetsBound(rows: seq<Row>)
    ensures |Targets(rows)| <= |rows|
  {
    if rows != [] {
      TargetsBound(rows[1..]);
      assert Targets(rows) == {Target(rows[0].id)} + Targets(rows[1..]);
    }
  }

  /** The paid requests of all sessions together never exceed the distinct result directories of the
      rows, hence the rows; each directory is started at most once and sent for at most once. */
  lemma PaidPostsBounded(codec: Codec, rows: seq<Row>, steps: seq<PoolStep>)
    ensures var h := PoolExec(codec, rows, EMPTY_POOL, steps).core.history;
            && SentInAll(h) <= |Targets(rows)| <= |rows|
            && (forall t :: SentFor(h, t) <= 1)
            && (forall i, j | 0 <= i < j < |h| && h[i].MarkerCreated? && h[j].MarkerCreated? ::
                  h[i].target != h[j].target)
  {
    PoolExecKeepsInv(codec, rows, steps);
    var p := PoolExec(codec, rows, EMPTY_POOL, steps);
    var h := p.core.history;
    SentOncePerTarget(h);
    forall t | t in SentTargets(h)
      ensures t in Targets(rows)
    {
      var i :| 0 <= i < |h| && h[i].Sent? && h[i].target == t;
      assert EventOk(codec, p.core, i);
      assert p.core.processes[h[i].pid].target == t;
    }
    Counting.SubsetSize(SentTargets(h), Targets(rows));
    TargetsBound(rows);
    forall t
      ensures SentFor(h, t) <= 1
    {
      SentForBounds(h, t);
    }
  }
}
