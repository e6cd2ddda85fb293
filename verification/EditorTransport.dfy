/** The two ends of the editor transport: the page's client, which sends project
    deltas one message at a time, and the worker, which rebuilds the project
    and keeps one copy of it for each timeline entry. */
module EditorTransport {
  import opened Basics
  import opened EditorTimeline

  /** The members of a draft, by object identity. `content` gives the JSON text of each object;
      drafts are frozen, so it never changes. */
  type Config = map<string, nat>

  function Texts(content: nat -> string, config: Config): (texts: Project)
    ensures texts.Keys == config.Keys
  {
    map key | key in config :: content(config[key])
  }

  datatype Op =
    | Delta(name: string, plan: string)                 // an operation that sends the project as a delta
    | Aside(name: string, plan: string, whole: bool)    // a helper or a view, with or without the whole project
    | History(command: Command)

  datatype Job = Job(id: nat, config: Config, op: Op, background: bool)

  datatype Client = Client(active: Option<Job>, queue: seq<Job>, sent: Config, nextID: nat)

  datatype Message =
    | DeltaMessage(name: string, plan: string, keys: set<string>, patch: Project)
    | CreateMessage(keys: set<string>, patch: Project, command: Command)
    | PlainMessage(command: Command)
    | AsideMessage(name: string, plan: string, project: Option<Project>)

  datatype Answer = Answered | Rejected | Viewed(view: View) | Broken

  const QUEUE_LIMIT: nat := 8

  const REPLACED: set<string> := {"stationLayout", "measurements", "observationScope"}

  // ----- the client -----

  function Without(queue: seq<Job>, dropped: Job -> bool): seq<Job> {
    if queue == [] then []
    else
      var rest := Without(queue[..|queue| - 1], dropped);
      if dropped(queue[|queue| - 1]) then rest else rest + [queue[|queue| - 1]]
  }

  /** The place of the first background job, or the end. */
  function FirstBackground(queue: seq<Job>): (place: nat)
    ensures place <= |queue|
  {
    if queue == [] || queue[0].background then 0 else 1 + FirstBackground(queue[1..])
  }

  predicate IsReplaced(op: Op) {
    op.Aside? && op.name in REPLACED
  }

  function IsBackground(): Job -> bool {
    (job: Job) => job.background
  }

  /** The queued requests of one helper. */
  function Requests(name: string): Job -> bool {
    (job: Job) => job.op.Aside? && job.op.name == name
  }

  function WithoutBackground(queue: seq<Job>, background: bool): seq<Job> {
    if background then Without(queue, IsBackground()) else queue
  }

  function Trimmed(queue: seq<Job>, op: Op, background: bool): seq<Job> {
    var others := WithoutBackground(queue, background);
    if IsReplaced(op) then Without(others, Requests(op.name)) else others
  }

  /** The dropped jobs, last first. Their promises are rejected in this order. */
  function Removed(queue: seq<Job>, dropped: Job -> bool): seq<Job> {
    if queue == [] then []
    else
      var last := queue[|queue| - 1];
      (if dropped(last) then [last] else []) + Removed(queue[..|queue| - 1], dropped)
  }

  /** The jobs that a new one replaces: older validations, then older requests of its helper. */
  function Replaced(queue: seq<Job>, op: Op, background: bool): seq<Job> {
    (if background then Removed(queue, IsBackground()) else []) +
    (if IsReplaced(op) then Removed(WithoutBackground(queue, background), Requests(op.name)) else [])
  }

  lemma LastJob(queue: seq<Job>, last: nat, dropped: Job -> bool)
    requires last < |queue|
    ensures Without(queue[..last + 1], dropped) ==
            Without(queue[..last], dropped) + if dropped(queue[last]) then [] else [queue[last]]
    ensures Removed(queue[..last + 1], dropped) ==
            (if dropped(queue[last]) then [queue[last]] else []) + Removed(queue[..last], dropped)
  {
    assert queue[..last + 1][..last] == queue[..last];
  }

  lemma {:induction false} RemovedOnce(queue: seq<Job>, dropped: Job -> bool)
    ensures multiset(Without(queue, dropped)) + multiset(Removed(queue, dropped)) == multiset(queue)
    ensures forall job :: job in Removed(queue, dropped) ==> dropped(job)
  {
    if queue != [] {
      var before, last := queue[..|queue| - 1], queue[|queue| - 1];
      RemovedOnce(before, dropped);
      assert queue == before + [last];
    }
  }

  /** Every queued job is either kept or rejected, once. */
  lemma ReplacedOnce(queue: seq<Job>, op: Op, background: bool)
    ensures multiset(Trimmed(queue, op, background)) + multiset(Replaced(queue, op, background)) == multiset(queue)
  {
    RemovedOnce(queue, IsBackground());
    if IsReplaced(op) {
      RemovedOnce(WithoutBackground(queue, background), Requests(op.name));
    }
  }

  /** A background job goes last; any other job goes before the waiting background job. */
  function Inserted(queue: seq<Job>, job: Job): seq<Job> {
    var place := if job.background then |queue| else FirstBackground(queue);
    queue[..place] + [job] + queue[place..]
  }

  /** Queues a job, or refuses it when eight wait. A refusal still drops the replaced jobs. */
  function AfterEnqueue(c: Client, config: Config, op: Op, background: bool): (Client, bool) {
    var queue := Trimmed(c.queue, op, background);
    if |queue| >= QUEUE_LIMIT then (c.(queue := queue), false)
    else (c.(queue := Inserted(queue, Job(c.nextID + 1, config, op, background)), nextID := c.nextID + 1), true)
  }

  /** The background jobs of other drafts. */
  function OtherBackground(config: Config): Job -> bool {
    (job: Job) => job.background && job.config != config
  }

  /** Queues an acceptance. It first drops the background jobs of other drafts. */
  function AfterAccept(c: Client, config: Config, token: nat): (Client, bool) {
    AfterEnqueue(c.(queue := Without(c.queue, OtherBackground(config))), config, History(Accept(token)), false)
  }

  predicate SendsDelta(op: Op) {
    op.Delta? || (op.History? && op.command.Prepare? && Creates(op.command.kind))
  }

  function Patch(content: nat -> string, config: Config, sent: Config): Project {
    map key | key in config && !(key in sent && sent[key] == config[key]) :: content(config[key])
  }

  function MessageFor(content: nat -> string, job: Job, sent: Config): Message {
    match job.op
    case Delta(name, plan) => DeltaMessage(name, plan, job.config.Keys, Patch(content, job.config, sent))
    case Aside(name, plan, whole) => AsideMessage(name, plan, if whole then Some(Texts(content, job.config)) else None)
    case History(command) =>
      if SendsDelta(job.op) then CreateMessage(job.config.Keys, Patch(content, job.config, sent), command)
      else PlainMessage(command)
  }

  predicate CanPost(c: Client) {
    c.active.None? && c.queue != []
  }

  function AfterPost(c: Client): Client
    requires CanPost(c)
  {
    var job := c.queue[0];
    c.(active := Some(job), queue := c.queue[1..], sent := if SendsDelta(job.op) then job.config else c.sent)
  }

  /** An accepted history proposal becomes the project that the worker holds. */
  function AfterReceive(c: Client, answer: Answer): Client
    requires c.active.Some?
  {
    var job := c.active.value;
    c.(active := None, sent := if job.op.History? && job.op.command.Accept? && answer.Viewed? then job.config
       else c.sent)
  }

  /** What the worker posts: a fatal stop, or a reply to the job with the ID. */
  datatype WorkerReply = Fatal | Replied(id: nat, result: WorkerResult)

  datatype WorkerResult = Malformed | Failed | Result(answer: Answer)

  /** The reply of the active job. */
  predicate IsCurrent(c: Client, reply: WorkerReply) {
    reply.Replied? && c.active.Some? && reply.id == c.active.value.id
  }

  /** A failure stops the client: a fatal message, or a malformed or failed reply of the active job. */
  predicate Stops(c: Client, reply: WorkerReply) {
    reply.Fatal? || (IsCurrent(c, reply) && (!reply.result.Result? || reply.result.answer.Broken?))
  }

  /** The jobs whose promises have not settled, in the order in which a failure rejects them. */
  function Outstanding(c: Client): seq<Job> {
    (if c.active.Some? then [c.active.value] else []) + c.queue
  }

  class EditorClient {
    var active: Option<Job>
    var queue: seq<Job>
    var sent: Config
    var nextID: nat
    var failed: bool

    ghost function Contents(): Client
      reads this
    {
      Client(active, queue, sent, nextID)
    }

    constructor ()
      ensures Contents() == Client(None, [], map[], 0) && !failed
    {
      active, queue, sent, nextID, failed := None, [], map[], 0, false;
    }

    /** Removes the queued jobs that the filter selects, last first, and rejects them. */
    method Drop(dropped: Job -> bool) returns (rejected: seq<Job>)
      modifies this`queue
      ensures queue == Without(old(queue), dropped) && rejected == Removed(old(queue), dropped)
    {
      rejected := [];
      var index := |queue|;
      ghost var all := queue;
      assert all[..|all|] == all;
      while index > 0
        invariant 0 <= index <= |queue| && index <= |all|
        invariant queue[..index] == all[..index]
        invariant Without(all, dropped) == Without(all[..index], dropped) + queue[index..]
        invariant Removed(all, dropped) == rejected + Removed(all[..index], dropped)
      {
        index := index - 1;
        LastJob(all, index, dropped);
        assert queue[..index] == all[..index] && queue[index] == all[index];
        if dropped(queue[index]) {
          rejected := rejected + [queue[index]];
          queue := queue[..index] + queue[index + 1..];
        }
      }
    }

    /** Queues a job and rejects those that it replaces. A stopped client and a full queue refuse it. */
    method Enqueue(config: Config, op: Op, background: bool) returns (queued: bool, rejected: seq<Job>)
      modifies this`queue, this`nextID
      ensures failed ==> !queued && rejected == [] && Contents() == old(Contents())
      ensures !failed ==> (Contents(), queued) == AfterEnqueue(old(Contents()), config, op, background)
      ensures !failed ==> rejected == Replaced(old(queue), op, background)
    {
      rejected := [];
      if failed {
        return false, [];
      }
      if background {
        rejected := Drop(IsBackground());
      }
      if IsReplaced(op) {
        var more := Drop(Requests(op.name));
        rejected := rejected + more;
      }
      if |queue| >= QUEUE_LIMIT {
        return false, rejected;
      }
      nextID := nextID + 1;
      queue := Inserted(queue, Job(nextID, config, op, background));
      queued := true;
    }

    method AcceptHistory(config: Config, token: nat) returns (queued: bool, rejected: seq<Job>)
      requires !failed
      modifies this`queue, this`nextID
      ensures (Contents(), queued) == AfterAccept(old(Contents()), config, token)
      ensures rejected == Removed(old(queue), OtherBackground(config))
    {
      rejected := Drop(OtherBackground(config));
      var replaced;
      queued, replaced := Enqueue(config, History(Accept(token)), false);
    }

    method Pump(content: nat -> string) returns (message: Message)
      requires CanPost(Contents())
      modifies this`active, this`queue, this`sent
      ensures Contents() == AfterPost(old(Contents()))
      ensures message == MessageFor(content, old(queue)[0], old(sent))
    {
      var job := queue[0];
      active, queue := Some(job), queue[1..];
      message := MessageFor(content, job, sent);
      if SendsDelta(job.op) {
        sent := job.config;
      }
    }

    /** Stops the client for good, and rejects every job that is still outstanding. */
    method Fail() returns (rejected: seq<Job>)
      modifies this`active, this`queue, this`failed
      ensures failed && rejected == (if old(failed) then [] else Outstanding(old(Contents())))
      ensures Contents() == if old(failed) then old(Contents()) else old(Contents()).(active := None, queue := [])
    {
      if failed {
        return [];
      }
      rejected := Outstanding(Client(active, queue, sent, nextID));
      failed, active, queue := true, None, [];
    }

    /** Takes a message of the worker. A reply that is not the active job's changes nothing. */
    method OnMessage(reply: WorkerReply) returns (resolved: Option<Job>, rejected: seq<Job>)
      requires !failed
      modifies this`active, this`queue, this`sent, this`failed
      ensures failed <==> Stops(old(Contents()), reply)
      ensures failed ==> rejected == Outstanding(old(Contents())) && resolved == None
      ensures failed ==> Contents() == old(Contents()).(active := None, queue := [])
      ensures !failed && IsCurrent(old(Contents()), reply) ==>
        resolved == old(active) && Contents() == AfterReceive(old(Contents()), reply.result.answer)
      ensures !failed && !IsCurrent(old(Contents()), reply) ==> resolved == None && Contents() == old(Contents())
      ensures !failed ==> rejected == []
    {
      resolved, rejected := None, [];
      if reply.Fatal? {
        rejected := Fail();
        return;
      }
      if active.None? || reply.id != active.value.id {
        return;
      }
      if !reply.result.Result? || reply.result.answer.Broken? {
        rejected := Fail();
        return;
      }
      var job := active.value;
      active, resolved := None, Some(job);
      if job.op.History? && job.op.command.Accept? && reply.result.answer.Viewed? {
        sent := job.config;
      }
    }
  }

  // ----- the engine's side of a synchronization -----

  datatype Verdict = Valid | ProjectError | SyncRefused

  predicate PatchFits(e: Engine, keys: set<string>, patch: Project) {
    (forall key :: key in keys ==> key in patch || key in e.branches) && patch.Keys <= keys
  }

  /** Replaces the changed branches. `verdict` stands for the decoding of the branches;
      a synchronization with a project error still replaces them. */
  function AfterSync(e: Engine, keys: set<string>, patch: Project, verdict: Verdict): (Engine, Verdict) {
    if !PatchFits(e, keys, patch) || verdict == SyncRefused then (e, SyncRefused)
    else (e.(branches := Rebuilt(e.branches, keys, patch), ready := true), verdict)
  }

  /** The project with the given keys, each from the patch or else from the held project. */
  function Rebuilt(held: Project, keys: set<string>, patch: Project): Project {
    map key | key in keys && (key in patch || key in held) :: if key in patch then patch[key] else held[key]
  }

  // ----- the worker -----

  datatype Held = Held(token: nat, head: nat, config: Project)

  datatype Worker = Worker(config: Project, needsFullSync: bool, proposal: Option<Held>, snapshots: map<nat, Project>)

  const NEW_WORKER: Worker := Worker(map[], false, None, map[])

  /** The form of a history view that the page and the worker accept. */
  predicate Checked(view: View, proposal: bool) {
    && view.head != 0 && view.revision != 0 && view.head in view.retained
    && (forall k :: 0 <= k < |view.retained| ==> view.retained[k] != 0)
    && (forall j, k :: 0 <= j < k < |view.retained| ==> view.retained[j] != view.retained[k])
    && (forall k :: 0 <= k < |view.imageKeys| ==> view.imageKeys[k] != "")
    && view.proposal.Some? == proposal
  }

  function Kept<T>(items: map<nat, T>, retained: seq<nat>): map<nat, T> {
    map id | id in items && id in retained :: items[id]
  }

  datatype Handled = Handled(worker: Worker, engine: Engine, answer: Answer)

  function HandleSync(w: Worker, e: Engine, keys: set<string>, patch: Project, verdict: Verdict)
    : (Worker, Engine, Verdict) {
    var config := Rebuilt(w.config, keys, patch);
    var (e', v) := AfterSync(e, keys, if w.needsFullSync then config else patch, verdict);
    (w.(config := config, needsFullSync := v != Valid), e', v)
  }

  function HandleHistory(canonical: string -> string, w: Worker, e: Engine, c: Command, target: Option<Project>)
    : Handled {
    var (e', reply) := AfterHistory(canonical, e, c);
    match reply
    case Refused(_) => Handled(w, e', Rejected)
    case Shown(view) =>
      match c
      case Prepare(_, _, _, _, _, _, _) =>
        var copy := if view.head in w.snapshots then Some(w.snapshots[view.head]) else target;
        if !Checked(view, true) || copy.None? then Handled(w, e', Broken)
        else Handled(w.(proposal := Some(Held(view.proposal.value, view.head, copy.value))), e', Viewed(view))
      case Accept(token) =>
        if !Checked(view, false) || w.proposal.None? || w.proposal.value.token != token ||
          w.proposal.value.head != view.head
        then Handled(w, e', Broken)
        else
          var config := w.proposal.value.config;
          Handled(Worker(config, false, None, Kept(w.snapshots[view.head := config], view.retained)), e', Viewed(view))
      case Discard(_) => Handled(w.(proposal := None), e', Viewed(view))
  }

  function AfterHandle(canonical: string -> string, w: Worker, e: Engine, m: Message, verdict: Verdict): Handled {
    match m
    case AsideMessage(_, _, _) => Handled(w, e, Answered)
    case DeltaMessage(_, _, keys, patch) =>
      var (w', e', _) := HandleSync(w, e, keys, patch, verdict);
      Handled(w', e', Answered)
    case CreateMessage(keys, patch, command) =>
      var (w', e', v) := HandleSync(w, e, keys, patch, verdict);
      if v == SyncRefused then Handled(w', e', Rejected)
      else HandleHistory(canonical, w', e', command, Some(w'.config))
    case PlainMessage(command) => HandleHistory(canonical, w, e, command, None)
  }

  // ----- one message -----

  /** The delta rebuilds exactly the project that the client passed. */
  lemma DeltaRebuilds(content: nat -> string, config: Config, sent: Config)
    ensures Rebuilt(Texts(content, sent), config.Keys, Patch(content, config, sent)) == Texts(content, config)
  {
  }

  /** After any synchronization the engine holds the worker's project, or the next message repairs it. */
  lemma SyncAgrees(w: Worker, e: Engine, keys: set<string>, patch: Project, verdict: Verdict)
    requires !w.needsFullSync ==> e.branches == w.config
    requires patch.Keys <= keys && forall key :: key in keys ==> key in patch || key in w.config
    ensures var (w', e', v) := HandleSync(w, e, keys, patch, verdict);
            && w'.config == Rebuilt(w.config, keys, patch)
            && v == verdict && w'.needsFullSync == (v != Valid)
            && (v != SyncRefused ==> e'.branches == w'.config && e'.ready)
            && e'.timeline == e.timeline && (v == SyncRefused ==> e' == e)
            && w'.proposal == w.proposal && w'.snapshots == w.snapshots
  {
    var config := Rebuilt(w.config, keys, patch);
    assert config.Keys == keys;
    if w.needsFullSync {
      assert Rebuilt(e.branches, keys, config) == config;
    }
  }

  class WorkerOperations {
    var config: Project
    var needsFullSync: bool
    var proposal: Option<Held>
    var snapshots: map<nat, Project>

    ghost function Contents(): Worker
      reads this
    {
      Worker(config, needsFullSync, proposal, snapshots)
    }

    constructor ()
      ensures Contents() == NEW_WORKER
    {
      config, needsFullSync, proposal, snapshots := map[], false, None, map[];
    }

    method Synchronize(e: Engine, keys: set<string>, patch: Project, verdict: Verdict) returns (e': Engine, v: Verdict)
      modifies this`config, this`needsFullSync
      ensures (Contents(), e', v) == HandleSync(old(Contents()), e, keys, patch, verdict)
    {
      config := Rebuilt(config, keys, patch);
      var synced := AfterSync(e, keys, if needsFullSync then config else patch, verdict);
      e', v := synced.0, synced.1;
      needsFullSync := v != Valid;
    }

    method HistoryOperation(canonical: string -> string, e: Engine, c: Command, creates: bool)
      returns (e': Engine, answer: Answer)
      modifies this
      ensures Handled(Contents(), e', answer) ==
              HandleHistory(canonical, old(Contents()), e, c, if creates then Some(old(config)) else None)
    {
      var result := AfterHistory(canonical, e, c);
      e' := result.0;
      if result.1.Refused? {
        return e', Rejected;
      }
      var view := result.1.view;
      if c.Prepare? {
        var target := if view.head in snapshots then Some(snapshots[view.head]) else if creates then Some(config)
                      else None;
        if !Checked(view, true) || target.None? {
          return e', Broken;
        }
        proposal := Some(Held(view.proposal.value, view.head, target.value));
      } else if c.Accept? {
        if !Checked(view, false) || proposal.None? || proposal.value.token != c.token ||
          proposal.value.head != view.head {
          return e', Broken;
        }
        snapshots := snapshots[view.head := proposal.value.config];
        config := proposal.value.config;
        needsFullSync := false;
        proposal := None;
        snapshots := Kept(snapshots, view.retained);
      } else {
        proposal := None;
      }
      answer := Viewed(view);
    }

    method Handle(canonical: string -> string, e: Engine, m: Message, verdict: Verdict)
      returns (e': Engine, answer: Answer)
      modifies this
      ensures Handled(Contents(), e', answer) == AfterHandle(canonical, old(Contents()), e, m, verdict)
    {
      match m {
        case AsideMessage(_, _, _) =>
          e', answer := e, Answered;
        case DeltaMessage(_, _, keys, patch) =>
          var v;
          e', v := Synchronize(e, keys, patch, verdict);
          answer := Answered;
        case CreateMessage(keys, patch, command) =>
          var v;
          e', v := Synchronize(e, keys, patch, verdict);
          if v == SyncRefused {
            return e', Rejected;
          }
          e', answer := HistoryOperation(canonical, e', command, true);
        case PlainMessage(command) =>
          e', answer := HistoryOperation(canonical, e, command, false);
      }
    }
  }
}
