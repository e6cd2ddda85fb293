/** The order of the transport's queue, and what each message tells the worker. */
module TransportLaws {
  import opened Basics
  import opened EditorTimeline
  import opened EditorTransport

  // ----- the queue -----

  /** The jobs of one kind, in queue order. */
  function OfKind(queue: seq<Job>, background: bool): seq<Job> {
    if queue == [] then []
    else
      OfKind(queue[..|queue| - 1], background) +
      if queue[|queue| - 1].background == background then [queue[|queue| - 1]] else []
  }

  lemma {:induction false} OfKindJoins(a: seq<Job>, b: seq<Job>, background: bool)
    ensures OfKind(a + b, background) == OfKind(a, background) + OfKind(b, background)
  {
    if b == [] {
      assert a + b == a;
    } else {
      var rest := b[..|b| - 1];
      OfKindJoins(a, rest, background);
      assert (a + b)[..|a + b| - 1] == a + rest;
    }
  }

  lemma OfKindOne(job: Job, background: bool)
    ensures OfKind([job], background) == if job.background == background then [job] else []
  {
    assert [job][..0] == [];
  }

  /** No other job waits behind a validation. */
  ghost predicate BackgroundLast(queue: seq<Job>) {
    forall j, k :: 0 <= j < k < |queue| && queue[j].background ==> queue[k].background
  }

  ghost predicate AllOf(queue: seq<Job>, background: bool) {
    forall k :: 0 <= k < |queue| ==> queue[k].background == background
  }

  /** Where a new job goes: the jobs after its place are all validations, and those before a queued job are none. */
  lemma PlaceSplits(queue: seq<Job>, job: Job) returns (a: seq<Job>, b: seq<Job>)
    requires BackgroundLast(queue)
    ensures queue == a + b && Inserted(queue, job) == a + [job] + b
    ensures AllOf(b, true) && (if job.background then b == [] else AllOf(a, false))
  {
    var place := if job.background then |queue| else FirstBackground(queue);
    FirstIsFirst(queue);
    a, b := queue[..place], queue[place..];
  }

  lemma LastBetween(a: seq<Job>, job: Job, b: seq<Job>)
    requires BackgroundLast(a + b) && AllOf(b, true) && (if job.background then b == [] else AllOf(a, false))
    ensures BackgroundLast(a + [job] + b)
  {
    var queue := a + [job] + b;
    forall j, k | 0 <= j < k < |queue| && queue[j].background ensures queue[k].background {
      if k < |a| {
        assert (a + b)[j] == queue[j] && (a + b)[k] == queue[k];
      } else if k > |a| {
        assert queue[k] == b[k - |a| - 1];
      }
    }
  }

  /** A new job waits behind every job of its kind, and the kinds stay apart. */
  lemma InsertedInOrder(queue: seq<Job>, job: Job)
    requires BackgroundLast(queue)
    ensures BackgroundLast(Inserted(queue, job))
    ensures OfKind(Inserted(queue, job), job.background) == OfKind(queue, job.background) + [job]
    ensures OfKind(Inserted(queue, job), !job.background) == OfKind(queue, !job.background)
  {
    var a, b := PlaceSplits(queue, job);
    LastBetween(a, job, b);
    InsertedKinds(queue, job, a, b);
  }

  lemma InsertedKinds(queue: seq<Job>, job: Job, a: seq<Job>, b: seq<Job>)
    requires queue == a + b && Inserted(queue, job) == a + [job] + b && AllOf(b, true) && (job.background ==> b == [])
    ensures OfKind(Inserted(queue, job), job.background) == OfKind(queue, job.background) + [job]
    ensures OfKind(Inserted(queue, job), !job.background) == OfKind(queue, !job.background)
  {
    KindsBetween(a, job, b, job.background);
    KindsBetween(a, job, b, !job.background);
    AllOfKind(b);
    assert OfKind(b, job.background) == [];
  }

  lemma KindsBetween(a: seq<Job>, job: Job, b: seq<Job>, background: bool)
    ensures OfKind(a + [job] + b, background) ==
            OfKind(a, background) + (if job.background == background then [job] else []) + OfKind(b, background)
    ensures OfKind(a + b, background) == OfKind(a, background) + OfKind(b, background)
  {
    OfKindJoins(a + [job], b, background);
    OfKindJoins(a, [job], background);
    OfKindJoins(a, b, background);
    OfKindOne(job, background);
  }

  lemma {:induction false} FirstIsFirst(queue: seq<Job>)
    ensures var place := FirstBackground(queue);
            && (forall k :: 0 <= k < place ==> !queue[k].background)
            && (place < |queue| ==> queue[place].background)
  {
    if queue != [] && !queue[0].background {
      FirstIsFirst(queue[1..]);
      var place := FirstBackground(queue[1..]);
      forall k | 0 <= k < place + 1 ensures !queue[k].background {
        if k > 0 { assert queue[k] == queue[1..][k - 1]; }
      }
    }
  }

  lemma {:induction false} AllOfKind(queue: seq<Job>)
    ensures AllOf(queue, true) ==> OfKind(queue, false) == []
  {
    if queue != [] { AllOfKind(queue[..|queue| - 1]); }
  }

  /** Dropping jobs works on each part of the queue alone, so it keeps the order. */
  lemma {:induction false} WithoutJoins(a: seq<Job>, b: seq<Job>, dropped: Job -> bool)
    ensures Without(a + b, dropped) == Without(a, dropped) + Without(b, dropped)
  {
    if b == [] {
      assert a + b == a;
    } else {
      var rest := b[..|b| - 1];
      WithoutJoins(a, rest, dropped);
      assert (a + b)[..|a + b| - 1] == a + rest;
    }
  }

  /** It takes every job that the filter selects, and no other one. */
  lemma {:induction false} WithoutFilters(queue: seq<Job>, dropped: Job -> bool)
    ensures forall job :: job in Without(queue, dropped) <==> job in queue && !dropped(job)
    ensures |queue| == 1 ==> Without(queue, dropped) == if dropped(queue[0]) then [] else queue
  {
    if queue != [] {
      var rest := queue[..|queue| - 1];
      WithoutFilters(rest, dropped);
      assert queue == rest + [queue[|queue| - 1]];
    }
  }

  /** What a queued request drops: a validation the older validations, and three helpers their older requests. */
  lemma TrimmedExactly(queue: seq<Job>, op: Op, background: bool, job: Job)
    ensures job in Trimmed(queue, op, background) <==>
              && job in queue && !(background && job.background)
              && !(op.Aside? && op.name in {"stationLayout", "measurements", "observationScope"}
                   && job.op.Aside? && job.op.name == op.name)
  {
    WithoutFilters(queue, IsBackground());
    if IsReplaced(op) {
      WithoutFilters(WithoutBackground(queue, background), Requests(op.name));
    }
  }

  lemma {:induction false} WithoutKeepsLast(queue: seq<Job>, dropped: Job -> bool)
    requires BackgroundLast(queue)
    ensures BackgroundLast(Without(queue, dropped))
  {
    if queue != [] {
      var rest, last := queue[..|queue| - 1], queue[|queue| - 1];
      WithoutKeepsLast(rest, dropped);
      WithoutFilters(rest, dropped);
      if !last.background && !dropped(last) {
        forall job | job in Without(rest, dropped) ensures !job.background {
          var j :| 0 <= j < |rest| && rest[j] == job;
          assert queue[j] == job;
        }
      }
    }
  }

  /** Queueing keeps the order of the client's queue, and refuses exactly when eight jobs are left. */
  lemma EnqueueInOrder(c: Client, config: Config, op: Op, background: bool)
    requires BackgroundLast(c.queue)
    ensures var (c', queued) := AfterEnqueue(c, config, op, background);
            var left := Trimmed(c.queue, op, background);
            var job := Job(c.nextID + 1, config, op, background);
            && BackgroundLast(c'.queue) && (queued <==> |left| < 8)
            && (queued ==> OfKind(c'.queue, background) == OfKind(left, background) + [job])
            && (queued ==> OfKind(c'.queue, !background) == OfKind(left, !background))
            && (!queued ==> c'.queue == left && c'.nextID == c.nextID)
            && c'.active == c.active && c'.sent == c.sent
  {
    if background { WithoutKeepsLast(c.queue, IsBackground()); }
    var others := WithoutBackground(c.queue, background);
    if IsReplaced(op) { WithoutKeepsLast(others, Requests(op.name)); }
    InsertedInOrder(Trimmed(c.queue, op, background), Job(c.nextID + 1, config, op, background));
  }

  /** An acceptance goes before every validation, and drops the validations of other drafts first. */
  lemma AcceptInOrder(c: Client, config: Config, token: nat)
    requires BackgroundLast(c.queue)
    ensures var (c', queued) := AfterAccept(c, config, token);
            var left := Without(c.queue, OtherBackground(config));
            && BackgroundLast(c'.queue)
            && (queued ==> OfKind(c'.queue, false) ==
                             OfKind(left, false) + [Job(c.nextID + 1, config, History(Accept(token)), false)])
            && (forall job :: job in left <==> job in c.queue && !(job.background && job.config != config))
  {
    var kept := c.(queue := Without(c.queue, OtherBackground(config)));
    WithoutKeepsLast(c.queue, OtherBackground(config));
    WithoutFilters(c.queue, OtherBackground(config));
    EnqueueInOrder(kept, config, History(Accept(token)), false);
    assert Trimmed(kept.queue, History(Accept(token)), false) == kept.queue;
  }

  // ----- messages -----

  /** A delta has exactly the members whose object is new to the worker. */
  lemma PatchIsChanged(content: nat -> string, config: Config, sent: Config, key: string)
    ensures key in Patch(content, config, sent) <==> key in config && (key in sent ==> sent[key] != config[key])
    ensures key in Patch(content, config, sent) ==> Patch(content, config, sent)[key] == content(config[key])
  {
  }

  /** A message tells the operation and its plan. Only edits and captures send the delta; a helper that needs the
      project gets all of it. */
  lemma MessageTells(content: nat -> string, job: Job, sent: Config)
    ensures var m := MessageFor(content, job, sent);
            match job.op
            case Delta(name, plan) =>
              && m.DeltaMessage? && m.name == name && m.plan == plan && m.keys == job.config.Keys
              && Rebuilt(Texts(content, sent), m.keys, m.patch) == Texts(content, job.config)
            case Aside(name, plan, whole) =>
              && m.AsideMessage? && m.name == name && m.plan == plan && (m.project.Some? <==> whole)
              && (whole ==> m.project.value == map key | key in job.config :: content(job.config[key]))
            case History(command) =>
              if command.Prepare? && command.kind in {Reset, Replace, CommitFrom}
              then && m.CreateMessage? && m.command == command && m.keys == job.config.Keys
                   && Rebuilt(Texts(content, sent), m.keys, m.patch) == Texts(content, job.config)
              else m == PlainMessage(command)
  {
    DeltaRebuilds(content, job.config, sent);
  }

  /** The engine refuses a patch that names members it cannot fill, and every other one replaces the branches, also
      when they do not decode to a valid project. */
  lemma SyncRefuses(e: Engine, keys: set<string>, patch: Project, verdict: Verdict)
    ensures var (e', v) := AfterSync(e, keys, patch, verdict);
            && (v == SyncRefused <==>
                  verdict == SyncRefused || (exists key :: key in patch && key !in keys)
                  || (exists key :: key in keys && key !in patch && key !in e.branches))
            && (v == SyncRefused ==> e' == e)
            && (v != SyncRefused ==> v == verdict && e'.ready && e'.timeline == e.timeline && e'.branches.Keys == keys
                                     && forall key :: key in keys ==>
                                          e'.branches[key] == if key in patch then patch[key] else e.branches[key])
  {
  }
}
