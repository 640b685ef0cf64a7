/** What the message loop promises, iteration by iteration and over a whole run. */
module Properties {
  import opened Effects
  import opened Analysis
  import opened Consumer

  /** The broker-facing part of the map from failures to outcomes, written as a decision
      table over the inputs, independently of the order of the calls. */
  datatype Verdict =
    | Skipped
    | Acked(tag: Tag)
    | Discarded(tag: Tag)           // nack, requeue: false
    | Requeued(tag: Tag)            // reject, requeue: true, then re-raise
    | AckedThenDiscarded(tag: Tag)  // the publish after the ack raised a discarding exception
    | AckedThenRequeued(tag: Tag)   // the publish after the ack raised any other exception

  /** The rescue clause an exception class reaches. */
  function Disposal(tag: Tag, k: ErrorKind): Verdict
  {
    if k == OtherError then Requeued(tag) else Discarded(tag)
  }

  function Classify(p: Poll): Verdict
  {
    match p.msg
    case None => Skipped
    case Some(d) =>
      match d.body
      case Malformed => Discarded(d.tag)
      case Parsed(None) => Requeued(d.tag)
      case Parsed(Some(id)) =>
        var env := p.env;
        if id !in env.dirs then Discarded(d.tag)
        else if FirstFailure(Analyzers, env).Some? then Disposal(d.tag, FirstFailure(Analyzers, env).value)
        else if env.upsertError.Some? then Disposal(d.tag, env.upsertError.value)
        else if env.publishError.Some? then
          (if env.publishError.value == OtherError then AckedThenRequeued(d.tag) else AckedThenDiscarded(d.tag))
        else Acked(d.tag)
  }

  /** The acks, nacks and rejects a verdict stands for. */
  function Settles(v: Verdict): seq<Effect>
  {
    match v
    case Skipped => []
    case Acked(tag) => [Ack(tag)]
    case Discarded(tag) => [Nack(tag, false)]
    case Requeued(tag) => [Reject(tag, true)]
    case AckedThenDiscarded(tag) => [Ack(tag), Nack(tag, false)]
    case AckedThenRequeued(tag) => [Ack(tag), Reject(tag, true)]
  }

  predicate Fatal(v: Verdict)
  {
    v.Requeued? || v.AckedThenRequeued?
  }

  /** An empty pop makes no other call and the loop goes on. */
  lemma EmptyPopSkips(languageId: int, env: Env)
    ensures StepTrace(languageId, Poll(None, env)) == [Pop(None)]
    ensures !StepHalts(languageId, Poll(None, env))
  {
  }

  /** A body JSON.parse rejects is nacked without requeue and nothing else is called. */
  lemma MalformedBodyDiscarded(languageId: int, tag: Tag, env: Env)
    ensures StepTrace(languageId, Poll(Some(Delivery(tag, Malformed)), env)) == [Pop(Some(tag)), Nack(tag, false)]
    ensures !StepHalts(languageId, Poll(Some(Delivery(tag, Malformed)), env))
  {
  }

  /** A missing repository directory: the existence check, then a nack without requeue;
      no analyzer, no upsert, no ack, no publish, and the loop goes on. */
  lemma MissingRepositoryDiscarded(languageId: int, tag: Tag, id: RepoId, env: Env)
    requires id !in env.dirs
    ensures StepTrace(languageId, Poll(Some(Delivery(tag, Parsed(Some(id)))), env))
              == [Pop(Some(tag)), Resolve(id), Nack(tag, false)]
    ensures !StepHalts(languageId, Poll(Some(Delivery(tag, Parsed(Some(id)))), env))
  {
    MissingDirectory(id, env);
  }

  /** A parsed body without a usable repo_id reaches the catch-all: reject with requeue,
      re-raise, and the loop ends; no directory check and no analyzer runs. */
  lemma UnusableRepoIdRequeues(languageId: int, tag: Tag, env: Env)
    ensures StepTrace(languageId, Poll(Some(Delivery(tag, Parsed(None))), env))
              == [Pop(Some(tag)), Reject(tag, true), Raise]
    ensures StepHalts(languageId, Poll(Some(Delivery(tag, Parsed(None))), env))
  {
    UnusableRepoId(env);
  }

  /** A job that goes through: the three analyzers in order, one upsert keyed by the
      repository holding exactly their three scores, the ack, then one completion message
      for the same repository and the language id, routed "gc". */
  lemma SuccessfulStep(languageId: int, tag: Tag, id: RepoId, env: Env)
    requires id in env.dirs && AllSucceed(Analyzers, env)
    requires env.upsertError.None? && env.publishError.None?
    ensures env.flog.Done? && env.rubyCritic.Done? && env.cycromatic.Done?
    ensures StepTrace(languageId, Poll(Some(Delivery(tag, Parsed(Some(id)))), env)) ==
              [Pop(Some(tag)), Resolve(id),
               Analyze(Flog, id), Analyze(RubyCritic, id), Analyze(Cycromatic, id),
               Upsert(id, map[Flog := env.flog.value, RubyCritic := env.rubyCritic.value,
                              Cycromatic := env.cycromatic.value]),
               Ack(tag), Publish(Completion(id, languageId), "gc")]
    ensures !StepHalts(languageId, Poll(Some(Delivery(tag, Parsed(Some(id)))), env))
  {
    SuccessfulAnalysis(id, env);
  }

  /** The analyzer at position j is the first to raise: the analyzers up to it have been
      called, there is no upsert, no ack and no publish, and the exception's class decides:
      a generic error is rejected with requeue and re-raised, JSON::ParserError and
      FileNotFound are nacked without requeue. */
  lemma FailingAnalyzerStep(languageId: int, tag: Tag, id: RepoId, env: Env, j: nat)
    requires id in env.dirs
    requires j < |Analyzers| && AllSucceed(Analyzers[..j], env) && AnalyzerOutcome(env, Analyzers[j]).Raised?
    ensures StepTrace(languageId, Poll(Some(Delivery(tag, Parsed(Some(id)))), env)) ==
              [Pop(Some(tag)), Resolve(id)] + Calls(Analyzers[..j + 1], id)
              + (if AnalyzerOutcome(env, Analyzers[j]).kind == OtherError then [Reject(tag, true), Raise]
                 else [Nack(tag, false)])
    ensures StepHalts(languageId, Poll(Some(Delivery(tag, Parsed(Some(id)))), env)) <==>
              AnalyzerOutcome(env, Analyzers[j]).kind == OtherError
    ensures forall e :: e in StepTrace(languageId, Poll(Some(Delivery(tag, Parsed(Some(id)))), env)) ==>
              !e.Upsert? && !e.Ack? && !e.Publish?
  {
    FailingAnalyzer(id, env, j);
    CallsAreAnalyses(Analyzers[..j + 1], id);
  }

  /** Every analyzer returned but the upsert raised: no ack, no publish, and the
      exception's class decides as above. */
  lemma FailingUpsertStep(languageId: int, tag: Tag, id: RepoId, env: Env)
    requires id in env.dirs && AllSucceed(Analyzers, env) && env.upsertError.Some?
    ensures env.flog.Done? && env.rubyCritic.Done? && env.cycromatic.Done?
    ensures StepTrace(languageId, Poll(Some(Delivery(tag, Parsed(Some(id)))), env)) ==
              [Pop(Some(tag)), Resolve(id),
               Analyze(Flog, id), Analyze(RubyCritic, id), Analyze(Cycromatic, id),
               Upsert(id, map[Flog := env.flog.value, RubyCritic := env.rubyCritic.value,
                              Cycromatic := env.cycromatic.value])]
              + (if env.upsertError.value == OtherError then [Reject(tag, true), Raise] else [Nack(tag, false)])
    ensures StepHalts(languageId, Poll(Some(Delivery(tag, Parsed(Some(id)))), env)) <==>
              env.upsertError.value == OtherError
  {
    FailingUpsert(id, env);
  }

  /** The publish raised: the message has already been acked, so a generic error adds a
      reject with requeue on the same tag and the re-raise. */
  lemma FailingPublishStep(languageId: int, tag: Tag, id: RepoId, env: Env)
    requires id in env.dirs && AllSucceed(Analyzers, env)
    requires env.upsertError.None? && env.publishError.Some?
    ensures env.flog.Done? && env.rubyCritic.Done? && env.cycromatic.Done?
    ensures StepTrace(languageId, Poll(Some(Delivery(tag, Parsed(Some(id)))), env)) ==
              [Pop(Some(tag)), Resolve(id),
               Analyze(Flog, id), Analyze(RubyCritic, id), Analyze(Cycromatic, id),
               Upsert(id, map[Flog := env.flog.value, RubyCritic := env.rubyCritic.value,
                              Cycromatic := env.cycromatic.value]),
               Ack(tag), Publish(Completion(id, languageId), "gc")]
              + (if env.publishError.value == OtherError then [Reject(tag, true), Raise] else [Nack(tag, false)])
    ensures StepHalts(languageId, Poll(Some(Delivery(tag, Parsed(Some(id)))), env)) <==>
              env.publishError.value == OtherError
  {
    SuccessfulAnalysis(id, env);
  }

  /** analyze_repo never returns false, so the "Metric calculation Error" raise cannot
      fire: once analyze_repo has returned, the begin block raises only if the publish does. */
  lemma NoMetricCalculationError(languageId: int, tag: Tag, repoId: Option<RepoId>, env: Env)
    requires RepoAnalysis(repoId, env).outcome.Done?
    ensures Attempt(languageId, Delivery(tag, Parsed(repoId)), env).outcome ==
              (if env.publishError.Some? then Raised(env.publishError.value) else Done(()))
  {
  }

  lemma {:induction false} CallsAreAnalyses(ms: seq<Metric>, id: RepoId)
    ensures |Calls(ms, id)| == |ms|
    ensures forall i :: 0 <= i < |Calls(ms, id)| ==> Calls(ms, id)[i] == Analyze(ms[i], id)
  {
    if ms != [] {
      CallsAreAnalyses(ms[1..], id);
    }
  }

  /** The analysis makes no ack, nack or reject. */
  lemma AnalysisSettlesNothing(repoId: Option<RepoId>, env: Env)
    ensures Filter(RepoAnalysis(repoId, env).effects, IsSettlement) == []
  {
    FilterNone(RepoAnalysis(repoId, env).effects, IsSettlement);
  }

  /** What the rescue clauses send to the broker, without the re-raise. */
  lemma RescueSettles(tag: Tag, outcome: Outcome<()>)
    ensures Filter(Rescue(tag, outcome), IsSettlement) ==
              (if outcome.Done? then [] else Settles(Disposal(tag, outcome.kind)))
  {
    if outcome.Raised? {
      if outcome.kind == OtherError {
        assert [Reject(tag, true), Raise][1..] == [Raise];
        assert Filter([Raise], IsSettlement) == [] by {
          assert [Raise][1..] == [];
        }
      } else {
        assert [Nack(tag, false)][1..] == [];
      }
    }
  }

  /** The begin block acks exactly when analyze_repo returns, once, and makes no other
      ack, nack or reject. */
  lemma AttemptSettles(languageId: int, d: Delivery, env: Env)
    ensures Filter(Attempt(languageId, d, env).effects, IsSettlement) ==
              (if d.body.Parsed? && RepoAnalysis(d.body.repoId, env).outcome.Done? then [Ack(d.tag)] else [])
  {
    if d.body.Parsed? {
      var repoId := d.body.repoId;
      var analysis := RepoAnalysis(repoId, env);
      AnalysisSettlesNothing(repoId, env);
      if analysis.outcome.Done? {
        var tail := [Ack(d.tag), Publish(Completion(repoId.value, languageId), RoutingKey)];
        assert Attempt(languageId, d, env).effects == analysis.effects + tail;
        FilterAppend(analysis.effects, tail, IsSettlement);
        assert tail == [tail[0]] + [tail[1]];
        FilterAppend([tail[0]], [tail[1]], IsSettlement);
        FilterNone([tail[1]], IsSettlement);
        assert [tail[0]][1..] == [];
      }
    }
  }

  /** The decision table agrees with the exception that escapes the begin block. */
  lemma AttemptMatchesVerdict(languageId: int, d: Delivery, env: Env)
    ensures var acked := d.body.Parsed? && RepoAnalysis(d.body.repoId, env).outcome.Done?;
            var outcome := Attempt(languageId, d, env).outcome;
            !acked ==> outcome.Raised? && Classify(Poll(Some(d), env)) == Disposal(d.tag, outcome.kind)
    ensures var acked := d.body.Parsed? && RepoAnalysis(d.body.repoId, env).outcome.Done?;
            var outcome := Attempt(languageId, d, env).outcome;
            acked ==> Classify(Poll(Some(d), env)) ==
                        (if outcome.Done? then Acked(d.tag)
                         else if outcome.kind == OtherError then AckedThenRequeued(d.tag)
                         else AckedThenDiscarded(d.tag))
  {
    if d.body.Parsed? && d.body.repoId.Some? && d.body.repoId.value in env.dirs {
      CollectOutcome(Analyzers, d.body.repoId.value, env);
    }
  }

  /** The acks, nacks and rejects of an iteration that got a message: those of the begin
      block, then those of the rescue clause. */
  lemma StepSettles(languageId: int, d: Delivery, env: Env)
    ensures Filter(StepTrace(languageId, Poll(Some(d), env)), IsSettlement) ==
              Filter(Attempt(languageId, d, env).effects, IsSettlement)
              + Filter(Rescue(d.tag, Attempt(languageId, d, env).outcome), IsSettlement)
  {
    var attempt := Attempt(languageId, d, env);
    var pop := [Pop(Some(d.tag))];
    assert StepTrace(languageId, Poll(Some(d), env)) == pop + attempt.effects + Rescue(d.tag, attempt.outcome);
    FilterAppend(pop, attempt.effects, IsSettlement);
    FilterAppend(pop + attempt.effects, Rescue(d.tag, attempt.outcome), IsSettlement);
    assert Filter(pop, IsSettlement) == [] by {
      assert pop[1..] == [];
    }
  }

  /** An iteration re-raises exactly when the decision table calls its outcome fatal. */
  lemma StepHaltsIffFatal(languageId: int, p: Poll)
    ensures StepHalts(languageId, p) <==> Fatal(Classify(p))
  {
    if p.msg.Some? {
      var d := p.msg.value;
      var outcome := Attempt(languageId, d, p.env).outcome;
      AttemptMatchesVerdict(languageId, d, p.env);
      assert StepHalts(languageId, p) <==> outcome == Raised(OtherError);
    }
  }

  /** Each iteration acks, nacks and rejects exactly what the decision table says, and it
      re-raises exactly when the table calls the outcome fatal. */
  lemma StepMatchesVerdict(languageId: int, p: Poll)
    ensures Filter(StepTrace(languageId, p), IsSettlement) == Settles(Classify(p))
    ensures StepHalts(languageId, p) <==> Fatal(Classify(p))
  {
    StepHaltsIffFatal(languageId, p);
    if p.msg.Some? {
      var d := p.msg.value;
      var outcome := Attempt(languageId, d, p.env).outcome;
      StepSettles(languageId, d, p.env);
      RescueSettles(d.tag, outcome);
      AttemptSettles(languageId, d, p.env);
      AttemptMatchesVerdict(languageId, d, p.env);
      var acked := d.body.Parsed? && RepoAnalysis(d.body.repoId, p.env).outcome.Done?;
      if acked {
        if outcome.Raised? {
          assert Settles(Classify(p)) == [Ack(d.tag)] + Settles(Disposal(d.tag, outcome.kind));
        }
      }
    }
  }

  /** Unless the publish raises, a delivered message gets exactly one ack, nack or reject,
      for its own tag, within its own iteration, that is before the next pop. */
  lemma OneSettlementPerDelivery(languageId: int, p: Poll)
    requires p.msg.Some? && p.env.publishError.None?
    ensures var tag := p.msg.value.tag;
              Filter(StepTrace(languageId, p), IsSettlement) in {[Ack(tag)], [Nack(tag, false)], [Reject(tag, true)]}
    ensures |Filter(StepTrace(languageId, p), IsSettlement)| == 1
  {
    StepMatchesVerdict(languageId, p);
  }

  /** The re-raise can only be the last call of a run, and it is there exactly when some
      iteration hits the catch-all: after it, nothing is popped or called. */
  lemma {:induction false} RunRaiseIsLast(languageId: int, polls: seq<Poll>)
    ensures forall i :: 0 <= i < |RunTrace(languageId, polls)| - 1 ==> !RunTrace(languageId, polls)[i].Raise?
    ensures RunHalts(languageId, polls) <==>
              |RunTrace(languageId, polls)| > 0 && RunTrace(languageId, polls)[|RunTrace(languageId, polls)| - 1].Raise?
  {
    if polls != [] && !StepHalts(languageId, polls[0]) {
      RunRaiseIsLast(languageId, polls[1..]);
      var head := StepTrace(languageId, polls[0]);
      var rest := RunTrace(languageId, polls[1..]);
      assert RunTrace(languageId, polls) == head + rest;
      assert forall i :: 0 <= i < |head| ==> !head[i].Raise?;
      if rest == [] {
        assert head + rest == head;
      } else {
        assert (head + rest)[|head + rest| - 1] == rest[|rest| - 1];
      }
    }
  }

  /** A run pops exactly as many times as it takes polls. */
  lemma {:induction false} RunPopsConsumed(languageId: int, polls: seq<Poll>)
    ensures |Filter(RunTrace(languageId, polls), IsPop)| == Consumed(languageId, polls)
  {
    if polls != [] {
      var head := StepTrace(languageId, polls[0]);
      assert head == [head[0]] + head[1..];
      FilterAppend([head[0]], head[1..], IsPop);
      FilterNone(head[1..], IsPop);
      if !StepHalts(languageId, polls[0]) {
        RunPopsConsumed(languageId, polls[1..]);
        FilterAppend(head, RunTrace(languageId, polls[1..]), IsPop);
      }
    }
  }

  /** When no publish raises, a run makes exactly as many acks, nacks and rejects as it
      receives messages. */
  lemma {:induction false} RunSettlesEveryDelivery(languageId: int, polls: seq<Poll>)
    requires forall i :: 0 <= i < |polls| ==> polls[i].env.publishError.None?
    ensures |Filter(RunTrace(languageId, polls), IsSettlement)| == |Filter(RunTrace(languageId, polls), IsDelivery)|
  {
    if polls != [] {
      var p := polls[0];
      var head := StepTrace(languageId, p);
      assert head == [head[0]] + head[1..];
      FilterAppend([head[0]], head[1..], IsDelivery);
      FilterNone(head[1..], IsDelivery);
      assert |Filter(head, IsDelivery)| == if p.msg.Some? then 1 else 0;
      if p.msg.Some? {
        OneSettlementPerDelivery(languageId, p);
      } else {
        assert head == [Pop(None)];
      }
      if !StepHalts(languageId, p) {
        assert forall i :: 0 <= i < |polls[1..]| ==> polls[1..][i].env.publishError.None? by {
          assert forall i :: 0 <= i < |polls[1..]| ==> polls[1..][i] == polls[i + 1];
        }
        RunSettlesEveryDelivery(languageId, polls[1..]);
        var rest := RunTrace(languageId, polls[1..]);
        FilterAppend(head, rest, IsSettlement);
        FilterAppend(head, rest, IsDelivery);
      }
    }
  }
}
