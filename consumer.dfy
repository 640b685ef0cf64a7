/** The message loop: pop one message, run the begin block on it, settle it with the
    broker according to the rescue clause that caught its exception, and stop for good
    after the catch-all clause re-raises. */
module Consumer {
  import opened Effects
  import opened Analysis

  /** The begin block on one delivered message: its calls, and the exception that escapes
      it, if any. */
  function Attempt(languageId: int, d: Delivery, env: Env): (r: Trace<()>)
    ensures forall i :: 0 <= i < |r.effects| ==> !r.effects[i].Pop? && !r.effects[i].Raise?
    ensures forall i :: 0 <= i < |r.effects| && r.effects[i].Ack? ==> r.effects[i].tag == d.tag
    ensures d.body.Malformed? ==> r == Trace([], Raised(ParserError))
  {
    match d.body
    case Malformed => Trace([], Raised(ParserError))
    case Parsed(repoId) =>
      var analysis := RepoAnalysis(repoId, env);
      match analysis.outcome
      case Raised(k) => Trace(analysis.effects, Raised(k))
      case Done(ok) =>
        if !ok then Trace(analysis.effects, Raised(OtherError))  // "Metric calculation Error"
        else
          var effects := analysis.effects
            + [Ack(d.tag), Publish(Completion(repoId.value, languageId), RoutingKey)];
          match env.publishError
          case Some(k) => Trace(effects, Raised(k))
          case None => Trace(effects, Done(()))
  }

  /** What the rescue clause matching an escaped exception sends to the broker. */
  function Rescue(tag: Tag, outcome: Outcome<()>): seq<Effect>
  {
    match outcome
    case Done(_) => []
    case Raised(ParserError) => [Nack(tag, false)]
    case Raised(FileNotFound) => [Nack(tag, false)]
    case Raised(OtherError) => [Reject(tag, true), Raise]
  }

  /** One iteration of the loop: the pop, then (for a delivered message) the begin block
      and its rescue. */
  function StepTrace(languageId: int, p: Poll): (t: seq<Effect>)
    ensures |t| > 0 && t[0] == Pop(Popped(p.msg))
    ensures forall i :: 0 < i < |t| ==> !t[i].Pop?
    ensures forall i :: 0 <= i < |t| - 1 ==> !t[i].Raise?
    ensures t[|t| - 1].Raise? <==> StepHalts(languageId, p)
  {
    match p.msg
    case None => [Pop(None)]
    case Some(d) =>
      var attempt := Attempt(languageId, d, p.env);
      [Pop(Some(d.tag))] + attempt.effects + Rescue(d.tag, attempt.outcome)
  }

  /** The iteration re-raises, which ends the loop and the process. */
  predicate StepHalts(languageId: int, p: Poll)
  {
    p.msg.Some? && Attempt(languageId, p.msg.value, p.env).outcome == Raised(OtherError)
  }

  /** The loop over successive polls, up to and including the first that re-raises. */
  function RunTrace(languageId: int, polls: seq<Poll>): seq<Effect>
  {
    if polls == [] then []
    else if StepHalts(languageId, polls[0]) then StepTrace(languageId, polls[0])
    else StepTrace(languageId, polls[0]) + RunTrace(languageId, polls[1..])
  }

  /** How many polls the loop takes before it stops or runs out of them. */
  function Consumed(languageId: int, polls: seq<Poll>): (n: nat)
    ensures n <= |polls|
  {
    if polls == [] then 0
    else if StepHalts(languageId, polls[0]) then 1
    else 1 + Consumed(languageId, polls[1..])
  }

  /** Some poll the loop takes re-raises. */
  predicate RunHalts(languageId: int, polls: seq<Poll>)
  {
    polls != [] && (StepHalts(languageId, polls[0]) || RunHalts(languageId, polls[1..]))
  }

  /** The loop from poll i on, when iteration i does not re-raise: iteration i, then the
      loop from poll i + 1 on; `done` is what precedes poll i. */
  lemma RunContinues(languageId: int, polls: seq<Poll>, i: nat, start: seq<Effect>, done: seq<Effect>)
    requires i < |polls| && !StepHalts(languageId, polls[i])
    requires start + RunTrace(languageId, polls) == done + RunTrace(languageId, polls[i..])
    ensures start + RunTrace(languageId, polls)
              == (done + StepTrace(languageId, polls[i])) + RunTrace(languageId, polls[i + 1..])
    ensures Consumed(languageId, polls[i..]) == 1 + Consumed(languageId, polls[i + 1..])
    ensures RunHalts(languageId, polls[i..]) == RunHalts(languageId, polls[i + 1..])
  {
    assert polls[i..][0] == polls[i];
    assert polls[i..][1..] == polls[i + 1..];
  }

  /** The loop from poll i on, when iteration i re-raises: iteration i and nothing after. */
  lemma RunStops(languageId: int, polls: seq<Poll>, i: nat)
    requires i < |polls| && StepHalts(languageId, polls[i])
    ensures RunTrace(languageId, polls[i..]) == StepTrace(languageId, polls[i])
    ensures Consumed(languageId, polls[i..]) == 1
    ensures RunHalts(languageId, polls[i..])
  {
    assert polls[i..][0] == polls[i];
  }

  /** The worker process: what it has done so far and whether it has crashed out of its
      loop. The broker channel, the exchange and the database handle are its environment. */
  class Worker {
    /** The language id the completion messages carry. */
    const languageId: int
    var trace: seq<Effect>
    var halted: bool

    constructor (languageId: int)
      ensures this.languageId == languageId && trace == [] && !halted
    {
      this.languageId := languageId;
      trace := [];
      halted := false;
    }

    /** One analyzer call on the repository. */
    method RunAnalyzer(m: Metric, id: RepoId, env: Env) returns (r: Outcome<Score>)
      modifies this`trace
      ensures trace == old(trace) + [Analyze(m, id)]
      ensures r == AnalyzerOutcome(env, m)
    {
      trace := trace + [Analyze(m, id)];
      r := AnalyzerOutcome(env, m);
    }

    /** analyze_repo: a usable id, an existing directory, three analyzer calls in hash
        order, one upsert; the first exception escapes. */
    method AnalyzeRepo(repoId: Option<RepoId>, env: Env) returns (r: Outcome<bool>)
      modifies this`trace
      ensures trace == old(trace) + RepoAnalysis(repoId, env).effects
      ensures r == RepoAnalysis(repoId, env).outcome
    {
      if repoId.None? {
        return Raised(OtherError);  // the indexing or File.join raises
      }
      var id := repoId.value;
      trace := trace + [Resolve(id)];
      if id !in env.dirs {
        MissingDirectory(id, env);
        return Raised(FileNotFound);
      }
      var flog := RunAnalyzer(Flog, id, env);
      if flog.Raised? {
        FailingAnalyzer(id, env, 0);
        assert Analyzers[..1] == [Flog];
        return Raised(flog.kind);
      }
      var critic := RunAnalyzer(RubyCritic, id, env);
      if critic.Raised? {
        assert Analyzers[..1] == [Flog];
        FailingAnalyzer(id, env, 1);
        assert Analyzers[..2] == [Flog, RubyCritic];
        assert [Flog, RubyCritic][1..] == [RubyCritic];
        assert Calls([RubyCritic], id) == [Analyze(RubyCritic, id)];
        assert Calls([Flog, RubyCritic], id) == [Analyze(Flog, id), Analyze(RubyCritic, id)];
        return Raised(critic.kind);
      }
      var cyclo := RunAnalyzer(Cycromatic, id, env);
      if cyclo.Raised? {
        assert Analyzers[..2] == [Flog, RubyCritic];
        FailingAnalyzer(id, env, 2);
        assert Analyzers[..3] == Analyzers;
        CallsOfAnalyzers(id);
        return Raised(cyclo.kind);
      }
      var metrics := map[Flog := flog.value, RubyCritic := critic.value, Cycromatic := cyclo.value];
      trace := trace + [Upsert(id, metrics)];
      assert AllSucceed(Analyzers, env);
      CollectAnalyzers(id, env);
      if env.upsertError.Some? {
        return Raised(env.upsertError.value);
      }
      return Done(true);
    }

    /** The begin block: parse, analyze_repo, ack, publish. */
    method Process(d: Delivery, env: Env) returns (outcome: Outcome<()>)
      modifies this`trace
      ensures trace == old(trace) + Attempt(languageId, d, env).effects
      ensures outcome == Attempt(languageId, d, env).outcome
    {
      if d.body.Malformed? {
        return Raised(ParserError);  // JSON.parse raises JSON::ParserError
      }
      var repoId := d.body.repoId;
      var analyzed := AnalyzeRepo(repoId, env);
      if analyzed.Raised? {
        return Raised(analyzed.kind);
      }
      if !analyzed.value {
        return Raised(OtherError);  // raise "Metric calculation Error"
      }
      trace := trace + [Ack(d.tag)];
      trace := trace + [Publish(Completion(repoId.value, languageId), RoutingKey)];
      if env.publishError.Some? {
        return Raised(env.publishError.value);
      }
      return Done(());
    }

    /** One iteration of the loop body. */
    method Step(p: Poll)
      requires !halted
      modifies this
      ensures trace == old(trace) + StepTrace(languageId, p)
      ensures halted == StepHalts(languageId, p)
    {
      trace := trace + [Pop(Popped(p.msg))];
      if p.msg.None? {
        return;  // next if payload == nil
      }
      var d := p.msg.value;
      var outcome := Process(d, p.env);
      match outcome {
        case Done(_) =>
        case Raised(ParserError) =>
          trace := trace + [Nack(d.tag, false)];
        case Raised(FileNotFound) =>
          trace := trace + [Nack(d.tag, false)];
        case Raised(OtherError) =>
          trace := trace + [Reject(d.tag, true), Raise];
          halted := true;
      }
    }

    /** The loop, over the polls the queue answers, until a re-raise ends it. Returns how
        many polls it took. */
    method Run(polls: seq<Poll>) returns (consumed: nat)
      requires !halted
      modifies this
      ensures consumed == Consumed(languageId, polls)
      ensures trace == old(trace) + RunTrace(languageId, polls)
      ensures halted == RunHalts(languageId, polls)
    {
      consumed := 0;
      assert polls[0..] == polls;
      while consumed < |polls| && !halted
        invariant consumed <= |polls|
        invariant !halted ==> old(trace) + RunTrace(languageId, polls) == trace + RunTrace(languageId, polls[consumed..])
        invariant !halted ==> Consumed(languageId, polls) == consumed + Consumed(languageId, polls[consumed..])
        invariant !halted ==> RunHalts(languageId, polls) == RunHalts(languageId, polls[consumed..])
        invariant halted ==> trace == old(trace) + RunTrace(languageId, polls)
        invariant halted ==> consumed == Consumed(languageId, polls) && RunHalts(languageId, polls)
        decreases |polls| - consumed
      {
        ghost var done := trace;
        var p := polls[consumed];
        Step(p);
        if halted {
          RunStops(languageId, polls, consumed);
        } else {
          RunContinues(languageId, polls, consumed, old(trace), done);
        }
        consumed := consumed + 1;
      }
    }
  }
}
