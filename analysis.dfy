/** analyze_repo: resolve the repository directory, run the analyzers in order, and
    upsert their composite record. */
module Analysis {
  import opened Effects

  /** The calls the metrics hash literal makes, one Analyze per analyzer in ms. */
  function Calls(ms: seq<Metric>, id: RepoId): seq<Effect>
  {
    if ms == [] then [] else [Analyze(ms[0], id)] + Calls(ms[1..], id)
  }

  predicate AllSucceed(ms: seq<Metric>, env: Env)
  {
    forall i :: 0 <= i < |ms| ==> AnalyzerOutcome(env, ms[i]).Done?
  }

  /** The class of the exception raised by the first analyzer in ms that raises. */
  function FirstFailure(ms: seq<Metric>, env: Env): Option<ErrorKind>
  {
    if ms == [] then None
    else match AnalyzerOutcome(env, ms[0])
      case Raised(k) => Some(k)
      case Done(_) => FirstFailure(ms[1..], env)
  }

  /** Evaluation of the metrics hash literal over the analyzers ms: each is called in
      turn on the repository, and the first that raises ends the evaluation. The calls
      made are those of a prefix of ms, in its order. */
  function Collect(ms: seq<Metric>, id: RepoId, env: Env): (r: Trace<map<Metric, Score>>)
    ensures |r.effects| <= |ms|
    ensures r.effects == Calls(ms[..|r.effects|], id)
    ensures forall i :: 0 <= i < |r.effects| ==> r.effects[i].Analyze? && r.effects[i].repoId == id
  {
    if ms == [] then Trace([], Done(map[]))
    else
      var call := [Analyze(ms[0], id)];
      match AnalyzerOutcome(env, ms[0])
      case Raised(k) =>
        assert ms[..1][1..] == [];
        Trace(call, Raised(k))
      case Done(s) =>
        var rest := Collect(ms[1..], id, env);
        assert ms[..|rest.effects| + 1][1..] == ms[1..][..|rest.effects|];
        match rest.outcome
        case Raised(k) => Trace(call + rest.effects, Raised(k))
        case Done(m) => Trace(call + rest.effects, Done(m[ms[0] := s]))
  }

  /** analyze_repo(repo_id) as a value: its calls on the filesystem, the analyzers and the
      database, and whether it returned (and what) or raised. */
  function RepoAnalysis(repoId: Option<RepoId>, env: Env): (r: Trace<bool>)
    ensures r.outcome.Done? ==> r.outcome.value
    ensures forall i :: 0 <= i < |r.effects| ==>
              r.effects[i].Resolve? || r.effects[i].Analyze? || r.effects[i].Upsert?
    ensures r.outcome.Done? ==> |r.effects| > 0 && r.effects[|r.effects| - 1].Upsert?
  {
    match repoId
    // payload["repo_id"] or File.join(REPOSITORIES_DIR, repo_id) raises before the directory check
    case None => Trace([], Raised(OtherError))
    case Some(id) =>
      if id !in env.dirs then Trace([Resolve(id)], Raised(FileNotFound))
      else
        var collected := Collect(Analyzers, id, env);
        match collected.outcome
        case Raised(k) => Trace([Resolve(id)] + collected.effects, Raised(k))
        case Done(metrics) =>
          var effects := [Resolve(id)] + collected.effects + [Upsert(id, metrics)];
          match env.upsertError
          case Some(k) => Trace(effects, Raised(k))
          case None => Trace(effects, Done(true))
  }

  /** When every analyzer returns, the hash literal calls each once, in order, and the
      composite holds exactly one entry per analyzer, its returned score. */
  lemma {:induction false} CollectSucceeds(ms: seq<Metric>, id: RepoId, env: Env)
    requires AllSucceed(ms, env)
    ensures Collect(ms, id, env).effects == Calls(ms, id)
    ensures Collect(ms, id, env).outcome.Done?
    ensures Collect(ms, id, env).outcome.value.Keys == set m | m in ms
    ensures forall m :: m in ms ==> Collect(ms, id, env).outcome.value[m] == AnalyzerOutcome(env, m).value
  {
    if ms != [] {
      assert AllSucceed(ms[1..], env) by {
        forall i | 0 <= i < |ms[1..]|
          ensures AnalyzerOutcome(env, ms[1..][i]).Done?
        {
          assert ms[1..][i] == ms[i + 1];
        }
      }
      CollectSucceeds(ms[1..], id, env);
      assert AnalyzerOutcome(env, ms[0]).Done?;
      assert (set m | m in ms) == {ms[0]} + (set m | m in ms[1..]) by {
        assert forall m :: m in ms <==> m == ms[0] || m in ms[1..];
      }
    }
  }

  /** When the analyzer at position j is the first to raise, the hash literal has called
      exactly the analyzers up to and including it, and raises that exception. */
  lemma {:induction false} CollectStopsAt(ms: seq<Metric>, id: RepoId, env: Env, j: nat)
    requires j < |ms| && AllSucceed(ms[..j], env) && AnalyzerOutcome(env, ms[j]).Raised?
    ensures Collect(ms, id, env) == Trace(Calls(ms[..j + 1], id), Raised(AnalyzerOutcome(env, ms[j]).kind))
  {
    if j == 0 {
      assert ms[..1] == [ms[0]];
      assert ms[..1][1..] == [];
    } else {
      assert AnalyzerOutcome(env, ms[0]).Done? by {
        assert ms[..j][0] == ms[0];
      }
      assert ms[1..][..j - 1] == ms[..j][1..];
      assert AllSucceed(ms[..j][1..], env) by {
        var done := ms[..j];
        assert forall i :: 0 <= i < |done| - 1 ==> done[1..][i] == done[i + 1];
      }
      CollectStopsAt(ms[1..], id, env, j - 1);
      assert ms[..j + 1][0] == ms[0];
      assert ms[..j + 1][1..] == ms[1..][..j];
    }
  }

  /** The hash literal raises exactly when some analyzer raises, and then with the
      exception of the first one that does. */
  lemma {:induction false} CollectOutcome(ms: seq<Metric>, id: RepoId, env: Env)
    ensures Collect(ms, id, env).outcome.Raised? <==> FirstFailure(ms, env).Some?
    ensures Collect(ms, id, env).outcome.Raised? ==>
              Collect(ms, id, env).outcome.kind == FirstFailure(ms, env).value
  {
    if ms != [] && AnalyzerOutcome(env, ms[0]).Done? {
      CollectOutcome(ms[1..], id, env);
    }
  }

  /** No analyzer raises exactly when the first failure is absent. */
  lemma {:induction false} NoFirstFailure(ms: seq<Metric>, env: Env)
    ensures FirstFailure(ms, env).None? <==> AllSucceed(ms, env)
  {
    if ms != [] {
      NoFirstFailure(ms[1..], env);
      if AnalyzerOutcome(env, ms[0]).Done? {
        assert AllSucceed(ms, env) <==> AllSucceed(ms[1..], env) by {
          assert forall i :: 0 < i < |ms| ==> ms[i] == ms[1..][i - 1];
        }
      }
    }
  }

  /** analyze_repo returns exactly when the repository id is usable, its directory exists,
      every analyzer returns and the upsert returns. */
  lemma AnalysisSucceedsIff(repoId: Option<RepoId>, env: Env)
    ensures RepoAnalysis(repoId, env).outcome.Done? <==>
              repoId.Some? && repoId.value in env.dirs && AllSucceed(Analyzers, env)
              && env.upsertError.None?
  {
    if repoId.Some? && repoId.value in env.dirs {
      CollectOutcome(Analyzers, repoId.value, env);
      NoFirstFailure(Analyzers, env);
    }
  }

  /** A missing directory raises FileNotFound right after the existence check, before
      any analyzer or upsert. */
  lemma MissingDirectory(id: RepoId, env: Env)
    requires id !in env.dirs
    ensures RepoAnalysis(Some(id), env) == Trace([Resolve(id)], Raised(FileNotFound))
  {
  }

  /** With no usable repository id, the indexing or File.join raises before anything else,
      and the exception is one the catch-all clause takes. */
  lemma UnusableRepoId(env: Env)
    ensures RepoAnalysis(None, env) == Trace([], Raised(OtherError))
  {
  }

  /** With every analyzer returning, the hash literal over flog, rubycritic and cycromatic
      calls the three in that order and builds the record of their three scores. */
  lemma CollectAnalyzers(id: RepoId, env: Env)
    requires AllSucceed(Analyzers, env)
    ensures env.flog.Done? && env.rubyCritic.Done? && env.cycromatic.Done?
    ensures Collect(Analyzers, id, env) == Trace(
              [Analyze(Flog, id), Analyze(RubyCritic, id), Analyze(Cycromatic, id)],
              Done(map[Flog := env.flog.value, RubyCritic := env.rubyCritic.value,
                       Cycromatic := env.cycromatic.value]))
  {
    assert AnalyzerOutcome(env, Analyzers[0]).Done?;
    assert AnalyzerOutcome(env, Analyzers[1]).Done?;
    assert AnalyzerOutcome(env, Analyzers[2]).Done?;
    CollectSucceeds(Analyzers, id, env);
    var metrics := Collect(Analyzers, id, env).outcome.value;
    assert Flog in Analyzers && RubyCritic in Analyzers && Cycromatic in Analyzers;
    assert metrics == map[Flog := env.flog.value, RubyCritic := env.rubyCritic.value,
                          Cycromatic := env.cycromatic.value];
    CallsOfAnalyzers(id);
  }

  lemma CallsOfAnalyzers(id: RepoId)
    ensures Calls(Analyzers, id) == [Analyze(Flog, id), Analyze(RubyCritic, id), Analyze(Cycromatic, id)]
  {
    assert Analyzers[1..] == [RubyCritic, Cycromatic];
    assert Analyzers[1..][1..] == [Cycromatic];
    assert Calls([Cycromatic], id) == [Analyze(Cycromatic, id)];
    assert Calls([RubyCritic, Cycromatic], id) == [Analyze(RubyCritic, id), Analyze(Cycromatic, id)];
  }

  /** On success: the directory check, the three analyzers in hash order, then one upsert
      keyed by the repository whose metrics are exactly the three returned scores. */
  lemma SuccessfulAnalysis(id: RepoId, env: Env)
    requires id in env.dirs && AllSucceed(Analyzers, env) && env.upsertError.None?
    ensures env.flog.Done? && env.rubyCritic.Done? && env.cycromatic.Done?
    ensures RepoAnalysis(Some(id), env) == Trace(
              [Resolve(id), Analyze(Flog, id), Analyze(RubyCritic, id), Analyze(Cycromatic, id),
               Upsert(id, map[Flog := env.flog.value, RubyCritic := env.rubyCritic.value,
                              Cycromatic := env.cycromatic.value])],
              Done(true))
  {
    CollectAnalyzers(id, env);
  }

  /** When the analyzer at position j of the hash literal is the first to raise, the
      analysis raises that exception after calling exactly the analyzers up to it, and
      no upsert is made. */
  lemma FailingAnalyzer(id: RepoId, env: Env, j: nat)
    requires id in env.dirs
    requires j < |Analyzers| && AllSucceed(Analyzers[..j], env) && AnalyzerOutcome(env, Analyzers[j]).Raised?
    ensures RepoAnalysis(Some(id), env) ==
              Trace([Resolve(id)] + Calls(Analyzers[..j + 1], id), Raised(AnalyzerOutcome(env, Analyzers[j]).kind))
    ensures forall e :: e in RepoAnalysis(Some(id), env).effects ==> !e.Upsert?
  {
    CollectStopsAt(Analyzers, id, env, j);
  }

  /** When every analyzer returns but the upsert raises, the analysis raises that exception
      after the upsert call. */
  lemma FailingUpsert(id: RepoId, env: Env)
    requires id in env.dirs && AllSucceed(Analyzers, env) && env.upsertError.Some?
    ensures env.flog.Done? && env.rubyCritic.Done? && env.cycromatic.Done?
    ensures RepoAnalysis(Some(id), env).outcome == Raised(env.upsertError.value)
    ensures RepoAnalysis(Some(id), env).effects ==
              [Resolve(id), Analyze(Flog, id), Analyze(RubyCritic, id), Analyze(Cycromatic, id),
               Upsert(id, map[Flog := env.flog.value, RubyCritic := env.rubyCritic.value,
                              Cycromatic := env.cycromatic.value])]
  {
    CollectAnalyzers(id, env);
  }
}
