# Ruby analysis worker: the message loop, modelled and proved in Dafny

The worker takes jobs from the durable RabbitMQ queue `analyze-ruby`, one at a time. Each
job names a repository that an earlier stage downloaded under `/repositories/`. The worker
runs three Ruby metric tools on it (flog, rubycritic, cycromatic). It upserts their
results as one `RubyMetric` row keyed by `repo_id`. Then it acks the message and publishes
`{repo_id, language_id}` with routing key `gc`. How a failure is settled with the broker
depends on the class of the exception:

- a body that is not JSON is nacked without requeue;
- a missing repository directory (`FileNotFound`) is nacked without requeue;
- any other exception is rejected with requeue and re-raised, which ends the loop and
  the process.

This project models `analyze_repo` and the body of the message loop in `main.rb`.

- `effects.dfy`, module `Effects`: the entities. These are the popped message
  (`Delivery`: a tag and what `JSON.parse` makes of the body), the collaborators'
  behaviour during one iteration (`Env`: existing directories, what each analyzer returns
  or raises, whether the upsert and the publish raise), and the exception classes the
  rescue clauses tell apart (`ErrorKind`). `Effect` lists the calls the worker makes, in
  order: pop, directory check, analyzer, upsert, ack, nack, reject, publish, and the
  final re-raise.
- `analysis.dfy`, module `Analysis`: `analyze_repo` as a value (`RepoAnalysis`). It is
  built on `Collect`, which evaluates the metrics hash literal analyzer by analyzer, with
  `FirstFailure` as an independent reference for which exception escapes.
- `consumer.dfy`, module `Consumer`: the spec functions for the begin block (`Attempt`),
  the rescue clauses (`Rescue`), one loop iteration (`StepTrace`, `StepHalts`) and a run
  (`RunTrace`, `Consumed`, `RunHalts`). It also holds the `Worker` class, whose `trace`
  and `halted` fields are updated by `AnalyzeRepo`, `Process` (the begin block), `Step`
  (one iteration) and `Run` (the `while` loop over successive polls). Each method is
  proved equal to its spec function.
- `properties.dfy`, module `Properties`: a decision table `Classify` written straight
  from the inputs, with `Settles` and `Fatal`. It also holds the lemmas that state what
  the loop promises, per iteration and over a whole run.

Exceptions are modelled by class, not by the stage that raised them, because this is how
the rescue clauses dispatch. Any collaborator call may raise any class: an analyzer, the
upsert or the publish. So "an analyzer or the upsert fails, the message is requeued and
the worker stops" holds for exceptions other than `JSON::ParserError` and `FileNotFound`.
If a collaborator raises one of those two, the message is nacked without requeue and the
loop goes on. The lemmas state both cases.

The trace records every call, including calls that raise. So a failing publish shows up
as `Ack(tag), Publish(...), Reject(tag, true), Raise`. The ack comes first because
`main.rb` acks before it publishes.

A parsed body is `Parsed(Some(s))` when the expression `payload["repo_id"]` evaluates to a
String `s` that `File.join` accepts, and `Parsed(None)` when it does not. For a JSON object
that is the value of its `"repo_id"` key. For a top-level JSON string, `String#[]` returns
the substring `"repo_id"` when the string contains it, and `nil` otherwise. `Parsed(None)`
arises in two ways:

- the indexing itself raises (`NoMethodError` or `TypeError`), because the document is
  `null`, `true`, `false`, a number or an array;
- `File.join` raises `TypeError` on the value: the key is absent, or its value is `nil` or
  not a string.

Either way no call has been made when the exception is raised, and it reaches the catch-all
clause: reject with requeue and re-raise. One might expect a missing `repo_id` to be
discarded like a malformed body. The code requeues it, and the model follows the code.

## Model

| member | source | states |
|---|---|---|
| Analysis.Collect | main.rb:43-47 | the calls the hash literal makes are one analyzer call on this repository for each analyzer of a prefix of the listed ones, in the listed order |
| Analysis.RepoAnalysis | main.rb:34-56 | analyze_repo returns only `true`; it calls only the filesystem, the analyzers and the database; when it returns, its last call was the upsert |
| Analysis.CollectSucceeds | main.rb:43-47 | when every analyzer returns, each is called once in order, and the composite has exactly one key per analyzer, holding that analyzer's score |
| Analysis.CollectStopsAt | main.rb:43-47 | when analyzer j is the first to raise, exactly analyzers 0..j were called and its exception escapes |
| Analysis.CollectOutcome | main.rb:43-47 | the hash literal raises if and only if some analyzer raises, and then with the first raiser's exception class |
| Analysis.AnalysisSucceedsIff | main.rb:34-56 | analyze_repo returns if and only if the repo id is usable, its directory exists, every analyzer returns and the upsert returns |
| Analysis.MissingDirectory | main.rb:37-40 | a missing directory raises FileNotFound right after the existence check, before any analyzer or upsert |
| Analysis.UnusableRepoId | main.rb:35 | with no usable repo id (File.join, or before it the indexing, raises), the analysis raises a catch-all exception before any other call |
| Analysis.CollectAnalyzers | main.rb:43-47 | with every analyzer returning, flog, rubycritic and cycromatic are called in that order and the record maps each name to its score |
| Analysis.SuccessfulAnalysis | main.rb:35-55 | on success the calls are: directory check, the three analyzers in order, and one upsert keyed by repo_id holding exactly the three scores |
| Analysis.FailingAnalyzer | main.rb:43-47 | a failing analyzer ends the analysis with its exception, after the analyzers up to it, and no upsert is made |
| Analysis.FailingUpsert | main.rb:51-54 | an upsert that raises ends the analysis with its exception after the full-composite upsert call |
| Consumer.Attempt | main.rb:80-91 | the begin block never pops or re-raises, any ack carries the message's own tag, and a malformed body raises a ParserError with no call |
| Consumer.StepTrace | main.rb:74-103 | an iteration starts with its pop, pops only once, re-raises only as its last call, and ends with the re-raise exactly when it halts |
| Consumer.Worker.RunAnalyzer | main.rb:44-46 | one analyzer call: appends the call and returns the analyzer's result |
| Consumer.Worker.AnalyzeRepo | main.rb:34-56 | appends exactly analyze_repo's calls to the trace and returns or raises as analyze_repo does |
| Consumer.Worker.Process | main.rb:80-91 | appends exactly the begin block's calls and yields the exception that escapes it |
| Consumer.Worker.Step | main.rb:74-103 | one iteration appends exactly its pop, calls and settlement, and sets `halted` exactly when the catch-all re-raises |
| Consumer.Worker.Run | main.rb:74-103 | the loop appends the iterations up to the first re-raise, takes exactly that many polls, and is halted exactly when some iteration re-raised |
| Properties.EmptyPopSkips | main.rb:76-78 | an empty pop makes no other call and the loop goes on |
| Properties.MalformedBodyDiscarded | main.rb:81-95 | a malformed body gets exactly one nack without requeue, with no directory check, analyzer, upsert or publish, and the loop goes on |
| Properties.MissingRepositoryDiscarded | main.rb:96-98 | a missing directory gives the directory check then a nack without requeue, with no analyzer, upsert, ack or publish, and the loop goes on |
| Properties.UnusableRepoIdRequeues | main.rb:99-101 | a parsed body without a usable repo_id is rejected with requeue and re-raised, with no directory check or analyzer, and the loop ends |
| Properties.SuccessfulStep | main.rb:84-90 | a good job gives: the three analyzers in order, one upsert holding exactly their three scores, the ack, then one publish of the same repo_id with the language id and routing key "gc" |
| Properties.FailingAnalyzerStep | main.rb:92-101 | a failing analyzer gives no upsert, ack or publish; its exception class decides between a requeue with re-raise and halt, and a nack without requeue |
| Properties.FailingUpsertStep | main.rb:92-101 | a failing upsert gives no ack or publish; its exception class decides between a requeue with re-raise and halt, and a nack without requeue |
| Properties.FailingPublishStep | main.rb:86-101 | a failing publish comes after the ack, so a generic error gives Ack, Publish, Reject(requeue) and the re-raise on the same tag |
| Properties.NoMetricCalculationError | main.rb:84 | after analyze_repo returns, the begin block raises only if the publish raises, so the "Metric calculation Error" raise never fires |
| Properties.AnalysisSettlesNothing | main.rb:34-56 | analyze_repo makes no ack, nack or reject |
| Properties.RescueSettles | main.rb:92-101 | the rescue clauses nack a ParserError or FileNotFound without requeue, reject anything else with requeue, and settle nothing when nothing escaped |
| Properties.AttemptSettles | main.rb:80-91 | the begin block acks exactly once when analyze_repo returns, and otherwise settles nothing |
| Properties.AttemptMatchesVerdict | main.rb:80-101 | the exception that escapes the begin block agrees with the decision table's verdict, before and after the ack |
| Properties.StepHaltsIffFatal | main.rb:99-101 | an iteration re-raises if and only if the decision table calls its outcome fatal |
| Properties.StepMatchesVerdict | main.rb:74-103 | the acks, nacks and rejects of an iteration are exactly those of the decision table's verdict |
| Properties.OneSettlementPerDelivery | main.rb:84-100 | unless the publish raises, a delivered message gets exactly one of ack, nack(requeue false) or reject(requeue true), for its own tag, before the next pop |
| Properties.RunRaiseIsLast | main.rb:99-103 | in a run the re-raise can only be the last call, and it is there if and only if some iteration hit the catch-all, so nothing is popped after it |
| Properties.RunPopsConsumed | main.rb:74-78 | a run pops exactly as many times as it takes polls |
| Properties.RunSettlesEveryDelivery | main.rb:74-103 | when no publish raises, a run makes exactly as many acks, nacks and rejects as it receives messages |

## Left out

- Broker connection, channel, queue and exchange setup, and `conn.close` (main.rb:63-69, 105). These are transport I/O. The queue is a sequence of poll results, and ack, nack, reject and publish are trace effects that always succeed, except that the publish may raise.
- The ActiveRecord connection (main.rb:24-31) and the storage semantics of `RubyMetric.upsert`. The models file is not part of this model. The upsert is a call that returns or raises. So the idempotence that makes a requeued job safe to process again is not proved. The model only shows that a replayed job makes the same upsert call when the analyzers return the same scores, which holds because every spec function is a function of its inputs.
- The analyzers `MetricFlog`, `MetricRubyCritic` and `MetricCycromatic`. The metrics files are not part of this model. Each is a call that returns an abstract `Score` or raises an exception of some class.
- JSON parsing and serialisation. A body is what `JSON.parse` makes of it (`Malformed` or `Parsed`). The completion message is the `Completion` value, not its JSON text. Ruby's `File.join` also accepts an array of strings as `repo_id`; the model treats every non-string `repo_id` as unusable.
- Path construction. `File.join(REPOSITORIES_DIR, repo_id)` and `File.directory?` are modelled as membership of the repo id in the set of ids whose directory exists.
- `RUBY_LANGAUGE_ID` is defined outside `main.rb`. It is the worker's `languageId`, fixed when the worker is constructed.
- Logging, `STDOUT.sync` and the one-second `sleep` before each pop (main.rb:17, 60-61, 76). They have no effect on the calls the worker makes.
- Consumer.Worker.Run: the source loops forever. `Run` takes a finite sequence of poll results and stops after the last one, or at the first re-raise.
- A failing ack, nack or reject call, and the broker closing the channel after a second settlement of the same tag (publish failure after ack). Broker transport is assumed reliable.
- Exceptions raised outside the begin block, such as by `q.pop` or `sleep`. They would end the loop without settling anything.
