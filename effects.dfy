/** Entities of the Ruby analysis worker: the messages it pops, the collaborators it
    calls, and the effects it has on them. */
module Effects {

  datatype Option<T> = None | Some(value: T)

  /** The exception classes the loop's three rescue clauses tell apart, in their order. */
  datatype ErrorKind =
    | ParserError   // JSON::ParserError
    | FileNotFound  // the worker's own StandardError subclass
    | OtherError    // any other Exception: TypeError, the "Metric calculation Error", driver errors

  /** A collaborator call either returns a value or raises an exception of some class. */
  datatype Outcome<T> = Done(value: T) | Raised(kind: ErrorKind)

  type RepoId = string

  /** The broker's delivery tag of an in-flight message. */
  type Tag = nat

  /** What one analyzer returns for a repository; its structure is not modelled. */
  type Score(==)

  /** The three metric keys of the composite record, in the order the hash literal evaluates them. */
  datatype Metric = Flog | RubyCritic | Cycromatic

  const Analyzers: seq<Metric> := [Flog, RubyCritic, Cycromatic]

  /** Routing key of the completion message. */
  const RoutingKey: string := "gc"

  /** The completion message body: the repository and the language id of this pipeline. */
  datatype Completion = Completion(repoId: RepoId, languageId: int)

  /** One call the worker makes on the queue, the filesystem, an analyzer, the database or
      the exchange, in the order it makes them; Raise is the re-raise that ends the loop. */
  datatype Effect =
    | Pop(delivered: Option<Tag>)
    | Resolve(repoId: RepoId)
    | Analyze(metric: Metric, repoId: RepoId)
    | Upsert(repoId: RepoId, metrics: map<Metric, Score>)
    | Ack(tag: Tag)
    | Nack(tag: Tag, requeue: bool)
    | Reject(tag: Tag, requeue: bool)
    | Publish(message: Completion, routingKey: string)
    | Raise

  /** What the begin block makes of a message body. Malformed: JSON.parse raises a parse
      error. Parsed(Some(s)): the expression payload["repo_id"] on the parsed document
      evaluates to a String s that File.join accepts; for an object that is the value of
      its "repo_id" key, and for a top-level JSON string it is the substring "repo_id" when
      the string contains it. Parsed(None): that expression does not yield such a string,
      either because the indexing itself raises (the document is null, true, false, a
      number or an array) or because File.join rejects its value (the object has no
      "repo_id" key or its value is nil or not a string, or the string document does not
      contain "repo_id", so the indexing gives nil). In both cases the exception reaches
      the catch-all rescue clause. */
  datatype Payload = Malformed | Parsed(repoId: Option<RepoId>)

  datatype Delivery = Delivery(tag: Tag, body: Payload)

  /** How the collaborators behave during one iteration: which repository directories
      exist, what each analyzer returns or raises, and whether the upsert and the
      publish raise. */
  datatype Env = Env(
    dirs: set<RepoId>,
    flog: Outcome<Score>,
    rubyCritic: Outcome<Score>,
    cycromatic: Outcome<Score>,
    upsertError: Option<ErrorKind>,
    publishError: Option<ErrorKind>)

  /** One iteration of the loop: what the pop returned and how the world behaved. */
  datatype Poll = Poll(msg: Option<Delivery>, env: Env)

  /** Effects of a stretch of code, and how that stretch ended. */
  datatype Trace<T> = Trace(effects: seq<Effect>, outcome: Outcome<T>)

  function AnalyzerOutcome(env: Env, m: Metric): Outcome<Score>
  {
    match m
    case Flog => env.flog
    case RubyCritic => env.rubyCritic
    case Cycromatic => env.cycromatic
  }

  /** The tag the pop reports, if it delivered a message. */
  function Popped(msg: Option<Delivery>): Option<Tag>
  {
    match msg
    case None => None
    case Some(d) => Some(d.tag)
  }

  predicate IsSettlement(e: Effect)
  {
    e.Ack? || e.Nack? || e.Reject?
  }

  predicate IsPop(e: Effect)
  {
    e.Pop?
  }

  predicate IsDelivery(e: Effect)
  {
    e.Pop? && e.delivered.Some?
  }

  /** The elements of t that satisfy p, in order. */
  function Filter(t: seq<Effect>, p: Effect -> bool): seq<Effect>
  {
    if t == [] then [] else (if p(t[0]) then [t[0]] else []) + Filter(t[1..], p)
  }

  lemma {:induction false} FilterAppend(a: seq<Effect>, b: seq<Effect>, p: Effect -> bool)
    ensures Filter(a + b, p) == Filter(a, p) + Filter(b, p)
  {
    if a != [] {
      assert (a + b)[1..] == a[1..] + b;
      FilterAppend(a[1..], b, p);
    } else {
      assert a + b == b;
    }
  }

  lemma {:induction false} FilterNone(t: seq<Effect>, p: Effect -> bool)
    requires forall i :: 0 <= i < |t| ==> !p(t[i])
    ensures Filter(t, p) == []
  {
    if t != [] {
      FilterNone(t[1..], p);
    }
  }
}
