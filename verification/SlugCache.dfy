/**
 The client's slug cache: cache-first resolution with one invalidate-and-retry,
 for calls that interleave at every await, against a server that answers anything.
 */
module SlugCache {
  import opened Basics

  type Slug = string
  type Id = string

  /** 15 minutes in milliseconds. */
  const TTL: nat := 900_000

  datatype Failure = Status(code: int) | Network(what: string)

  /** The server's answer to a slug lookup. */
  datatype Answer = Found(id: Id) | NotFound | LookupFailed(failure: Failure)

  /** The server's reply to the operation on a project id. */
  datatype Reply = Done(value: string) | Refused(failure: Failure)

  datatype Outcome = Value(value: string) | SlugNotFound | Error(failure: Failure)

  /** What the server says to one call, whenever it is asked: to its one lookup, to
      its first operation and, possibly changed by then, to its second. */
  datatype Script = Script(lookup: Answer, perform: Id -> Reply, retry: Id -> Reply)

  datatype Entry = Entry(id: Id, expiresAt: int)

  type Cache = map<Slug, Entry>

  predicate IsRetryTrigger(reply: Reply) {
    reply.Refused? && (reply.failure == Status(404) || reply.failure == Status(403))
  }

  function OutcomeOf(reply: Reply): Outcome {
    match reply
    case Done(v) => Value(v)
    case Refused(f) => Error(f)
  }

  /** The id a read of the cache serves at time `now`. */
  function Served(cache: Cache, slug: Slug, now: int): Option<Id> {
    if slug in cache && cache[slug].expiresAt > now then Some(cache[slug].id) else None
  }

  /** A client without a cache: look up, then perform. */
  function Uncached(script: Script): Outcome {
    match script.lookup
    case Found(id) => OutcomeOf(script.perform(id))
    case NotFound => SlugNotFound
    case LookupFailed(f) => Error(f)
  }

  /** What a call returns, given what the cache served it. */
  function FinalOutcome(served: Option<Id>, script: Script): Outcome {
    match served
    case None => Uncached(script)
    case Some(id) =>
      var reply := script.perform(id);
      if !IsRetryTrigger(reply) then OutcomeOf(reply)
      else
        match script.lookup
        case Found(renewed) => if renewed == id then OutcomeOf(reply) else OutcomeOf(script.retry(renewed))
        case NotFound => SlugNotFound
        case LookupFailed(_) => OutcomeOf(reply)
  }

  // ---- The client object ----

  class AgentTasksClient {
    var projectSlugCache: Cache

    constructor ()
      ensures projectSlugCache == map[]
    {
      projectSlugCache := map[];
    }

    /** The network lookup; a found id is cached from the time it arrives. */
    method FetchAndCacheProjectSlug(slug: Slug, script: Script, arrived: int) returns (answer: Answer)
      modifies this
      ensures answer == script.lookup
      ensures projectSlugCache == Stored(old(projectSlugCache), slug, answer, arrived)
    {
      answer := script.lookup;
      if answer.Found? {
        projectSlugCache := projectSlugCache[slug := Entry(answer.id, arrived + TTL)];
      }
    }

    /** One call run without others in between: it reads the clock at `now` and when
        its lookup, if any, is answered at `arrived`. */
    method WithResolvedProjectSlug(slug: Slug, script: Script, now: int, arrived: int) returns (outcome: Outcome)
      modifies this
      ensures outcome == FinalOutcome(Served(old(projectSlugCache), slug, now), script)
      ensures projectSlugCache == CacheAfter(old(projectSlugCache), slug, script, now, arrived)
    {
      var id: Id;
      var cacheServed := slug in projectSlugCache && projectSlugCache[slug].expiresAt > now;
      if cacheServed {
        id := projectSlugCache[slug].id;
      } else {
        var answer := FetchAndCacheProjectSlug(slug, script, arrived);
        match answer
        case Found(found) => id := found;
        case NotFound => return SlugNotFound;
        case LookupFailed(f) => return Error(f);
      }
      var reply := script.perform(id);
      if !IsRetryTrigger(reply) || !cacheServed {
        return OutcomeOf(reply);
      }
      projectSlugCache := projectSlugCache - {slug};
      var confirmed := FetchAndCacheProjectSlug(slug, script, arrived);
      match confirmed
      case NotFound => outcome := SlugNotFound;
      case LookupFailed(_) => outcome := OutcomeOf(reply);
      case Found(renewed) => outcome := OutcomeOf(if renewed == id then reply else script.retry(renewed));
    }
  }

  function Stored(cache: Cache, slug: Slug, answer: Answer, arrived: int): Cache {
    if answer.Found? then cache[slug := Entry(answer.id, arrived + TTL)] else cache
  }

  function CacheAfter(cache: Cache, slug: Slug, script: Script, now: int, arrived: int): Cache {
    match Served(cache, slug, now)
    case None => Stored(cache, slug, script.lookup, arrived)
    case Some(id) =>
      if IsRetryTrigger(script.perform(id)) then Stored(cache - {slug}, slug, script.lookup, arrived) else cache
  }

  // ---- Cached against uncached ----

  /** The slug has another id by now, or none, and the old one still answers with
      something but 403 or 404. */
  predicate StaleAnswers(served: Option<Id>, script: Script) {
    && served.Some? && !IsRetryTrigger(script.perform(served.value))
    && (script.lookup.NotFound? || (script.lookup.Found? && script.lookup.id != served.value))
  }

  /** The served id is performed on without a lookup, and the lookup would have failed:
      here the cache does better than no cache. */
  predicate LookupSpared(served: Option<Id>, script: Script) {
    served.Some? && !IsRetryTrigger(script.perform(served.value)) && script.lookup.LookupFailed?
  }

  /** The served id is refused and the lookup that should confirm why fails itself. */
  predicate ConfirmationFails(served: Option<Id>, script: Script) {
    served.Some? && IsRetryTrigger(script.perform(served.value)) && script.lookup.LookupFailed?
  }

  predicate IsException(served: Option<Id>, script: Script) {
    StaleAnswers(served, script) || LookupSpared(served, script) || ConfirmationFails(served, script)
  }

  /** The call performed a second time, on the id that its confirming lookup found. */
  predicate Retried(served: Option<Id>, script: Script) {
    && served.Some? && IsRetryTrigger(script.perform(served.value))
    && script.lookup.Found? && script.lookup.id != served.value
  }

  /** The server as the last operation of the call met it. */
  function AtItsEnd(served: Option<Id>, script: Script): Script {
    if Retried(served, script) then script.(perform := script.retry) else script
  }

  /** The cache is invisible but for three exceptions, in which the caller gets the
      served id's own reply: otherwise the call returns what a client without a cache
      would from the same lookup, at the time of the call's last operation. In the two
      exceptions with a failed lookup that client has only the lookup's failure. */
  lemma CacheIsInvisible(served: Option<Id>, script: Script)
    ensures IsException(served, script) ==> FinalOutcome(served, script) == OutcomeOf(script.perform(served.value))
    ensures !IsException(served, script) ==> FinalOutcome(served, script) == Uncached(AtItsEnd(served, script))
    ensures LookupSpared(served, script) || ConfirmationFails(served, script) ==>
      Uncached(script) == Error(script.lookup.failure)
    ensures ConfirmationFails(served, script) ==> FinalOutcome(served, script).Error?
  {
  }

  // ---- Interleaved calls ----

  datatype Pc =
    | Start
    | LookingUp
    | Performing(id: Id, cacheServed: bool)
    | Confirming(id: Id, reply: Reply)
    | Retrying(id: Id)
    | Finished(outcome: Outcome)

  /** A call under way. `served` and `readAt` record its read of the cache. */
  datatype Call = Call(slug: Slug, script: Script, pc: Pc, served: Option<Id>, readAt: int,
                       lookups: nat, performs: nat, successes: nat)

  /** The server once answered that `slug` is `id`; the answer arrived at `time`. */
  datatype Answered = Answered(slug: Slug, id: Id, time: int)

  datatype State = State(cache: Cache, calls: seq<Call>, answers: set<Answered>)

  function NewCall(slug: Slug, script: Script): Call {
    Call(slug, script, Start, None, 0, 0, 0, 0)
  }

  function CountReply(call: Call, reply: Reply): Call {
    call.(performs := call.performs + 1, successes := call.successes + if reply.Done? then 1 else 0)
  }

  /** The code of one call from one await to the next, on the shared cache. */
  function Advance(call: Call, cache: Cache, now: int): (Call, Cache) {
    match call.pc
    case Start =>
      (match Served(cache, call.slug, now)
       case Some(id) => (call.(pc := Performing(id, true), served := Some(id), readAt := now), cache)
       case None => (call.(pc := LookingUp), cache))
    case LookingUp =>
      var looked := call.(lookups := call.lookups + 1);
      (match call.script.lookup
       case Found(id) => (looked.(pc := Performing(id, false)), Stored(cache, call.slug, call.script.lookup, now))
       case NotFound => (looked.(pc := Finished(SlugNotFound)), cache)
       case LookupFailed(f) => (looked.(pc := Finished(Error(f))), cache))
    case Performing(id, cacheServed) =>
      var reply := call.script.perform(id);
      var done := CountReply(call, reply);
      if IsRetryTrigger(reply) && cacheServed then (done.(pc := Confirming(id, reply)), cache - {call.slug})
      else (done.(pc := Finished(OutcomeOf(reply))), cache)
    case Confirming(id, reply) =>
      var looked := call.(lookups := call.lookups + 1);
      (match call.script.lookup
       case Found(renewed) =>
         (looked.(pc := if renewed == id then Finished(OutcomeOf(reply)) else Retrying(renewed)),
          Stored(cache, call.slug, call.script.lookup, now))
       case NotFound => (looked.(pc := Finished(SlugNotFound)), cache)
       case LookupFailed(_) => (looked.(pc := Finished(OutcomeOf(reply))), cache))
    case Retrying(id) =>
      var reply := call.script.retry(id);
      (CountReply(call, reply).(pc := Finished(OutcomeOf(reply))), cache)
    case Finished(_) => (call, cache)
  }

  /** The lookup answer a step receives, if it receives one that is cached. */
  function Learned(call: Call, now: int): set<Answered> {
    if (call.pc.LookingUp? || call.pc.Confirming?) && call.script.lookup.Found? then
      {Answered(call.slug, call.script.lookup.id, now)}
    else {}
  }

  ghost predicate Init(s: State) {
    s == State(map[], [], {})
  }

  /** A call arrives, or some call goes on with any reading of the clock. */
  ghost predicate Next(s: State, t: State) {
    || (exists slug, script :: t == s.(calls := s.calls + [NewCall(slug, script)]))
    || (exists c: nat, now: int :: c < |s.calls| && StepOf(s, t, c, now))
  }

  ghost predicate StepOf(s: State, t: State, c: nat, now: int)
    requires c < |s.calls|
  {
    var (call, cache) := Advance(s.calls[c], s.cache, now);
    t == State(cache, s.calls[c := call], s.answers + Learned(s.calls[c], now))
  }

  ghost predicate IsRun(run: seq<State>) {
    run != [] && Init(run[0]) && forall k :: 0 <= k < |run| - 1 ==> Next(run[k], run[k + 1])
  }

  /** The server gave this id for the slug, less than one TTL before `now`. */
  ghost predicate FreshAnswer(answers: set<Answered>, slug: Slug, id: Id, now: int) {
    exists a :: a in answers && a.slug == slug && a.id == id && now < a.time + TTL
  }

  /** Every cached entry is an answer of the server, kept one TTL from its arrival. */
  ghost predicate CacheIsHonest(cache: Cache, answers: set<Answered>) {
    forall slug :: slug in cache ==> Answered(slug, cache[slug].id, cache[slug].expiresAt - TTL) in answers
  }

  /** Where a call stands, and what it can still return. */
  predicate CallIsSound(call: Call) {
    var script := call.script;
    match call.pc
    case Start => call.served.None? && call.lookups == 0 && call.performs == 0 && call.successes == 0
    case LookingUp => call.served.None? && call.lookups == 0 && call.performs == 0 && call.successes == 0
    case Performing(id, cacheServed) =>
      && call.performs == 0 && call.successes == 0
      && (if cacheServed then call.served == Some(id) && call.lookups == 0
          else call.served.None? && call.lookups == 1 && script.lookup == Found(id))
    case Confirming(id, reply) =>
      && call.served == Some(id) && reply == script.perform(id) && IsRetryTrigger(reply)
      && call.lookups == 0 && call.performs == 1 && call.successes == 0
    case Retrying(id) =>
      && call.served.Some? && id != call.served.value && script.lookup == Found(id)
      && IsRetryTrigger(script.perform(call.served.value))
      && call.lookups == 1 && call.performs == 1 && call.successes == 0
    case Finished(outcome) =>
      && outcome == FinalOutcome(call.served, script)
      && call.lookups <= 1 && call.performs <= 2 && call.successes == if outcome.Value? then 1 else 0
  }

  ghost predicate CallIsServedFresh(call: Call, answers: set<Answered>) {
    call.served.Some? ==> FreshAnswer(answers, call.slug, call.served.value, call.readAt)
  }

  ghost predicate Inv(s: State) {
    && CacheIsHonest(s.cache, s.answers)
    && forall c :: 0 <= c < |s.calls| ==> CallIsSound(s.calls[c]) && CallIsServedFresh(s.calls[c], s.answers)
  }

  lemma AdvanceIsSound(call: Call, cache: Cache, now: int)
    requires CallIsSound(call)
    ensures CallIsSound(Advance(call, cache, now).0)
  {
  }

  lemma AdvanceIsHonest(call: Call, cache: Cache, now: int, answers: set<Answered>)
    requires CacheIsHonest(cache, answers) && CallIsServedFresh(call, answers)
    requires CallIsSound(call)
    ensures CacheIsHonest(Advance(call, cache, now).1, answers + Learned(call, now))
    ensures CallIsServedFresh(Advance(call, cache, now).0, answers + Learned(call, now))
  {
    if call.pc.Start? && Served(cache, call.slug, now).Some? {
      var entry := cache[call.slug];
      assert Answered(call.slug, entry.id, entry.expiresAt - TTL) in answers;
    } else {
      FreshStays(call, answers, Learned(call, now));
    }
  }

  lemma FreshStays(call: Call, answers: set<Answered>, more: set<Answered>)
    requires CallIsServedFresh(call, answers)
    ensures CallIsServedFresh(call, answers + more)
  {
    if call.served.Some? {
      var a :| a in answers && a.slug == call.slug && a.id == call.served.value && call.readAt < a.time + TTL;
      assert a in answers + more;
    }
  }

  lemma StepKeepsInv(s: State, t: State)
    requires Inv(s) && Next(s, t)
    ensures Inv(t)
  {
    if c: nat, now: int :| c < |s.calls| && StepOf(s, t, c, now) {
      AdvanceIsSound(s.calls[c], s.cache, now);
      AdvanceIsHonest(s.calls[c], s.cache, now, s.answers);
      forall d | 0 <= d < |t.calls|
        ensures CallIsSound(t.calls[d]) && CallIsServedFresh(t.calls[d], t.answers)
      {
        if d != c { FreshStays(s.calls[d], s.answers, Learned(s.calls[c], now)); }
      }
    }
  }

  /** In every state of every run of interleaved calls: a cached id was the server's
      answer, no call looks up more than once or performs more than twice or succeeds
      more than once, a served id was answered less than one TTL before it was read,
      and a finished call returned what its own reads determine. */
  lemma {:induction false} EveryRunIsSound(run: seq<State>, k: nat)
    requires IsRun(run) && k < |run|
    ensures Inv(run[k])
  {
    if k > 0 {
      EveryRunIsSound(run, k - 1);
      StepKeepsInv(run[k - 1], run[k]);
    }
  }

  /** Whatever else runs in between: a finished call returned what a client without
      a cache would have, unless its served id was stale and still answered, was not
      refused while a lookup would have failed, or was refused and the confirming lookup
      failed; and the id was served by an answer less than one TTL old. */
  lemma FinishedCallsAgree(run: seq<State>, k: nat, c: nat)
    requires IsRun(run) && k < |run| && c < |run[k].calls| && run[k].calls[c].pc.Finished?
    ensures var call := run[k].calls[c];
      && (call.pc.outcome == Uncached(AtItsEnd(call.served, call.script))
          || IsException(call.served, call.script))
      && (call.served.Some? ==> FreshAnswer(run[k].answers, call.slug, call.served.value, call.readAt))
      && call.lookups <= 1 && call.performs <= 2 && call.successes <= 1
  {
    EveryRunIsSound(run, k);
    CacheIsInvisible(run[k].calls[c].served, run[k].calls[c].script);
  }

  /** One call with nothing in between: it starts at `now`, and its lookup, if it
      makes one, is answered at `arrived`. */
  function Solo(call: Call, cache: Cache, now: int, arrived: int): (Call, Cache) {
    var (c1, m1) := Advance(call, cache, now);
    var (c2, m2) := Advance(c1, m1, arrived);
    var (c3, m3) := Advance(c2, m2, arrived);
    Advance(c3, m3, arrived)
  }

  /** The client method is the steps of a call run back to back. */
  lemma SoloRunIsTheMethod(slug: Slug, script: Script, cache: Cache, now: int, arrived: int)
    ensures var (call, after) := Solo(NewCall(slug, script), cache, now, arrived);
      && call.pc == Finished(FinalOutcome(Served(cache, slug, now), script))
      && after == CacheAfter(cache, slug, script, now, arrived)
  {
    if Served(cache, slug, now).None? {
      assert Advance(NewCall(slug, script), cache, now).0.pc == LookingUp;
    } else {
      assert Advance(NewCall(slug, script), cache, now).0.pc.Performing?;
    }
  }
}
