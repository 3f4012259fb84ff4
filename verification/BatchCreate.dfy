/**
 Batch creation with dedupe: one transaction an item, retried when the database
 refuses it for a concurrent writer, over a store that others write at the same time.
 */
module BatchCreate {
  import opened Basics

  type Id = string

  type Name = string

  datatype Actor = Agent | Human

  /** One item, as the request's schema lets it through: a given externalRef is not empty. */
  datatype Body = Body(externalRef: Option<string>, status: Option<Name>, workflowId: Option<Id>, dependsOn: seq<Id>)

  // ---- Workflows ----

  datatype State = State(name: Name, terminal: bool)

  datatype Edge = Edge(source: Name, target: Name)

  datatype Workflow = Workflow(initial: Name, states: seq<State>, edges: seq<Edge>)

  predicate IsTerminal(states: seq<State>, name: Name) {
    states != [] && if states[0].name == name then states[0].terminal else IsTerminal(states[1..], name)
  }

  /** Neither initial nor terminal, one edge from the end, not one edge from the start. */
  predicate IsReview(def: Workflow, name: Name) {
    && name != def.initial
    && !IsTerminal(def.states, name)
    && (exists e | e in def.edges :: e.source == name && IsTerminal(def.states, e.target))
    && !(exists e | e in def.edges :: e.source == def.initial && e.target == name)
  }

  predicate HasState(def: Workflow, name: Name) {
    exists s | s in def.states :: s.name == name
  }

  // ---- The store ----

  /** A task with the status it started in; `judgedBy` is the workflow this route judged
      that status by, none for a task that came about in another way. */
  datatype Row = Row(project: Id, externalRef: Option<string>, start: Name, creator: Actor, judgedBy: Option<Workflow>)

  type Rows = map<Id, Row>

  predicate Taken(rows: Rows, project: Id, ref: string) {
    exists id | id in rows :: rows[id].project == project && rows[id].externalRef == Some(ref)
  }

  /** The store's unique keys: the id, and the externalRef within a project. */
  predicate Insertable(rows: Rows, id: Id, row: Row) {
    id !in rows && (row.externalRef.Some? ==> !Taken(rows, row.project, row.externalRef.value))
  }

  /** What somebody else does to the store; an insert the keys forbid does nothing. */
  datatype Other = Adds(id: Id, row: Row) | Removes(id: Id)

  function Meddled(rows: Rows, others: seq<Other>): Rows
    decreases others
  {
    if others == [] then rows
    else
      match others[0]
      case Adds(id, row) => Meddled(if Insertable(rows, id, row) then rows[id := row] else rows, others[1..])
      case Removes(id) => Meddled(rows - {id}, others[1..])
  }

  // ---- One transaction ----

  /** `grounding_receipt_mismatch` and every other failure of the database reach the
      caller of a batch as `Unavailable`. */
  datatype Error = NotFound | Forbidden | BadState | GroundingRequired | Unavailable

  /** How the database takes the transaction: refused for a concurrent writer, broken at
      some step, or committed, with or without the client learning of it. A transaction
      that is refused or broken leaves nothing, so at which step does not matter. */
  datatype Ending = Commits | Clashes | Breaks(error: Error) | Unconfirmed

  /** All that one try meets: what others did before it, and what it reads. */
  datatype World = World(others: seq<Other>, projectExists: bool, canWrite: bool, workflows: set<Id>,
                         initial: Name, workflow: Option<Workflow>, id: Id, ending: Ending)

  datatype Result = Made(id: Id) | Existing | Threw(error: Error) | Clash

  function StartStatus(actor: Actor, body: Body, w: World): Name {
    if actor == Agent then "backlog" else if body.status.Some? then body.status.value else w.initial
  }

  function NewRow(project: Id, actor: Actor, body: Body, w: World): Row {
    Row(project, body.externalRef, StartStatus(actor, body, w), actor, w.workflow)
  }

  /** Why a start status is refused, if it is. */
  function Refusal(workflow: Option<Workflow>, status: Name): Option<Error> {
    match workflow
    case None => Some(Unavailable)
    case Some(def) =>
      if IsReview(def, status) || IsTerminal(def.states, status) then Some(GroundingRequired)
      else if status != "backlog" && !HasState(def, status) then Some(BadState)
      else None
  }

  predicate DependsOnOwn(rows: Rows, project: Id, dependsOn: seq<Id>) {
    forall d | d in dependsOn :: d in rows && rows[d].project == project
  }

  /** What the transaction's own checks say, in their order. */
  function Checked(rows: Rows, project: Id, actor: Actor, body: Body, w: World): Result {
    if !w.projectExists then Threw(NotFound)
    else if !w.canWrite then Threw(Forbidden)
    else if body.workflowId.Some? && body.workflowId.value !in w.workflows then Threw(BadState)
    else if !DependsOnOwn(rows, project, body.dependsOn) then Threw(BadState)
    else if body.externalRef.Some? && Taken(rows, project, body.externalRef.value) then Existing
    else if !Insertable(rows, w.id, NewRow(project, actor, body, w)) then Threw(Unavailable)
    else
      match Refusal(w.workflow, StartStatus(actor, body, w))
      case Some(error) => Threw(error)
      case None => Made(w.id)
  }

  /** One try: the store it leaves, and how it ended. */
  function Try(rows: Rows, project: Id, actor: Actor, body: Body, w: World): (Rows, Result) {
    var found := Meddled(rows, w.others);
    var checked := Checked(found, project, actor, body, w);
    var written := if checked.Made? then found[w.id := NewRow(project, actor, body, w)] else found;
    match w.ending
    case Clashes => (found, Clash)
    case Breaks(error) => (found, Threw(error))
    case Unconfirmed => (written, if checked.Threw? then checked else Threw(Unavailable))
    case Commits => (written, checked)
  }

  const TRIES := 3

  /** Up to three tries. */
  function Create(rows: Rows, project: Id, actor: Actor, body: Body, worlds: nat -> World, tried: nat)
    : (Rows, Result)
    requires tried < TRIES
    ensures var result := Create(rows, project, actor, body, worlds, tried).1;
      !result.Clash? && (result.Existing? ==> body.externalRef.Some?)
    decreases TRIES - tried
  {
    var t := Try(rows, project, actor, body, worlds(tried));
    if !t.1.Clash? then t
    else if tried < TRIES - 1 then Create(t.0, project, actor, body, worlds, tried + 1)
    else (t.0, Threw(Unavailable))
  }

  // ---- The batch ----

  datatype Verdict = Created(id: Id) | Skipped(ref: string) | Failed(error: Error)

  datatype Progress = Progress(rows: Rows, seen: set<string>, verdicts: seq<Verdict>)

  function VerdictOf(body: Body, result: Result): Verdict
    requires !result.Clash? && (result.Existing? ==> body.externalRef.Some?)
  {
    match result
    case Made(id) => Created(id)
    case Existing => Skipped(body.externalRef.value)
    case Threw(error) => Failed(error)
  }

  function Step(p: Progress, project: Id, actor: Actor, body: Body, worlds: nat -> World): Progress {
    if body.externalRef.Some? && body.externalRef.value in p.seen then
      p.(verdicts := p.verdicts + [Skipped(body.externalRef.value)])
    else
      var seen := if body.externalRef.Some? then p.seen + {body.externalRef.value} else p.seen;
      var r := Create(p.rows, project, actor, body, worlds, 0);
      Progress(r.0, seen, p.verdicts + [VerdictOf(body, r.1)])
  }

  /** Where the batch stands after its first `n` items. */
  function After(rows: Rows, project: Id, actor: Actor, items: seq<Body>, weather: nat -> nat -> World,
                 n: nat)
    : (p: Progress)
    requires n <= |items|
    ensures |p.verdicts| == n
  {
    if n == 0 then Progress(rows, {}, [])
    else Step(After(rows, project, actor, items, weather, n - 1), project, actor, items[n - 1], weather(n - 1))
  }

  datatype Report = Report(created: seq<(nat, Id)>, skipped: seq<string>, errors: seq<(nat, Error)>)

  function ReportOf(verdicts: seq<Verdict>): Report {
    if verdicts == [] then Report([], [], [])
    else
      var n := |verdicts| - 1;
      WithOneMore(ReportOf(verdicts[..n]), n, verdicts[n])
  }

  function WithOneMore(r: Report, n: nat, v: Verdict): Report {
    match v
    case Created(id) => r.(created := r.created + [(n, id)])
    case Skipped(ref) => r.(skipped := r.skipped + [ref])
    case Failed(error) => r.(errors := r.errors + [(n, error)])
  }

  lemma ReportOfOneMore(verdicts: seq<Verdict>, v: Verdict)
    ensures ReportOf(verdicts + [v]) == WithOneMore(ReportOf(verdicts), |verdicts|, v)
  {
    assert (verdicts + [v])[..|verdicts|] == verdicts;
  }

  lemma AfterOneMore(rows: Rows, project: Id, actor: Actor, items: seq<Body>, weather: nat -> nat -> World, n: nat,
                     p: Progress, q: Progress)
    requires n < |items| && p == After(rows, project, actor, items, weather, n)
    requires q == Step(p, project, actor, items[n], weather(n))
    ensures q == After(rows, project, actor, items, weather, n + 1) && |q.verdicts| == n + 1
    ensures ReportOf(q.verdicts) == WithOneMore(ReportOf(p.verdicts), n, q.verdicts[n])
  {
    assert q.verdicts == p.verdicts + [q.verdicts[n]];
    ReportOfOneMore(p.verdicts, q.verdicts[n]);
  }

  function Code(r: Report): int {
    if |r.created| > 0 then 201 else if |r.errors| > 0 then 422 else 200
  }

  datatype Answer = UnknownStatus(index: nat) | BacklogEnforced | Imported(report: Report, code: int)

  predicate StatusKnown(vocabulary: seq<Name>, body: Body) {
    body.status.Some? ==> body.status.value in vocabulary
  }

  predicate AsksOutsideBacklog(body: Body) {
    body.status.Some? && body.status.value != "backlog"
  }

  class TaskStore {
    var rows: Rows

    constructor ()
      ensures rows == map[]
    {
      rows := map[];
    }

    /** One transaction: the row goes in before the status is judged, and comes out
        again when anything after it throws. */
    method RunOnce(project: Id, actor: Actor, body: Body, w: World) returns (result: Result)
      modifies this
      ensures (rows, result) == Try(old(rows), project, actor, body, w)
    {
      rows := Meddled(rows, w.others);
      if w.ending.Clashes? {
        return Clash;
      }
      if w.ending.Breaks? {
        return Threw(w.ending.error);
      }
      if !w.projectExists {
        return Threw(NotFound);
      }
      if !w.canWrite {
        return Threw(Forbidden);
      }
      if body.workflowId.Some? && body.workflowId.value !in w.workflows {
        return Threw(BadState);
      }
      if !DependsOnOwn(rows, project, body.dependsOn) {
        return Threw(BadState);
      }
      if body.externalRef.Some? && Taken(rows, project, body.externalRef.value) {
        return if w.ending.Commits? then Existing else Threw(Unavailable);
      }
      var row := NewRow(project, actor, body, w);
      if !Insertable(rows, w.id, row) {
        return Threw(Unavailable);
      }
      var before := rows;
      rows := rows[w.id := row];
      var refusal := Refusal(w.workflow, row.start);
      if refusal.Some? {
        rows := before;
        return Threw(refusal.value);
      }
      result := if w.ending.Commits? then Made(w.id) else Threw(Unavailable);
    }

    method CreateTask(project: Id, actor: Actor, body: Body, worlds: nat -> World) returns (result: Result)
      modifies this
      ensures (rows, result) == Create(old(rows), project, actor, body, worlds, 0)
    {
      var tried := 0;
      while tried < TRIES
        invariant tried <= TRIES
        invariant tried < TRIES ==>
          Create(rows, project, actor, body, worlds, tried) == Create(old(rows), project, actor, body, worlds, 0)
        invariant tried == TRIES ==> (rows, Threw(Unavailable)) == Create(old(rows), project, actor, body, worlds, 0)
      {
        result := RunOnce(project, actor, body, worlds(tried));
        if !result.Clash? {
          return;
        }
        tried := tried + 1;
      }
      result := Threw(Unavailable);
    }

    /** The batch loop over its items. */
    method ImportItems(project: Id, actor: Actor, items: seq<Body>, weather: nat -> nat -> World)
      returns (report: Report)
      modifies this
      ensures rows == After(old(rows), project, actor, items, weather, |items|).rows
      ensures report == ReportOf(After(old(rows), project, actor, items, weather, |items|).verdicts)
    {
      var seen: set<string> := {};
      var created: seq<(nat, Id)>, skipped: seq<string>, errors: seq<(nat, Error)> := [], [], [];
      ghost var start := rows;
      ghost var p := Progress(start, {}, []);
      for index := 0 to |items|
        invariant p == After(start, project, actor, items, weather, index)
        invariant rows == p.rows && seen == p.seen
        invariant Report(created, skipped, errors) == ReportOf(p.verdicts)
      {
        var body := items[index];
        ghost var q := Step(p, project, actor, body, weather(index));
        AfterOneMore(start, project, actor, items, weather, index, p, q);
        p := q;
        if body.externalRef.Some? && body.externalRef.value in seen {
          skipped := skipped + [body.externalRef.value];
          continue;
        }
        if body.externalRef.Some? {
          seen := seen + {body.externalRef.value};
        }
        var result := CreateTask(project, actor, body, weather(index));
        assert q == Progress(rows, seen, q.verdicts) && q.verdicts[index] == VerdictOf(body, result);
        match result {
          case Made(id) => created := created + [(index, id)];
          case Existing => skipped := skipped + [body.externalRef.value];
          case Threw(error) => errors := errors + [(index, error)];
        }
      }
      report := Report(created, skipped, errors);
    }

    /** The request: the statuses of all items are looked up in the workflow's vocabulary
        first, and an item whose status is missing there turns the request down while
        the store is still as it was. */
    method Import(project: Id, actor: Actor, vocabulary: seq<Name>, items: seq<Body>, weather: nat -> nat -> World)
      returns (answer: Answer)
      modifies this
      ensures answer.UnknownStatus? ==>
        && answer.index < |items| && !StatusKnown(vocabulary, items[answer.index])
        && forall i :: 0 <= i < answer.index ==> StatusKnown(vocabulary, items[i])
      ensures !answer.UnknownStatus? ==> forall i :: 0 <= i < |items| ==> StatusKnown(vocabulary, items[i])
      ensures !answer.UnknownStatus? ==>
        (answer.BacklogEnforced? <==> actor == Agent && exists i :: 0 <= i < |items| && AsksOutsideBacklog(items[i]))
      ensures !answer.Imported? ==> rows == old(rows)
      ensures answer.Imported? ==>
        var p := After(old(rows), project, actor, items, weather, |items|);
        rows == p.rows && answer.report == ReportOf(p.verdicts) && answer.code == Code(answer.report)
    {
      for index := 0 to |items|
        invariant rows == old(rows)
        invariant forall i :: 0 <= i < index ==> StatusKnown(vocabulary, items[i])
      {
        if !StatusKnown(vocabulary, items[index]) {
          return UnknownStatus(index);
        }
      }
      if actor == Agent && exists i :: 0 <= i < |items| && AsksOutsideBacklog(items[i]) {
        return BacklogEnforced;
      }
      var report := ImportItems(project, actor, items, weather);
      answer := Imported(report, Code(report));
    }
  }

  // ---- Every item is accounted for once ----

  /** The three lists hold every item in exactly one place: created and failed ones
      under their index, and as many skipped refs as there are other items. */
  lemma {:induction false} EveryItemOnce(verdicts: seq<Verdict>)
    ensures var r := ReportOf(verdicts);
      && |r.created| + |r.skipped| + |r.errors| == |verdicts|
      && (forall i: nat, id :: (i, id) in r.created <==> i < |verdicts| && verdicts[i] == Created(id))
      && (forall i: nat, error :: (i, error) in r.errors <==> i < |verdicts| && verdicts[i] == Failed(error))
  {
    if verdicts != [] {
      EveryItemOnce(verdicts[..|verdicts| - 1]);
    }
  }

  // ---- Unique keys ----

  ghost predicate Unique(rows: Rows) {
    forall a, b | a in rows && b in rows && a != b && rows[a].project == rows[b].project && rows[a].externalRef.Some? ::
      rows[a].externalRef != rows[b].externalRef
  }

  lemma {:induction false} MeddlingKeepsUnique(rows: Rows, others: seq<Other>)
    requires Unique(rows)
    ensures Unique(Meddled(rows, others))
    decreases others
  {
    if others != [] {
      match others[0]
      case Adds(id, row) =>
        MeddlingKeepsUnique(if Insertable(rows, id, row) then rows[id := row] else rows, others[1..]);
      case Removes(id) => MeddlingKeepsUnique(rows - {id}, others[1..]);
    }
  }

  lemma TryKeepsUnique(rows: Rows, project: Id, actor: Actor, body: Body, w: World)
    requires Unique(rows)
    ensures Unique(Try(rows, project, actor, body, w).0)
  {
    MeddlingKeepsUnique(rows, w.others);
  }

  lemma {:induction false} CreateKeepsUnique(rows: Rows, project: Id, actor: Actor, body: Body, worlds: nat -> World,
                                             tried: nat)
    requires Unique(rows) && tried < TRIES
    ensures Unique(Create(rows, project, actor, body, worlds, tried).0)
    decreases TRIES - tried
  {
    TryKeepsUnique(rows, project, actor, body, worlds(tried));
    var t := Try(rows, project, actor, body, worlds(tried));
    if t.1.Clash? && tried < TRIES - 1 {
      CreateKeepsUnique(t.0, project, actor, body, worlds, tried + 1);
    }
  }

  /** Whatever a batch meets and whatever others write, no project holds an externalRef twice. */
  lemma {:induction false} StoreStaysUnique(rows: Rows, project: Id, actor: Actor, items: seq<Body>,
                                            weather: nat -> nat -> World, n: nat)
    requires Unique(rows) && n <= |items|
    ensures Unique(After(rows, project, actor, items, weather, n).rows)
  {
    if n > 0 {
      StoreStaysUnique(rows, project, actor, items, weather, n - 1);
      var p := After(rows, project, actor, items, weather, n - 1);
      CreateKeepsUnique(p.rows, project, actor, items[n - 1], weather(n - 1), 0);
    }
  }

  // ---- Where tasks start ----

  /** A task this route judged starts in the backlog or in a state of its workflow that
      is neither for review nor terminal; an agent's starts in the backlog. */
  predicate StartsWell(row: Row) {
    row.judgedBy.Some? ==>
      && (row.creator == Agent ==> row.start == "backlog")
      && !IsReview(row.judgedBy.value, row.start)
      && !IsTerminal(row.judgedBy.value.states, row.start)
      && (row.start == "backlog" || HasState(row.judgedBy.value, row.start))
  }

  predicate AllStartWell(rows: Rows) {
    forall id | id in rows :: StartsWell(rows[id])
  }

  predicate OthersStartWell(others: seq<Other>) {
    forall o | o in others :: o.Adds? ==> StartsWell(o.row)
  }

  lemma {:induction false} MeddlingKeepsStarts(rows: Rows, others: seq<Other>)
    requires AllStartWell(rows) && OthersStartWell(others)
    ensures AllStartWell(Meddled(rows, others))
    decreases others
  {
    if others != [] {
      assert others[0] in others;
      match others[0]
      case Adds(id, row) =>
        MeddlingKeepsStarts(if Insertable(rows, id, row) then rows[id := row] else rows, others[1..]);
      case Removes(id) => MeddlingKeepsStarts(rows - {id}, others[1..]);
    }
  }

  lemma TryKeepsStarts(rows: Rows, project: Id, actor: Actor, body: Body, w: World)
    requires AllStartWell(rows) && OthersStartWell(w.others)
    ensures AllStartWell(Try(rows, project, actor, body, w).0)
  {
    MeddlingKeepsStarts(rows, w.others);
  }

  lemma {:induction false} CreateKeepsStarts(rows: Rows, project: Id, actor: Actor, body: Body, worlds: nat -> World,
                                             tried: nat)
    requires AllStartWell(rows) && tried < TRIES && forall k: nat :: OthersStartWell(worlds(k).others)
    ensures AllStartWell(Create(rows, project, actor, body, worlds, tried).0)
    decreases TRIES - tried
  {
    TryKeepsStarts(rows, project, actor, body, worlds(tried));
    var t := Try(rows, project, actor, body, worlds(tried));
    if t.1.Clash? && tried < TRIES - 1 {
      CreateKeepsStarts(t.0, project, actor, body, worlds, tried + 1);
    }
  }

  /** No run leaves a task that started in review or done, and agents' tasks are drafts. */
  lemma {:induction false} EveryTaskStartsWell(rows: Rows, project: Id, actor: Actor, items: seq<Body>,
                                               weather: nat -> nat -> World, n: nat)
    requires AllStartWell(rows) && n <= |items| && forall i: nat, k: nat :: OthersStartWell(weather(i)(k).others)
    ensures AllStartWell(After(rows, project, actor, items, weather, n).rows)
  {
    if n > 0 {
      EveryTaskStartsWell(rows, project, actor, items, weather, n - 1);
      var p := After(rows, project, actor, items, weather, n - 1);
      CreateKeepsStarts(p.rows, project, actor, items[n - 1], weather(n - 1), 0);
    }
  }

  // ---- One ref through a batch ----

  /** Whether others leave a ref alone: nobody removes the row that carries it, and,
      unless `mayAdd`, nobody adds one. */
  predicate LeaveRef(rows: Rows, others: seq<Other>, project: Id, ref: string, mayAdd: bool)
    decreases others
  {
    others == [] ||
    match others[0]
    case Adds(id, row) =>
      && (mayAdd || row.project != project || row.externalRef != Some(ref))
      && LeaveRef(if Insertable(rows, id, row) then rows[id := row] else rows, others[1..], project, ref, mayAdd)
    case Removes(id) =>
      && !(id in rows && rows[id].project == project && rows[id].externalRef == Some(ref))
      && LeaveRef(rows - {id}, others[1..], project, ref, mayAdd)
  }

  predicate CreateLeaves(rows: Rows, project: Id, actor: Actor, body: Body, worlds: nat -> World, tried: nat,
                         ref: string, mayAdd: bool)
    requires tried < TRIES
    decreases TRIES - tried
  {
    && LeaveRef(rows, worlds(tried).others, project, ref, mayAdd)
    && var t := Try(rows, project, actor, body, worlds(tried));
       t.1.Clash? && tried < TRIES - 1 ==> CreateLeaves(t.0, project, actor, body, worlds, tried + 1, ref, mayAdd)
  }

  predicate StepLeaves(p: Progress, project: Id, actor: Actor, body: Body, worlds: nat -> World, ref: string,
                       mayAdd: bool)
  {
    (body.externalRef.Some? && body.externalRef.value in p.seen)
    || CreateLeaves(p.rows, project, actor, body, worlds, 0, ref, mayAdd)
  }

  predicate BatchLeaves(rows: Rows, project: Id, actor: Actor, items: seq<Body>, weather: nat -> nat -> World, n: nat,
                        ref: string, mayAdd: bool)
    requires n <= |items|
  {
    n > 0 ==>
      && BatchLeaves(rows, project, actor, items, weather, n - 1, ref, mayAdd)
      && StepLeaves(After(rows, project, actor, items, weather, n - 1), project, actor, items[n - 1], weather(n - 1),
                    ref, mayAdd)
  }

  lemma {:induction false} MeddlingLeaves(rows: Rows, others: seq<Other>, project: Id, ref: string, mayAdd: bool)
    requires LeaveRef(rows, others, project, ref, mayAdd)
    ensures Taken(rows, project, ref) ==> Taken(Meddled(rows, others), project, ref)
    ensures !mayAdd && Taken(Meddled(rows, others), project, ref) ==> Taken(rows, project, ref)
    decreases others
  {
    if others != [] {
      match others[0]
      case Adds(id, row) =>
        var next := if Insertable(rows, id, row) then rows[id := row] else rows;
        AddingKeepsTaken(rows, id, row, project, ref);
        MeddlingLeaves(next, others[1..], project, ref, mayAdd);
      case Removes(id) =>
        RemovingKeepsTaken(rows, id, project, ref);
        MeddlingLeaves(rows - {id}, others[1..], project, ref, mayAdd);
    }
  }

  lemma AddingKeepsTaken(rows: Rows, id: Id, row: Row, project: Id, ref: string)
    ensures Insertable(rows, id, row) && Taken(rows, project, ref) ==> Taken(rows[id := row], project, ref)
    ensures Taken(rows[id := row], project, ref) && (row.project != project || row.externalRef != Some(ref)) ==>
            Taken(rows, project, ref)
  {
    if Insertable(rows, id, row) && Taken(rows, project, ref) {
      var k :| k in rows && rows[k].project == project && rows[k].externalRef == Some(ref);
      assert k in rows[id := row];
    }
  }

  lemma RemovingKeepsTaken(rows: Rows, id: Id, project: Id, ref: string)
    requires !(id in rows && rows[id].project == project && rows[id].externalRef == Some(ref))
    ensures Taken(rows - {id}, project, ref) <==> Taken(rows, project, ref)
  {
    if Taken(rows, project, ref) {
      var k :| k in rows && rows[k].project == project && rows[k].externalRef == Some(ref);
      assert k in rows - {id};
    }
  }

  /** The try writes its row and the database keeps it. */
  predicate Stores(rows: Rows, project: Id, actor: Actor, body: Body, w: World) {
    Checked(Meddled(rows, w.others), project, actor, body, w).Made? && (w.ending.Commits? || w.ending.Unconfirmed?)
  }

  /** One of the tries that are made does. */
  predicate SomeTryStores(rows: Rows, project: Id, actor: Actor, body: Body, worlds: nat -> World, tried: nat)
    requires tried < TRIES
    decreases TRIES - tried
  {
    || Stores(rows, project, actor, body, worlds(tried))
    || var t := Try(rows, project, actor, body, worlds(tried));
       t.1.Clash? && tried < TRIES - 1 && SomeTryStores(t.0, project, actor, body, worlds, tried + 1)
  }

  /** What became of a ref: a task made under it means that it was free, a task made or
      found that it is taken, and it was not lost. */
  ghost predicate TookTheRef(before: Rows, project: Id, ref: string, after: Rows, result: Result) {
    && (result.Made? ==> !Taken(before, project, ref))
    && (result.Made? || result.Existing? ==> Taken(after, project, ref))
    && (Taken(before, project, ref) ==> Taken(after, project, ref))
  }

  lemma WrittenIsTaken(rows: Rows, project: Id, actor: Actor, body: Body, w: World, ref: string)
    requires Checked(rows, project, actor, body, w).Made?
    ensures var row := NewRow(project, actor, body, w);
      && (body.externalRef == Some(ref) ==> !Taken(rows, project, ref) && Taken(rows[w.id := row], project, ref))
      && (body.externalRef != Some(ref) ==> (Taken(rows[w.id := row], project, ref) <==> Taken(rows, project, ref)))
  {
    var row := NewRow(project, actor, body, w);
    AddingKeepsTaken(rows, w.id, row, project, ref);
    if body.externalRef == Some(ref) {
      assert w.id in rows[w.id := row] && rows[w.id := row][w.id] == row;
    }
  }

  lemma TryTakesTheRef(rows: Rows, project: Id, actor: Actor, body: Body, w: World, ref: string, mayAdd: bool)
    requires LeaveRef(rows, w.others, project, ref, mayAdd)
    ensures var t := Try(rows, project, actor, body, w);
      && (Taken(rows, project, ref) ==> Taken(t.0, project, ref))
      && (body.externalRef == Some(ref) ==> TookTheRef(rows, project, ref, t.0, t.1))
      && (!mayAdd ==> (Taken(t.0, project, ref) <==>
            Taken(rows, project, ref) || (body.externalRef == Some(ref) && Stores(rows, project, actor, body, w))))
  {
    var found := Meddled(rows, w.others);
    MeddlingLeaves(rows, w.others, project, ref, mayAdd);
    if Checked(found, project, actor, body, w).Made? {
      WrittenIsTaken(found, project, actor, body, w, ref);
    }
  }

  lemma {:induction false} CreateTakesTheRef(rows: Rows, project: Id, actor: Actor, body: Body, worlds: nat -> World,
                                             tried: nat, ref: string, mayAdd: bool)
    requires tried < TRIES && CreateLeaves(rows, project, actor, body, worlds, tried, ref, mayAdd)
    ensures var r := Create(rows, project, actor, body, worlds, tried);
      && (Taken(rows, project, ref) ==> Taken(r.0, project, ref))
      && (body.externalRef == Some(ref) ==> TookTheRef(rows, project, ref, r.0, r.1))
      && (!mayAdd ==> (Taken(r.0, project, ref) <==>
            Taken(rows, project, ref) ||
            (body.externalRef == Some(ref) && SomeTryStores(rows, project, actor, body, worlds, tried))))
    decreases TRIES - tried
  {
    var t := Try(rows, project, actor, body, worlds(tried));
    TryTakesTheRef(rows, project, actor, body, worlds(tried), ref, mayAdd);
    if t.1.Clash? && tried < TRIES - 1 {
      CreateTakesTheRef(t.0, project, actor, body, worlds, tried + 1, ref, mayAdd);
    }
  }

  /** The first item that carries `ref`. */
  predicate IsFirst(items: seq<Body>, ref: string, first: nat) {
    && first < |items| && items[first].externalRef == Some(ref)
    && forall i :: 0 <= i < first ==> items[i].externalRef != Some(ref)
  }

  predicate SkippedAfter(items: seq<Body>, verdicts: seq<Verdict>, ref: string, first: nat)
    requires |verdicts| <= |items|
  {
    forall i :: first < i < |verdicts| && items[i].externalRef == Some(ref) ==> verdicts[i] == Skipped(ref)
  }

  /** A ref is seen once its first item is done, and its later items are skipped. */
  lemma {:induction false} SeenFromFirst(rows: Rows, project: Id, actor: Actor, items: seq<Body>,
                                         weather: nat -> nat -> World, n: nat, ref: string, first: nat)
    requires n <= |items| && IsFirst(items, ref, first)
    ensures var p := After(rows, project, actor, items, weather, n);
      && (ref in p.seen <==> first < n)
      && SkippedAfter(items, p.verdicts, ref, first)
  {
    if n > 0 {
      SeenFromFirst(rows, project, actor, items, weather, n - 1, ref, first);
      var p := After(rows, project, actor, items, weather, n - 1);
      StepSees(p, project, actor, items[n - 1], weather(n - 1), ref);
    }
  }

  lemma StepSees(p: Progress, project: Id, actor: Actor, body: Body, worlds: nat -> World, ref: string)
    ensures var q, n := Step(p, project, actor, body, worlds), |p.verdicts|;
      && |q.verdicts| == n + 1 && q.verdicts[..n] == p.verdicts
      && (ref in q.seen <==> ref in p.seen || body.externalRef == Some(ref))
      && (body.externalRef == Some(ref) && ref in p.seen ==> q.verdicts[n] == Skipped(ref))
  {
  }

  /** The verdict on the first item of a ref: created only if the ref was free, and
      taken from then on unless it failed. */
  ghost predicate Decided(rows: Rows, project: Id, p: Progress, ref: string, first: nat) {
    && (Taken(rows, project, ref) ==> Taken(p.rows, project, ref))
    && (first < |p.verdicts| ==>
      && (p.verdicts[first].Created? ==> !Taken(rows, project, ref))
      && (p.verdicts[first].Failed? || Taken(p.rows, project, ref)))
  }

  lemma StepDecides(rows: Rows, project: Id, actor: Actor, body: Body, p: Progress, worlds: nat -> World,
                    ref: string, first: nat)
    requires Decided(rows, project, p, ref, first) && StepLeaves(p, project, actor, body, worlds, ref, true)
    requires |p.verdicts| == first ==> body.externalRef == Some(ref) && ref !in p.seen
    ensures Decided(rows, project, Step(p, project, actor, body, worlds), ref, first)
  {
    var q := Step(p, project, actor, body, worlds);
    assert q.verdicts[..|p.verdicts|] == p.verdicts;
    if !(body.externalRef.Some? && body.externalRef.value in p.seen) {
      CreateTakesTheRef(p.rows, project, actor, body, worlds, 0, ref, true);
    }
  }

  /** While nobody removes the ref, the first item that carries it decides. */
  lemma {:induction false} FirstAttemptDecides(rows: Rows, project: Id, actor: Actor, items: seq<Body>,
                                               weather: nat -> nat -> World, n: nat, ref: string, first: nat)
    requires n <= |items| && IsFirst(items, ref, first)
    requires BatchLeaves(rows, project, actor, items, weather, n, ref, true)
    ensures Decided(rows, project, After(rows, project, actor, items, weather, n), ref, first)
  {
    if n > 0 {
      FirstAttemptDecides(rows, project, actor, items, weather, n - 1, ref, first);
      SeenFromFirst(rows, project, actor, items, weather, n - 1, ref, first);
      StepDecides(rows, project, actor, items[n - 1], After(rows, project, actor, items, weather, n - 1),
                  weather(n - 1), ref, first);
    }
  }

  // ---- Exactly when a ref is missing ----

  /** While nobody else adds or removes a ref, a batch leaves it missing exactly when it
      was free before and no try of its first item got its row into the database; the
      items behind that one are skipped and make no difference. */
  lemma {:induction false} MissingExactly(rows: Rows, project: Id, actor: Actor, items: seq<Body>,
                                          weather: nat -> nat -> World, n: nat, ref: string, first: nat)
    requires n <= |items| && IsFirst(items, ref, first)
    requires BatchLeaves(rows, project, actor, items, weather, n, ref, false)
    ensures !Taken(After(rows, project, actor, items, weather, n).rows, project, ref) <==>
      && !Taken(rows, project, ref)
      && (first < n ==> !SomeTryStores(After(rows, project, actor, items, weather, first).rows, project, actor,
                                       items[first], weather(first), 0))
  {
    if n > 0 {
      MissingExactly(rows, project, actor, items, weather, n - 1, ref, first);
      SeenFromFirst(rows, project, actor, items, weather, n - 1, ref, first);
      var p := After(rows, project, actor, items, weather, n - 1);
      var body := items[n - 1];
      if !(body.externalRef.Some? && body.externalRef.value in p.seen) {
        CreateTakesTheRef(p.rows, project, actor, body, weather(n - 1), 0, ref, false);
      }
    }
  }

  // ---- Running the same batch again ----

  /** Somebody removed a task that carries the ref: during either run, or in between. */
  predicate WasRemoved(rows: Rows, project: Id, actor: Actor, items: seq<Body>, weather: nat -> nat -> World,
                       again: Rows, weather': nat -> nat -> World, ref: string) {
    || !BatchLeaves(rows, project, actor, items, weather, |items|, ref, true)
    || (Taken(After(rows, project, actor, items, weather, |items|).rows, project, ref) && !Taken(again, project, ref))
    || !BatchLeaves(again, project, actor, items, weather', |items|, ref, true)
  }

  /** Running a batch again creates only items without a ref, and refs at their first item
      whose one attempt of the first run failed or whose task somebody removed. */
  lemma RerunCreatesOnlyWhatFailed(rows: Rows, project: Id, actor: Actor, items: seq<Body>,
                                   weather: nat -> nat -> World, again: Rows, weather': nat -> nat -> World, j: nat)
    requires j < |items|
    requires After(again, project, actor, items, weather', |items|).verdicts[j].Created?
    ensures items[j].externalRef.None? ||
      (IsFirst(items, items[j].externalRef.value, j) &&
       (After(rows, project, actor, items, weather, |items|).verdicts[j].Failed? ||
        WasRemoved(rows, project, actor, items, weather, again, weather', items[j].externalRef.value)))
  {
    if items[j].externalRef.Some? {
      var ref := items[j].externalRef.value;
      var first := FirstOf(items, ref, j);
      SeenFromFirst(again, project, actor, items, weather', |items|, ref, first);
      if !WasRemoved(rows, project, actor, items, weather, again, weather', ref) {
        FirstAttemptDecides(rows, project, actor, items, weather, |items|, ref, first);
        FirstAttemptDecides(again, project, actor, items, weather', |items|, ref, first);
      }
    }
  }

  ghost function FirstOf(items: seq<Body>, ref: string, j: nat): (first: nat)
    requires j < |items| && items[j].externalRef == Some(ref)
    ensures first <= j && IsFirst(items, ref, first)
  {
    if i :| 0 <= i < j && items[i].externalRef == Some(ref) then FirstOf(items, ref, i) else j
  }

  // ---- A skipped ref may be missing ----

  const PLAIN := Workflow("open", [State("open", false)], [])

  function Denied(k: nat): World {
    World([], true, false, {}, "open", Some(PLAIN), "id", Commits)
  }

  /** A repeated ref is skipped even when the item before it failed: the report lists it
      as skipped, and no task carries it. */
  lemma SkippedRefMayBeMissing()
    ensures var item := Body(Some("r"), None, None, []);
      var p := After(map[], "p", Human, [item, item], i => Denied, 2);
      p.verdicts == [Failed(Forbidden), Skipped("r")] && p.rows == map[]
  {
    var item := Body(Some("r"), None, None, []);
    var items := [item, item];
    var w := Denied(0);
    assert Try(map[], "p", Human, item, w) == (map[], Threw(Forbidden));
    var p0 := After(map[], "p", Human, items, i => Denied, 0);
    var p1 := After(map[], "p", Human, items, i => Denied, 1);
    assert p1 == Step(p0, "p", Human, items[0], Denied);
    assert p1 == Progress(map[], {"r"}, [Failed(Forbidden)]);
    assert After(map[], "p", Human, items, i => Denied, 2) == Step(p1, "p", Human, items[1], Denied);
  }
}
