/**
 The same search while tasks come, go and change their status between its requests:
 what a task that stays in the pool can rely on.
 */
module MovingPool {
  import opened Basics
  import opened PrefixSearch

  /** The tasks there are at the n-th request. */
  type History = nat -> seq<Task>

  /** The place of a task in the server's order, larger for a newer one. A cursor is the
      place of the last task of the page before it. */
  type Ranks = string -> nat

  // ---- The server ----

  predicate Behind(born: Ranks, id: string, cursor: Option<Cursor>) {
    cursor.Some? ==> born(id) < cursor.value
  }

  /** The task is in one status of the set. */
  predicate Here(tasks: seq<Task>, statuses: seq<Name>, id: string) {
    exists t | t in tasks :: t.id == id && t.status in statuses
  }

  predicate Shown(tasks: seq<Task>, id: string) {
    exists t | t in tasks :: t.id == id
  }

  /** Shown on a page, or left to the pages after it. */
  predicate ShownOrBehind(born: Ranks, id: string, shown: seq<Task>, next: Option<Cursor>) {
    Shown(shown, id) || (next.Some? && Behind(born, id, next))
  }

  /** The task a cursor names is still in the status set. */
  predicate Stands(tasks: seq<Task>, born: Ranks, statuses: seq<Name>, cursor: Option<Cursor>) {
    cursor.Some? ==> exists t | t in tasks :: t.status in statuses && born(t.id) == cursor.value
  }

  predicate NewestFirst(born: Ranks, tasks: seq<Task>) {
    forall i, j :: 0 <= i < j < |tasks| ==> born(tasks[i].id) > born(tasks[j].id)
  }

  predicate IsIn(born: Ranks, task: Task, tasks: seq<Task>, statuses: seq<Name>, cursor: Option<Cursor>) {
    task in tasks && task.status in statuses && Behind(born, task.id, cursor)
  }

  /** The newest tasks behind the cursor; the next page starts behind the last of them. */
  ghost predicate IsRankedPage(reply: Reply, tasks: seq<Task>, born: Ranks, statuses: seq<Name>,
                               cursor: Option<Cursor>) {
    && reply.Page? && NewestFirst(born, reply.tasks)
    && (forall t | t in reply.tasks :: IsIn(born, t, tasks, statuses, cursor))
    && (forall id: string | Here(tasks, statuses, id) && Behind(born, id, cursor) ::
          ShownOrBehind(born, id, reply.tasks, reply.next))
    && (reply.next.Some? ==>
          reply.tasks != [] && reply.next.value == born(reply.tasks[|reply.tasks| - 1].id))
  }

  /** It refuses a name it does not know, and pages from a cursor whose task is still
      there; to any other cursor it may answer anything. */
  ghost predicate RankedAnswer(reply: Reply, tasks: seq<Task>, born: Ranks, valid: set<Name>, q: Query) {
    match FirstUnknown(q.statuses, valid)
    case Some(name) => RefusesName(reply, name)
    case None => Stands(tasks, born, q.statuses, q.cursor) ==> IsRankedPage(reply, tasks, born, q.statuses, q.cursor)
  }

  ghost predicate Ranked(server: Server, history: History, born: Ranks, valid: set<Name>) {
    forall time: nat, q: Query {:trigger RankedAnswer(server(time)(q), history(time), born, valid, q)} ::
      RankedAnswer(server(time)(q), history(time), born, valid, q)
  }

  /** At each request of a pass the last task of the page before is still in the pool. */
  predicate CursorsStand(server: Server, history: History, born: Ranks, statuses: seq<Name>, start: nat, end: nat) {
    forall k: nat | start + k < end ::
      Stands(history(start + k), born, statuses, CursorAt(server, statuses, start, k))
  }

  // ---- One pass ----

  /** In some status of a set at every request from one on and before another. */
  predicate Stays(history: History, id: string, statuses: seq<Name>, from: nat, to: nat) {
    statuses != [] && forall time: nat | from <= time < to :: Here(history(time), statuses, id)
  }

  predicate WasIn(history: History, task: Task, statuses: seq<Name>, from: nat, to: nat) {
    task.status in statuses && exists time: nat :: from <= time < to && task in history(time)
  }

  /** What a pass has seen: tasks that were in its set, each once and newest first, and
      every task that stays, unless it stands behind the cursor the pass ended with. */
  ghost predicate Covers(history: History, born: Ranks, statuses: seq<Name>, start: nat, end: nat,
                         seen: seq<Task>, rest: Option<Cursor>) {
    && NewestFirst(born, seen)
    && (forall t | t in seen :: WasIn(history, t, statuses, start, end))
    && (forall id: string | Stays(history, id, statuses, start, end) :: ShownOrBehind(born, id, seen, rest))
  }

  /** A pass in progress: as above, with everything seen in front of its cursor. */
  ghost predicate Underway(history: History, born: Ranks, statuses: seq<Name>, start: nat, now: nat,
                           seen: seq<Task>, cursor: Option<Cursor>) {
    && (cursor.None? ==> seen == [])
    && (forall t | t in seen :: !Behind(born, t.id, cursor))
    && NewestFirst(born, seen)
    && (forall t | t in seen :: WasIn(history, t, statuses, start, now))
    && (forall id: string | Stays(history, id, statuses, start, now) :: Shown(seen, id) || Behind(born, id, cursor))
  }

  lemma NewestAppend(born: Ranks, seen: seq<Task>, page: seq<Task>, cursor: Option<Cursor>)
    requires NewestFirst(born, seen) && NewestFirst(born, page)
    requires cursor.None? ==> seen == []
    requires forall t | t in seen :: !Behind(born, t.id, cursor)
    requires forall t | t in page :: Behind(born, t.id, cursor)
    ensures NewestFirst(born, seen + page)
  {
    var all := seen + page;
    forall i, j | 0 <= i < j < |all|
      ensures born(all[i].id) > born(all[j].id)
    {
      if i < |seen| <= j {
        assert seen[i] in seen && page[j - |seen|] in page;
      }
    }
  }

  /** What a page adds to what was seen before. */
  lemma PageCovers(history: History, born: Ranks, statuses: seq<Name>, start: nat, now: nat,
                   seen: seq<Task>, cursor: Option<Cursor>, reply: Reply)
    requires start <= now && Underway(history, born, statuses, start, now, seen, cursor)
    requires IsRankedPage(reply, history(now), born, statuses, cursor)
    ensures Covers(history, born, statuses, start, now + 1, seen + reply.tasks, reply.next)
  {
    NewestAppend(born, seen, reply.tasks, cursor);
    forall id: string | Stays(history, id, statuses, start, now + 1)
      ensures ShownOrBehind(born, id, seen + reply.tasks, reply.next)
    {
      assert Stays(history, id, statuses, start, now) && Here(history(now), statuses, id);
      ShownInBoth(seen, reply.tasks, id);
    }
    forall t | t in seen + reply.tasks
      ensures WasIn(history, t, statuses, start, now + 1)
    {
      if t !in seen {
        assert IsIn(born, t, history(now), statuses, cursor);
      }
    }
  }

  lemma ShownInBoth(a: seq<Task>, b: seq<Task>, id: string)
    ensures Shown(a + b, id) <==> Shown(a, id) || Shown(b, id)
  {
    if Shown(a, id) {
      var t :| t in a && t.id == id;
      assert t in a + b;
    }
    if Shown(b, id) {
      var t :| t in b && t.id == id;
      assert t in a + b;
    }
  }

  /** With another page to come, the pass goes on behind the last task of this one. */
  lemma PageGoesOn(history: History, born: Ranks, statuses: seq<Name>, start: nat, now: nat,
                   seen: seq<Task>, cursor: Option<Cursor>, reply: Reply)
    requires start <= now && Underway(history, born, statuses, start, now, seen, cursor)
    requires IsRankedPage(reply, history(now), born, statuses, cursor) && reply.next.Some?
    ensures Underway(history, born, statuses, start, now + 1, seen + reply.tasks, reply.next)
  {
    PageCovers(history, born, statuses, start, now, seen, cursor, reply);
    var all := seen + reply.tasks;
    var last := all[|all| - 1];
    forall t | t in all
      ensures !Behind(born, t.id, reply.next)
    {
      var i :| 0 <= i < |all| && all[i] == t;
      assert i < |all| - 1 ==> born(all[i].id) > born(last.id);
    }
  }

  /** The k-th reply of a pass is a page of the pool as it is then. */
  ghost predicate IsPageAt(server: Server, history: History, born: Ranks, statuses: seq<Name>, start: nat, k: nat) {
    IsRankedPage(ReplyAt(server, statuses, start, k), history(start + k), born, statuses,
                 CursorAt(server, statuses, start, k))
  }

  lemma OnePageMore(history: History, born: Ranks, statuses: seq<Name>, start: nat, now: nat, end: nat,
                    seen: seq<Task>, cursor: Option<Cursor>, reply: Reply, all: seq<Task>, next: Option<Cursor>)
    requires start <= now && end == now + 1 && Underway(history, born, statuses, start, now, seen, cursor)
    requires IsRankedPage(reply, history(now), born, statuses, cursor)
    requires all == seen + reply.tasks && next == reply.next
    ensures Covers(history, born, statuses, start, end, all, next)
    ensures next.Some? ==> Underway(history, born, statuses, start, end, all, next)
  {
    PageCovers(history, born, statuses, start, now, seen, cursor, reply);
    if next.Some? {
      PageGoesOn(history, born, statuses, start, now, seen, cursor, reply);
    }
  }

  lemma NothingSeen(history: History, born: Ranks, statuses: seq<Name>, start: nat)
    ensures Underway(history, born, statuses, start, start, [], None)
  {
  }

  /** What a pass has seen covers the pool, request by request. */
  ghost predicate CoversUpTo(server: Server, history: History, born: Ranks, statuses: seq<Name>, start: nat, n: nat) {
    var seen, cursor := SeenAt(server, statuses, start, n), CursorAt(server, statuses, start, n);
    && (n > 0 ==> Covers(history, born, statuses, start, start + n, seen, cursor))
    && ((n > 0 ==> cursor.Some?) ==> Underway(history, born, statuses, start, start + n, seen, cursor))
  }

  /** Every reply before the n-th request is such a page. */
  ghost predicate PagesUpTo(server: Server, history: History, born: Ranks, statuses: seq<Name>, start: nat, n: nat) {
    forall k | 0 <= k < n :: IsPageAt(server, history, born, statuses, start, k)
  }

  lemma CoversOneMore(server: Server, history: History, born: Ranks, statuses: seq<Name>, start: nat, k: nat, n: nat)
    requires CoversUpTo(server, history, born, statuses, start, k) && LeadsTo(server, statuses, start, k + 1)
    requires PagesUpTo(server, history, born, statuses, start, n) && k < n
    ensures CoversUpTo(server, history, born, statuses, start, k + 1)
  {
    assert IsPageAt(server, history, born, statuses, start, k);
    StepBack(server, statuses, start, k);
    OnePageMore(history, born, statuses, start, start + k, start + (k + 1),
                SeenAt(server, statuses, start, k), CursorAt(server, statuses, start, k),
                ReplyAt(server, statuses, start, k),
                SeenAt(server, statuses, start, k + 1), CursorAt(server, statuses, start, k + 1));
  }

  lemma NothingIsCovered(server: Server, history: History, born: Ranks, statuses: seq<Name>, start: nat)
    ensures CoversUpTo(server, history, born, statuses, start, 0)
  {
    NothingSeen(history, born, statuses, start);
  }

  lemma {:induction false} PagesCover(server: Server, history: History, born: Ranks, statuses: seq<Name>,
                                      start: nat, k: nat, n: nat)
    requires k <= n && PagesUpTo(server, history, born, statuses, start, n) && LeadsTo(server, statuses, start, k)
    ensures CoversUpTo(server, history, born, statuses, start, k)
    decreases k
  {
    if k == 0 {
      NothingIsCovered(server, history, born, statuses, start);
    } else {
      PagesCover(server, history, born, statuses, start, k - 1, n);
      CoversOneMore(server, history, born, statuses, start, k - 1, n);
    }
  }

  lemma RequestIsAnswered(server: Server, history: History, born: Ranks, valid: set<Name>, statuses: seq<Name>,
                          start: nat, k: nat, end: nat)
    requires Ranked(server, history, born, valid) && FirstUnknown(statuses, valid).None?
    requires CursorsStand(server, history, born, statuses, start, end) && start + k < end
    ensures IsPageAt(server, history, born, statuses, start, k)
  {
    var now, q := start + k, Query(statuses, CursorAt(server, statuses, start, k));
    assert RankedAnswer(server(now)(q), history(now), born, valid, q);
  }

  lemma AllArePages(server: Server, history: History, born: Ranks, valid: set<Name>, statuses: seq<Name>,
                    start: nat, n: nat, end: nat)
    requires Ranked(server, history, born, valid) && FirstUnknown(statuses, valid).None?
    requires CursorsStand(server, history, born, statuses, start, end) && start + n <= end
    ensures PagesUpTo(server, history, born, statuses, start, n)
  {
    forall k | 0 <= k < n
      ensures IsPageAt(server, history, born, statuses, start, k)
    {
      RequestIsAnswered(server, history, born, valid, statuses, start, k, end);
    }
  }

  lemma AllAreAnswered(server: Server, history: History, born: Ranks, valid: set<Name>, statuses: seq<Name>,
                       start: nat, end: nat)
    requires Ranked(server, history, born, valid) && FirstUnknown(statuses, valid).None?
    requires CursorsStand(server, history, born, statuses, start, end)
    ensures AllAnswered(server, statuses, start, end)
  {
    forall k: nat | start + k < end
      ensures ReplyAt(server, statuses, start, k).Page?
    {
      RequestIsAnswered(server, history, born, valid, statuses, start, k, end);
    }
  }

  /** A pass that ended: its answer is the match among what it saw, and it leaves a page
      unread only when it found something or met the cap. */
  ghost predicate IsCovering(history: History, born: Ranks, lower: string -> string, prefix: string,
                             statuses: seq<Name>, start: nat, pass: Pass, seen: seq<Task>, rest: Option<Cursor>) {
    && pass.Ended? && pass.asked >= start && |seen| == pass.seen
    && Covers(history, born, statuses, start, pass.asked, seen, rest)
    && pass.found == MatchTaskIdPrefix(lower, seen, prefix)
    && (pass.found.NoMatch? && !pass.capped ==> rest.None?)
  }

  /** Whatever comes, goes or changes meanwhile: a pass sees no task twice, only tasks
      that were in its set at one of its requests, and every task that was there at all
      of them, but for those on the pages it left unread. */
  lemma PassCovers(server: Server, history: History, born: Ranks, valid: set<Name>, lower: string -> string,
                   prefix: string, statuses: seq<Name>, start: nat, pass: Pass)
    returns (seen: seq<Task>, rest: Option<Cursor>)
    requires Ranked(server, history, born, valid) && FirstUnknown(statuses, valid).None?
    requires pass == OnePass(server, lower, prefix, statuses, start)
    requires CursorsStand(server, history, born, statuses, start, pass.asked)
    ensures IsCovering(history, born, lower, prefix, statuses, start, pass, seen, rest)
  {
    AllAreAnswered(server, history, born, valid, statuses, start, pass.asked);
    var n := PassEnds(server, lower, prefix, statuses, start, 0, pass);
    AllArePages(server, history, born, valid, statuses, start, n, pass.asked);
    PagesCover(server, history, born, statuses, start, n, n);
    seen, rest := SeenAt(server, statuses, start, n), CursorAt(server, statuses, start, n);
  }

  lemma {:induction false} MatchingHolds(lower: string -> string, pool: seq<Task>, prefix: string, task: Task)
    requires task in pool && Matches(lower, task, prefix)
    ensures task in Matching(lower, pool, prefix)
  {
    if task != pool[0] {
      MatchingHolds(lower, pool[1..], prefix, task);
    }
  }

  /** A unique answer has no rival among the tasks that stayed but on the unread pages. */
  lemma UniqueAmongTheStaying(history: History, born: Ranks, lower: string -> string, prefix: string,
                              statuses: seq<Name>, start: nat, pass: Pass, seen: seq<Task>, rest: Option<Cursor>,
                              task: Task)
    requires IsCovering(history, born, lower, prefix, statuses, start, pass, seen, rest) && pass.found.Unique?
    requires Stays(history, task.id, statuses, start, pass.asked) && Matches(lower, task, prefix)
    ensures task.id == pass.found.id || (rest.Some? && Behind(born, task.id, rest))
  {
    var i := OneMatching(lower, seen, prefix);
    assert ShownOrBehind(born, task.id, seen, rest);
    if Shown(seen, task.id) {
      var t :| t in seen && t.id == task.id;
      MatchingHolds(lower, seen, prefix, t);
    }
  }

  // ---- The whole search ----

  lemma RankedRefuses(server: Server, history: History, born: Ranks, valid: set<Name>)
    requires Ranked(server, history, born, valid)
    ensures Refuses(server, valid)
  {
    forall time: nat, q: Query | FirstUnknown(q.statuses, valid).Some?
      ensures RefusesName(server(time)(q), FirstUnknown(q.statuses, valid).value)
    {
      assert RankedAnswer(server(time)(q), history(time), born, valid, q);
    }
  }

  /** A pass over no status asks for nothing and covers all tasks in none. */
  lemma NoNameCovers(history: History, born: Ranks, lower: string -> string, prefix: string, asked: nat)
    ensures IsCovering(history, born, lower, prefix, [], asked, Ended(NoMatch, 0, false, asked), [], None)
  {
  }

  lemma {:induction false} AskedAtLeast(server: Server, lower: string -> string, prefix: string, names: seq<Name>,
                                        asked: nat)
    ensures CustomSearch(server, lower, prefix, names, asked).asked >=
            if names == [] then asked else OnePass(server, lower, prefix, names, asked).asked
    decreases |names|
  {
    if names != [] {
      var pass := OnePass(server, lower, prefix, names, asked);
      if pass.Thrown? && RejectedStatus(pass.failure).Some? && RejectedStatus(pass.failure).value in names {
        var fewer := Without(names, RejectedStatus(pass.failure).value);
        AskedAtLeast(server, lower, prefix, fewer, pass.asked);
        AskedBehind(server, lower, prefix, fewer, pass.asked, 0, [], None);
      }
    }
  }

  /** Over names the server knows the search is one pass. */
  lemma KnownPassCovers(server: Server, history: History, born: Ranks, valid: set<Name>, lower: string -> string,
                        prefix: string, known: seq<Name>, from: nat, pass: Pass)
    returns (seen: seq<Task>, rest: Option<Cursor>)
    requires Ranked(server, history, born, valid) && FirstUnknown(known, valid).None? && known != []
    requires pass == CustomSearch(server, lower, prefix, known, from)
    requires CursorsStand(server, history, born, known, from, pass.asked)
    ensures pass == OnePass(server, lower, prefix, known, from)
    ensures IsCovering(history, born, lower, prefix, known, from, pass, seen, rest)
  {
    AskedAtLeast(server, lower, prefix, known, from);
    seen, rest := PassCovers(server, history, born, valid, lower, prefix, known, from,
                             OnePass(server, lower, prefix, known, from));
  }

  lemma CustomSearchCovers(server: Server, history: History, born: Ranks, valid: set<Name>, lower: string -> string,
                           prefix: string, names: seq<Name>, asked: nat, known: seq<Name>, from: nat, pass: Pass)
    returns (seen: seq<Task>, rest: Option<Cursor>)
    requires Ranked(server, history, born, valid) && forall n | n in names :: IsStatusName(n)
    requires known == Known(names, valid) && from == KnownFrom(names, valid, asked)
    requires pass == CustomSearch(server, lower, prefix, names, asked)
    requires CursorsStand(server, history, born, known, from, pass.asked)
    ensures IsCovering(history, born, lower, prefix, known, from, pass, seen, rest)
  {
    RankedRefuses(server, history, born, valid);
    DropsToTheKnown(server, valid, lower, prefix, names, asked);
    if known == [] {
      NoNameCovers(history, born, lower, prefix, from);
      seen, rest := [], None;
    } else {
      seen, rest := KnownPassCovers(server, history, born, valid, lower, prefix, known, from, pass);
    }
  }

  /** The cursors of both passes of a search. */
  predicate SearchStands(server: Server, history: History, born: Ranks, valid: set<Name>, lower: string -> string,
                         prefix: string, names: seq<Name>) {
    var first := OnePass(server, lower, prefix, ALL_TASK_STATUSES, 0);
    && CursorsStand(server, history, born, ALL_TASK_STATUSES, 0, first.asked)
    && CursorsStand(server, history, born, Known(names, valid), KnownFrom(names, valid, first.asked),
                    CustomSearch(server, lower, prefix, names, first.asked).asked)
  }

  /** "None" without the cap: no task matches that was in the built-in statuses at every
      request of the first pass, or in the known custom ones at every request of the last. */
  lemma NoneMeansNoneStayed(server: Server, history: History, born: Ranks, valid: set<Name>, lower: string -> string,
                            prefix: string, names: seq<Name>, complete: bool)
    requires Ranked(server, history, born, valid) && forall n | n in names :: IsStatusName(n)
    requires forall n | n in ALL_TASK_STATUSES :: n in valid
    requires SearchStands(server, history, born, valid, lower, prefix, names)
    ensures var r := Search(server, lower, prefix, names, complete);
      var first := OnePass(server, lower, prefix, ALL_TASK_STATUSES, 0);
      && r.Answered?
      && (r.found.NoMatch? && !r.capped ==>
            var known, from := Known(names, valid), KnownFrom(names, valid, first.asked);
            && (forall t: Task | Stays(history, t.id, ALL_TASK_STATUSES, 0, first.asked) :: !Matches(lower, t, prefix))
            && (forall t: Task | Stays(history, t.id, known, from, r.asked) :: !Matches(lower, t, prefix)))
  {
    var first := OnePass(server, lower, prefix, ALL_TASK_STATUSES, 0);
    var seen, rest := PassCovers(server, history, born, valid, lower, prefix, ALL_TASK_STATUSES, 0, first);
    var second := CustomSearch(server, lower, prefix, names, first.asked);
    var known, from := Known(names, valid), KnownFrom(names, valid, first.asked);
    var seen', rest' := CustomSearchCovers(server, history, born, valid, lower, prefix, names, first.asked,
                                           known, from, second);
    if first.found.NoMatch? && !first.capped {
      NoneOfTheStaying(history, born, lower, prefix, ALL_TASK_STATUSES, 0, first, seen, rest);
    }
    if second.found.NoMatch? && !second.capped {
      NoneOfTheStaying(history, born, lower, prefix, known, from, second, seen', rest');
    }
  }

  lemma NoneOfTheStaying(history: History, born: Ranks, lower: string -> string, prefix: string, statuses: seq<Name>,
                         start: nat, pass: Pass, seen: seq<Task>, rest: Option<Cursor>)
    requires IsCovering(history, born, lower, prefix, statuses, start, pass, seen, rest)
    requires pass.found.NoMatch? && !pass.capped
    ensures forall t: Task | Stays(history, t.id, statuses, start, pass.asked) :: !Matches(lower, t, prefix)
  {
    forall t: Task | Stays(history, t.id, statuses, start, pass.asked)
      ensures !Matches(lower, t, prefix)
    {
      assert ShownOrBehind(born, t.id, seen, rest);
      var shown :| shown in seen && shown.id == t.id;
      assert !Matches(lower, shown, prefix);
    }
  }
}
