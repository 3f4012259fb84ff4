/**
 The CLI's search for a task by a prefix of its id: a bounded paging of the built-in
 statuses, then of the custom ones, dropping the names the server does not know.
 */
module PrefixSearch {
  import opened Basics
  import opened Trimming

  type Name = string

  type Cursor = nat

  datatype Task = Task(id: string, status: Name)

  /** `code` is the HTTP status of an error the server answered, none for any other failure. */
  datatype Failure = Failure(code: Option<int>, message: Option<string>)

  datatype Query = Query(statuses: seq<Name>, cursor: Option<Cursor>)

  datatype Reply = Page(tasks: seq<Task>, next: Option<Cursor>) | Refused(failure: Failure)

  /** The server's reply to a query as the n-th request. */
  type Server = nat -> Query -> Reply

  const MAX_PAGES := 10

  const ALL_TASK_STATUSES: seq<Name> := ["backlog", "open", "in_progress", "review", "done", "abandoned"]

  // ---- Matching ----

  datatype Match = Unique(id: string) | NoMatch | Ambiguous(matches: seq<Task>)

  /** `lower` is the case folding of ids and prefixes. */
  predicate Matches(lower: string -> string, task: Task, prefix: string) {
    lower(prefix) <= lower(task.id)
  }

  predicate NoneMatches(lower: string -> string, pool: seq<Task>, prefix: string) {
    forall t | t in pool :: !Matches(lower, t, prefix)
  }

  function Matching(lower: string -> string, pool: seq<Task>, prefix: string): (found: seq<Task>)
    ensures found == [] <==> NoneMatches(lower, pool, prefix)
  {
    if pool == [] then []
    else (if Matches(lower, pool[0], prefix) then [pool[0]] else []) + Matching(lower, pool[1..], prefix)
  }

  function MatchTaskIdPrefix(lower: string -> string, pool: seq<Task>, prefix: string): Match {
    var matches := Matching(lower, pool, prefix);
    if |matches| == 1 then Unique(matches[0].id)
    else if |matches| == 0 then NoMatch
    else Ambiguous(matches)
  }

  /** The one place of the one match. */
  predicate OnlyMatchAt(lower: string -> string, pool: seq<Task>, prefix: string, i: nat) {
    && i < |pool| && Matches(lower, pool[i], prefix)
    && NoneMatches(lower, pool[..i], prefix) && NoneMatches(lower, pool[i + 1..], prefix)
  }

  lemma {:induction false} OneMatching(lower: string -> string, pool: seq<Task>, prefix: string) returns (i: nat)
    requires |Matching(lower, pool, prefix)| == 1
    ensures OnlyMatchAt(lower, pool, prefix, i) && Matching(lower, pool, prefix) == [pool[i]]
  {
    if Matches(lower, pool[0], prefix) {
      i := 0;
    } else {
      var k := OneMatching(lower, pool[1..], prefix);
      i := k + 1;
      assert pool[..i] == [pool[0]] + pool[1..][..k];
      assert pool[i + 1..] == pool[1..][k + 1..];
    }
  }

  lemma {:induction false} MatchingAt(lower: string -> string, pool: seq<Task>, prefix: string, i: nat)
    requires OnlyMatchAt(lower, pool, prefix, i)
    ensures Matching(lower, pool, prefix) == [pool[i]]
  {
    if i == 0 {
      assert pool[1..] == pool[i + 1..];
    } else {
      assert pool[0] == pool[..i][0];
      assert pool[1..][..i - 1] == pool[..i][1..];
      assert pool[1..][i..] == pool[i + 1..];
      MatchingAt(lower, pool[1..], prefix, i - 1);
    }
  }

  /** `Unique` names exactly the one task of the pool that matches; never a guess among several. */
  lemma UniqueIsTheOnlyMatch(lower: string -> string, pool: seq<Task>, prefix: string, id: string)
    ensures MatchTaskIdPrefix(lower, pool, prefix) == Unique(id) <==>
            exists i: nat :: OnlyMatchAt(lower, pool, prefix, i) && pool[i].id == id
    ensures MatchTaskIdPrefix(lower, pool, prefix) == NoMatch <==> NoneMatches(lower, pool, prefix)
  {
    if |Matching(lower, pool, prefix)| == 1 {
      var i := OneMatching(lower, pool, prefix);
    }
    forall i: nat | OnlyMatchAt(lower, pool, prefix, i)
      ensures Matching(lower, pool, prefix) == [pool[i]]
    {
      MatchingAt(lower, pool, prefix, i);
    }
  }

  // ---- One pass ----

  /** How a pass or the whole search ends; `asked` counts the requests made so far. */
  datatype Pass = Ended(found: Match, seen: nat, capped: bool, asked: nat) | Thrown(failure: Failure, asked: nat)

  function PassFrom(server: Server, lower: string -> string, prefix: string, statuses: seq<Name>,
                    asked: nat, page: nat, seen: seq<Task>, cursor: Option<Cursor>): Pass
    requires page <= MAX_PAGES
    decreases MAX_PAGES - page
  {
    if page == MAX_PAGES then Ended(NoMatch, |seen|, true, asked)
    else
      match server(asked)(Query(statuses, cursor))
      case Refused(failure) => Thrown(failure, asked + 1)
      case Page(tasks, next) =>
        var found := MatchTaskIdPrefix(lower, seen + tasks, prefix);
        if !found.NoMatch? || next.None? then Ended(found, |seen + tasks|, false, asked + 1)
        else PassFrom(server, lower, prefix, statuses, asked + 1, page + 1, seen + tasks, next)
  }

  function OnePass(server: Server, lower: string -> string, prefix: string, statuses: seq<Name>, asked: nat): Pass {
    PassFrom(server, lower, prefix, statuses, asked, 0, [], None)
  }

  method SearchStatuses(server: Server, lower: string -> string, prefix: string, statuses: seq<Name>, before: nat)
    returns (r: Pass)
    ensures r == OnePass(server, lower, prefix, statuses, before)
    ensures r.asked <= before + MAX_PAGES
  {
    var seen: seq<Task> := [];
    var cursor := None;
    ghost var whole := OnePass(server, lower, prefix, statuses, before);
    for page := 0 to MAX_PAGES
      invariant PassFrom(server, lower, prefix, statuses, before + page, page, seen, cursor) == whole
    {
      var reply := server(before + page)(Query(statuses, cursor));
      if reply.Refused? {
        return Thrown(reply.failure, before + page + 1);
      }
      seen := seen + reply.tasks;
      var found := MatchTaskIdPrefix(lower, seen, prefix);
      if !found.NoMatch? || reply.next.None? {
        return Ended(found, |seen|, false, before + page + 1);
      }
      cursor := reply.next;
    }
    r := Ended(NoMatch, |seen|, true, before + MAX_PAGES);
  }

  // ---- A pass, request by request ----

  /** The cursor the k-th request of a pass is sent with. */
  function CursorAt(server: Server, statuses: seq<Name>, start: nat, k: nat): Option<Cursor> {
    if k == 0 then None
    else
      match server(start + k - 1)(Query(statuses, CursorAt(server, statuses, start, k - 1)))
      case Page(_, next) => next
      case Refused(_) => None
  }

  function ReplyAt(server: Server, statuses: seq<Name>, start: nat, k: nat): Reply {
    server(start + k)(Query(statuses, CursorAt(server, statuses, start, k)))
  }

  /** What a pass has seen before its k-th request. */
  function SeenAt(server: Server, statuses: seq<Name>, start: nat, k: nat): seq<Task> {
    if k == 0 then []
    else
      match ReplyAt(server, statuses, start, k - 1)
      case Page(tasks, _) => SeenAt(server, statuses, start, k - 1) + tasks
      case Refused(_) => SeenAt(server, statuses, start, k - 1)
  }

  /** Every page of a pass before its n-th request leads on to the next. */
  predicate LeadsTo(server: Server, statuses: seq<Name>, start: nat, n: nat) {
    n <= 1 || (CursorAt(server, statuses, start, n - 1).Some? && LeadsTo(server, statuses, start, n - 1))
  }

  lemma StepBack(server: Server, statuses: seq<Name>, start: nat, k: nat)
    requires ReplyAt(server, statuses, start, k).Page? && LeadsTo(server, statuses, start, k + 1)
    ensures LeadsTo(server, statuses, start, k) && (k > 0 ==> CursorAt(server, statuses, start, k).Some?)
    ensures var reply := ReplyAt(server, statuses, start, k);
      && SeenAt(server, statuses, start, k + 1) == SeenAt(server, statuses, start, k) + reply.tasks
      && CursorAt(server, statuses, start, k + 1) == reply.next
  {
  }

  lemma {:induction false} AskedBehind(server: Server, lower: string -> string, prefix: string, statuses: seq<Name>,
                                       asked: nat, page: nat, seen: seq<Task>, cursor: Option<Cursor>)
    requires page <= MAX_PAGES
    ensures PassFrom(server, lower, prefix, statuses, asked, page, seen, cursor).asked >=
            if page < MAX_PAGES then asked + 1 else asked
    decreases MAX_PAGES - page
  {
    if page < MAX_PAGES {
      match server(asked)(Query(statuses, cursor))
      case Refused(_) =>
      case Page(tasks, next) =>
        AskedBehind(server, lower, prefix, statuses, asked + 1, page + 1, seen + tasks, next);
    }
  }

  /** A pass that ended with its n-th request. */
  predicate EndsAfter(server: Server, lower: string -> string, prefix: string, statuses: seq<Name>, start: nat,
                      pass: Pass, n: nat) {
    && n > 0 && LeadsTo(server, statuses, start, n) && pass.Ended? && pass.asked == start + n
    && pass.seen == |SeenAt(server, statuses, start, n)|
    && pass.found == MatchTaskIdPrefix(lower, SeenAt(server, statuses, start, n), prefix)
    && (pass.capped ==> pass.found.NoMatch?)
    && (!pass.capped ==> MatchTaskIdPrefix(lower, SeenAt(server, statuses, start, n - 1), prefix).NoMatch?)
    && (pass.found.NoMatch? && !pass.capped ==> CursorAt(server, statuses, start, n).None?)
  }

  /** A pass before its request number `page`, on its way to the result `pass`. */
  predicate InPass(server: Server, lower: string -> string, prefix: string, statuses: seq<Name>, start: nat,
                   page: nat, pass: Pass)
  {
    && page <= MAX_PAGES && LeadsTo(server, statuses, start, page)
    && pass == PassFrom(server, lower, prefix, statuses, start + page, page,
                        SeenAt(server, statuses, start, page), CursorAt(server, statuses, start, page))
    && MatchTaskIdPrefix(lower, SeenAt(server, statuses, start, page), prefix).NoMatch?
    && (page > 0 ==> CursorAt(server, statuses, start, page).Some?)
  }

  predicate AllAnswered(server: Server, statuses: seq<Name>, start: nat, end: nat) {
    forall k: nat | start + k < end :: ReplyAt(server, statuses, start, k).Page?
  }

  lemma OneRequest(server: Server, lower: string -> string, prefix: string, statuses: seq<Name>, start: nat,
                   page: nat, pass: Pass)
    returns (done: bool)
    requires InPass(server, lower, prefix, statuses, start, page, pass) && page < MAX_PAGES
    requires ReplyAt(server, statuses, start, page).Page?
    ensures done ==> EndsAfter(server, lower, prefix, statuses, start, pass, page + 1)
    ensures !done ==> InPass(server, lower, prefix, statuses, start, page + 1, pass)
  {
    var reply := ReplyAt(server, statuses, start, page);
    var found := MatchTaskIdPrefix(lower, SeenAt(server, statuses, start, page) + reply.tasks, prefix);
    done := !(found.NoMatch? && reply.next.Some?);
  }

  lemma NextIsPage(server: Server, lower: string -> string, prefix: string, statuses: seq<Name>, start: nat,
                   page: nat, pass: Pass)
    requires InPass(server, lower, prefix, statuses, start, page, pass) && page < MAX_PAGES
    requires AllAnswered(server, statuses, start, pass.asked)
    ensures ReplyAt(server, statuses, start, page).Page?
  {
    AskedBehind(server, lower, prefix, statuses, start + page, page, SeenAt(server, statuses, start, page),
                CursorAt(server, statuses, start, page));
  }

  lemma CapEnds(server: Server, lower: string -> string, prefix: string, statuses: seq<Name>, start: nat, pass: Pass)
    requires InPass(server, lower, prefix, statuses, start, MAX_PAGES, pass)
    ensures EndsAfter(server, lower, prefix, statuses, start, pass, MAX_PAGES)
  {
  }

  lemma {:induction false} PassEnds(server: Server, lower: string -> string, prefix: string, statuses: seq<Name>,
                                    start: nat, page: nat, pass: Pass)
    returns (n: nat)
    requires page <= MAX_PAGES && InPass(server, lower, prefix, statuses, start, page, pass)
    requires AllAnswered(server, statuses, start, pass.asked)
    ensures EndsAfter(server, lower, prefix, statuses, start, pass, n)
    decreases MAX_PAGES - page
  {
    if page == MAX_PAGES {
      CapEnds(server, lower, prefix, statuses, start, pass);
      return page;
    }
    NextIsPage(server, lower, prefix, statuses, start, page, pass);
    var done := OneRequest(server, lower, prefix, statuses, start, page, pass);
    n := page + 1;
    if !done {
      n := PassEnds(server, lower, prefix, statuses, start, page + 1, pass);
    }
  }

  // ---- The rejected name ----

  const REJECTION := "invalid status: "

  function NonSpaces(s: string): string {
    if s == [] || IsSpace(s[0]) then [] else [s[0]] + NonSpaces(s[1..])
  }

  /** What stands before the last semicolon. */
  function BeforeLastSemicolon(s: string): Option<string> {
    if s == [] then None
    else if s[|s| - 1] == ';' then Some(s[..|s| - 1])
    else BeforeLastSemicolon(s[..|s| - 1])
  }

  /** The name between the fixed words and a semicolon: a greedy run of non-spaces, as
      long as one semicolon of the run is left to close it. */
  function NameIn(message: string): Option<Name> {
    if !(REJECTION <= message) then None
    else
      match BeforeLastSemicolon(NonSpaces(message[|REJECTION|..]))
      case Some(name) => if name != [] then Some(name) else None
      case None => None
  }

  function RejectedStatus(failure: Failure): Option<Name> {
    if failure.code == Some(400) && failure.message.Some? then NameIn(failure.message.value) else None
  }

  predicate IsStatusName(s: string) {
    s != [] && |s| <= 64 && forall c | c in s :: 'a' <= c <= 'z' || '0' <= c <= '9' || c == '_'
  }

  lemma {:induction false} NonSpacesOf(name: string, rest: string)
    requires forall c | c in name :: !IsSpace(c)
    requires rest != [] && IsSpace(rest[0])
    ensures NonSpaces(name + rest) == name
  {
    if name == [] {
      assert name + rest == rest;
    } else {
      assert (name + rest)[1..] == name[1..] + rest;
      NonSpacesOf(name[1..], rest);
    }
  }

  /** The server's refusal of a status name is read back as that name. */
  lemma RejectionIsReadBack(name: Name, rest: string)
    requires IsStatusName(name)
    ensures NameIn(REJECTION + name + "; " + rest) == Some(name)
  {
    var message := REJECTION + name + "; " + rest;
    assert message[|REJECTION|..] == (name + ";") + (" " + rest);
    assert IsSpace(' ') && !IsSpace(';');
    forall c | c in name
      ensures !IsSpace(c)
    {
    }
    NonSpacesOf(name + ";", " " + rest);
    assert (name + ";")[..|name|] == name;
  }

  // ---- The pass over the custom names ----

  function Without(names: seq<Name>, name: Name): (r: seq<Name>)
    ensures name in names ==> |r| < |names|
    ensures |r| <= |names| && name !in r
    ensures forall n :: n in r <==> n in names && n != name
  {
    if names == [] then []
    else (if names[0] == name then [] else [names[0]]) + Without(names[1..], name)
  }

  function CustomSearch(server: Server, lower: string -> string, prefix: string, names: seq<Name>, asked: nat): Pass
    decreases |names|
  {
    if names == [] then Ended(NoMatch, 0, false, asked)
    else
      var pass := OnePass(server, lower, prefix, names, asked);
      if pass.Ended? then pass
      else
        var rejected := RejectedStatus(pass.failure);
        if rejected.None? || rejected.value !in names then pass
        else CustomSearch(server, lower, prefix, Without(names, rejected.value), pass.asked)
  }

  method SearchCustom(server: Server, lower: string -> string, prefix: string, custom: seq<Name>, before: nat)
    returns (second: Pass)
    ensures second == CustomSearch(server, lower, prefix, custom, before)
    ensures second.asked <= before + MAX_PAGES * |custom|
  {
    var names := custom;
    second := Ended(NoMatch, 0, false, before);
    while names != []
      invariant second.Ended? && second.found == NoMatch && second.seen == 0 && !second.capped
      invariant CustomSearch(server, lower, prefix, names, second.asked) ==
                CustomSearch(server, lower, prefix, custom, before)
      invariant second.asked + MAX_PAGES * |names| <= before + MAX_PAGES * |custom|
      decreases |names|
    {
      var pass := SearchStatuses(server, lower, prefix, names, second.asked);
      if pass.Ended? {
        second := pass;
        return;
      }
      var rejected := RejectedStatus(pass.failure);
      if rejected.None? || rejected.value !in names {
        second := pass;
        return;
      }
      names := Without(names, rejected.value);
      second := Ended(NoMatch, 0, false, pass.asked);
    }
  }

  // ---- The custom names ----

  /** The workflow lists read, one a visible project with the state names in it, none
      for a list that could not be read; `Unread` when the projects could not be listed. */
  datatype Listing = Unread | Listed(projects: seq<Option<seq<Name>>>)

  predicate IsCustom(name: Name) {
    IsStatusName(name) && name !in ALL_TASK_STATUSES
  }

  predicate IsComplete(listing: Listing) {
    listing.Listed? && forall p | p in listing.projects :: p.Some?
  }

  /** A state name of some workflow list that was read. */
  predicate Holds(listing: Listing, name: Name) {
    listing.Listed? && exists p | p in listing.projects :: p.Some? && name in p.value
  }

  /** The order of `sort()`: by the first unit that differs, a prefix first. */
  predicate Before(a: string, b: string) {
    b != "" && (a == "" || a[0] < b[0] || (a[0] == b[0] && Before(a[1..], b[1..])))
  }

  predicate Sorted(names: seq<Name>) {
    forall i, j :: 0 <= i < j < |names| ==> Before(names[i], names[j])
  }

  predicate IsLeast(n: string, names: set<string>) {
    n in names && forall m | m in names :: m == n || Before(n, m)
  }

  lemma {:induction false} BeforeIsTotal(a: string, b: string)
    requires a != b
    ensures Before(a, b) || Before(b, a)
  {
    if a != "" && b != "" && a[0] == b[0] {
      assert a == [a[0]] + a[1..] && b == [b[0]] + b[1..];
      BeforeIsTotal(a[1..], b[1..]);
    }
  }

  lemma {:induction false} BeforeIsTransitive(a: string, b: string, c: string)
    requires Before(a, b) && Before(b, c)
    ensures Before(a, c)
  {
    if a != "" && a[0] == b[0] == c[0] {
      BeforeIsTransitive(a[1..], b[1..], c[1..]);
    }
  }

  lemma {:induction false} SomeIsLeast(names: set<string>) returns (n: string)
    requires names != {}
    ensures IsLeast(n, names)
    decreases |names|
  {
    var x :| x in names;
    var rest := names - {x};
    assert forall y | y in names :: y == x || y in rest;
    n := x;
    if rest != {} {
      var m := SomeIsLeast(rest);
      if !Before(x, m) {
        BeforeIsTotal(x, m);
        n := m;
      } else {
        forall y | y in names
          ensures y == x || Before(x, y)
        {
          if y != x && y != m { BeforeIsTransitive(x, m, y); }
        }
      }
    }
  }

  method ListCustomTaskStatuses(listing: Listing) returns (names: seq<Name>, complete: bool)
    ensures complete == IsComplete(listing)
    ensures forall n :: n in names <==> Holds(listing, n) && IsCustom(n)
    ensures Sorted(names)
  {
    if listing.Unread? {
      return [], false;
    }
    complete := true;
    var found: set<Name> := {};
    for i := 0 to |listing.projects|
      invariant complete == IsComplete(Listed(listing.projects[..i]))
      invariant forall n :: n in found <==> Holds(Listed(listing.projects[..i]), n) && IsCustom(n)
    {
      var p := listing.projects[i];
      assert listing.projects[..i + 1] == listing.projects[..i] + [p];
      assert p in listing.projects[..i + 1];
      if p.None? {
        complete := false;
      } else {
        found := found + set n | n in p.value && IsCustom(n);
      }
    }
    assert listing.projects[..|listing.projects|] == listing.projects;
    names := SortedNames(found);
  }

  /** `[...found].sort()`. */
  method SortedNames(found: set<Name>) returns (names: seq<Name>)
    ensures (forall n :: n in names <==> n in found) && Sorted(names)
  {
    names := [];
    var left := found;
    while left != {}
      invariant left <= found
      invariant forall n :: n in names <==> n in found && n !in left
      invariant Sorted(names)
      invariant forall n, m :: n in names && m in left ==> Before(n, m)
      decreases |left|
    {
      ghost var least := SomeIsLeast(left);
      var n :| n in left && forall m | m in left :: m == n || Before(n, m);
      names, left := names + [n], left - {n};
    }
  }

  // ---- The whole search ----

  datatype Outcome = Answered(found: Match, searched: nat, capped: bool, incomplete: bool, asked: nat)
                   | Failed(failure: Failure, asked: nat)

  function Search(server: Server, lower: string -> string, prefix: string, names: seq<Name>, complete: bool): Outcome {
    match OnePass(server, lower, prefix, ALL_TASK_STATUSES, 0)
    case Thrown(failure, asked) => Failed(failure, asked)
    case Ended(found, seen, capped, asked) =>
      if !found.NoMatch? then Answered(found, seen, false, false, asked)
      else
        match CustomSearch(server, lower, prefix, names, asked)
        case Thrown(failure, asked') => Failed(failure, asked')
        case Ended(found', seen', capped', asked') =>
          Answered(found', seen + seen', capped || capped', !complete, asked')
  }

  predicate AreCustomNames(names: seq<Name>, listing: Listing) {
    && (forall n | n in names :: Holds(listing, n) && IsCustom(n))
    && (listing.Listed? ==> forall p | p in listing.projects ::
          p.Some? ==> forall n | n in p.value :: IsCustom(n) ==> n in names)
  }

  /** The built-in statuses hold no match, so that the custom ones are searched. */
  predicate GoesOn(server: Server, lower: string -> string, prefix: string) {
    var first := OnePass(server, lower, prefix, ALL_TASK_STATUSES, 0);
    first.Ended? && first.found.NoMatch?
  }

  /** The search; against any server it ends within ten requests for the built-in
      statuses and ten for every custom name. */
  method SearchTaskPool(server: Server, lower: string -> string, prefix: string, listing: Listing) returns (r: Outcome)
    ensures exists names :: (GoesOn(server, lower, prefix) ==> AreCustomNames(names, listing) && Sorted(names)) &&
              r == Search(server, lower, prefix, names, IsComplete(listing)) && r.asked <= MAX_PAGES * (1 + |names|)
  {
    var first := SearchStatuses(server, lower, prefix, ALL_TASK_STATUSES, 0);
    if first.Thrown? {
      r := Failed(first.failure, first.asked);
      assert r == Search(server, lower, prefix, [], IsComplete(listing));
    } else if !first.found.NoMatch? {
      r := Answered(first.found, first.seen, false, false, first.asked);
      assert r == Search(server, lower, prefix, [], IsComplete(listing));
    } else {
      var names, complete := ListCustomTaskStatuses(listing);
      assert AreCustomNames(names, listing);
      var second := SearchCustom(server, lower, prefix, names, first.asked);
      if second.Thrown? {
        r := Failed(second.failure, second.asked);
      } else {
        r := Answered(second.found, first.seen + second.seen, first.capped || second.capped, !complete, second.asked);
      }
      assert r == Search(server, lower, prefix, names, complete);
    }
  }

  // ---- Against an honest server ----

  /** The pool of a status set: the tasks in it, newest first as they are. */
  function Pool(tasks: seq<Task>, statuses: seq<Name>): (pool: seq<Task>)
    ensures forall t :: t in pool <==> t in tasks && t.status in statuses
  {
    if tasks == [] then []
    else (if tasks[0].status in statuses then [tasks[0]] else []) + Pool(tasks[1..], statuses)
  }

  function FirstUnknown(statuses: seq<Name>, valid: set<Name>): (r: Option<Name>)
    ensures r.None? <==> forall n | n in statuses :: n in valid
    ensures r.Some? ==> r.value in statuses && r.value !in valid
  {
    if statuses == [] then None
    else if statuses[0] !in valid then Some(statuses[0])
    else FirstUnknown(statuses[1..], valid)
  }

  /** A server over a pool that does not change: it refuses the first name it does not
      know, and otherwise pages through the pool in steps of its own choice. */
  ghost predicate Honest(server: Server, tasks: seq<Task>, valid: set<Name>) {
    forall time: nat, q: Query {:trigger Answers(server(time)(q), tasks, valid, q)} ::
      Answers(server(time)(q), tasks, valid, q)
  }

  /** The refusal of a status name, in the server's own words. */
  ghost predicate RefusesName(reply: Reply, name: Name) {
    && reply.Refused? && reply.failure.code == Some(400) && reply.failure.message.Some?
    && exists rest: string :: reply.failure.message.value == REJECTION + name + "; " + rest
  }

  ghost predicate Answers(reply: Reply, tasks: seq<Task>, valid: set<Name>, q: Query) {
    match FirstUnknown(q.statuses, valid)
    case Some(name) => RefusesName(reply, name)
    case None => IsPageOf(reply, Pool(tasks, q.statuses), q.cursor)
  }

  /** The page behind `cursor` is where a pass ended: nothing in front of it matches, the
      pass saw the tasks up to its end, and those are all when no page comes after it. */
  predicate IsLastPage(reply: Reply, lower: string -> string, prefix: string, pool: seq<Task>,
                       cursor: Option<Cursor>, seen: nat) {
    && reply.Page? && At(cursor) + |reply.tasks| == seen <= |pool|
    && NoneMatches(lower, pool[..At(cursor)], prefix)
    && (reply.next.None? ==> seen == |pool|)
  }

  /** A pass that ended: its answer is the match among the newest `seen` tasks of the
      pool. Unless the cap was hit, these end with the first page that holds a match, or
      with the pool; a pass over no status at all asks for no page. */
  ghost predicate IsScan(server: Server, statuses: seq<Name>, lower: string -> string, prefix: string,
                         pool: seq<Task>, pass: Pass) {
    && pass.Ended?
    && pass.seen <= |pool|
    && pass.found == MatchTaskIdPrefix(lower, pool[..pass.seen], prefix)
    && (pass.found.NoMatch? && !pass.capped ==> pass.seen == |pool|)
    && (pass.capped ==> pass.found.NoMatch?)
    && (pass.capped || pool == [] || EndsWithPage(server, statuses, lower, prefix, pool, pass.seen))
  }

  ghost predicate EndsWithPage(server: Server, statuses: seq<Name>, lower: string -> string, prefix: string,
                               pool: seq<Task>, seen: nat) {
    exists time: nat, cursor: Option<Cursor> ::
      IsLastPage(server(time)(Query(statuses, cursor)), lower, prefix, pool, cursor, seen)
  }

  function At(cursor: Option<Cursor>): nat {
    if cursor.Some? then cursor.value else 0
  }

  /** A page of a pool: what follows the cursor, and where the next page starts. */
  predicate IsPageOf(reply: Reply, pool: seq<Task>, cursor: Option<Cursor>) {
    At(cursor) <= |pool| ==>
      && reply.Page? && reply.tasks <= pool[At(cursor)..]
      && (if reply.next.Some? then At(reply.next) == At(cursor) + |reply.tasks|
          else At(cursor) + |reply.tasks| == |pool|)
  }

  ghost predicate Pages(server: Server, statuses: seq<Name>, pool: seq<Task>) {
    forall time: nat, cursor: Option<Cursor> {:trigger IsPageOf(server(time)(Query(statuses, cursor)), pool, cursor)} ::
      IsPageOf(server(time)(Query(statuses, cursor)), pool, cursor)
  }

  lemma OneMorePage(pool: seq<Task>, seen: seq<Task>, cursor: Option<Cursor>, reply: Reply)
    requires At(cursor) == |seen| && seen <= pool && IsPageOf(reply, pool, cursor)
    ensures reply.Page? && seen + reply.tasks <= pool
    ensures if reply.next.Some? then At(reply.next) == |seen + reply.tasks| else seen + reply.tasks == pool
  {
  }

  lemma {:induction false} CursorWithin(server: Server, statuses: seq<Name>, start: nat, k: nat, pool: seq<Task>)
    requires Pages(server, statuses, pool)
    ensures At(CursorAt(server, statuses, start, k)) <= |pool|
    ensures ReplyAt(server, statuses, start, k).Page?
    ensures IsPageOf(ReplyAt(server, statuses, start, k), pool, CursorAt(server, statuses, start, k))
  {
    if k > 0 {
      CursorWithin(server, statuses, start, k - 1, pool);
    }
    var cursor := CursorAt(server, statuses, start, k);
    assert IsPageOf(server(start + k)(Query(statuses, cursor)), pool, cursor);
  }

  /** Over pages of a pool a pass has seen the newest tasks, up to its cursor or all. */
  predicate SeesStart(server: Server, statuses: seq<Name>, start: nat, n: nat, pool: seq<Task>) {
    var seen, cursor := SeenAt(server, statuses, start, n), CursorAt(server, statuses, start, n);
    && seen <= pool
    && (if n == 0 || cursor.Some? then At(cursor) == |seen| else seen == pool)
  }

  lemma SeesOneMore(server: Server, statuses: seq<Name>, start: nat, k: nat, pool: seq<Task>)
    requires Pages(server, statuses, pool) && LeadsTo(server, statuses, start, k + 1)
    requires SeesStart(server, statuses, start, k, pool)
    ensures SeesStart(server, statuses, start, k + 1, pool)
  {
    var seen, cursor := SeenAt(server, statuses, start, k), CursorAt(server, statuses, start, k);
    CursorWithin(server, statuses, start, k, pool);
    StepBack(server, statuses, start, k);
    OneMorePage(pool, seen, cursor, ReplyAt(server, statuses, start, k));
  }

  lemma {:induction false} SeesTheStart(server: Server, statuses: seq<Name>, start: nat, n: nat, pool: seq<Task>)
    requires Pages(server, statuses, pool) && LeadsTo(server, statuses, start, n)
    ensures SeesStart(server, statuses, start, n, pool)
  {
    if n > 0 {
      SeesTheStart(server, statuses, start, n - 1, pool);
      SeesOneMore(server, statuses, start, n - 1, pool);
    }
  }

  /** A pass that ended after n requests is a scan. */
  lemma EndIsScan(server: Server, lower: string -> string, prefix: string, statuses: seq<Name>, start: nat, n: nat,
                  pool: seq<Task>, pass: Pass)
    requires EndsAfter(server, lower, prefix, statuses, start, pass, n)
    requires SeesStart(server, statuses, start, n, pool) && SeesStart(server, statuses, start, n - 1, pool)
    requires IsPageOf(ReplyAt(server, statuses, start, n - 1), pool, CursorAt(server, statuses, start, n - 1))
    ensures IsScan(server, statuses, lower, prefix, pool, pass)
  {
    var seen, cursor := SeenAt(server, statuses, start, n), CursorAt(server, statuses, start, n - 1);
    assert seen == pool[..|seen|] && SeenAt(server, statuses, start, n - 1) == pool[..At(cursor)];
    if !pass.capped {
      assert IsLastPage(server(start + n - 1)(Query(statuses, cursor)), lower, prefix, pool, cursor, pass.seen);
    }
  }

  lemma PagesAreAnswered(server: Server, statuses: seq<Name>, start: nat, end: nat, pool: seq<Task>)
    requires Pages(server, statuses, pool)
    ensures AllAnswered(server, statuses, start, end)
  {
    forall k: nat | start + k < end
      ensures ReplyAt(server, statuses, start, k).Page?
    {
      CursorWithin(server, statuses, start, k, pool);
    }
  }

  lemma SeesBefore(server: Server, statuses: seq<Name>, start: nat, n: nat, pool: seq<Task>)
    requires Pages(server, statuses, pool) && LeadsTo(server, statuses, start, n) && n > 0
    ensures SeesStart(server, statuses, start, n, pool) && SeesStart(server, statuses, start, n - 1, pool)
    ensures IsPageOf(ReplyAt(server, statuses, start, n - 1), pool, CursorAt(server, statuses, start, n - 1))
  {
    SeesTheStart(server, statuses, start, n - 1, pool);
    SeesOneMore(server, statuses, start, n - 1, pool);
    CursorWithin(server, statuses, start, n - 1, pool);
  }

  lemma PassScans(server: Server, lower: string -> string, prefix: string, statuses: seq<Name>, start: nat,
                  pool: seq<Task>, pass: Pass)
    requires Pages(server, statuses, pool) && pass == OnePass(server, lower, prefix, statuses, start)
    ensures IsScan(server, statuses, lower, prefix, pool, pass)
  {
    PagesAreAnswered(server, statuses, start, pass.asked, pool);
    var n := PassEnds(server, lower, prefix, statuses, start, 0, pass);
    SeesBefore(server, statuses, start, n, pool);
    EndIsScan(server, lower, prefix, statuses, start, n, pool, pass);
  }

  lemma HonestPass(server: Server, tasks: seq<Task>, valid: set<Name>, lower: string -> string, prefix: string,
                   statuses: seq<Name>, asked: nat)
    requires Honest(server, tasks, valid) && FirstUnknown(statuses, valid).None?
    ensures IsScan(server, statuses, lower, prefix, Pool(tasks, statuses),
                   OnePass(server, lower, prefix, statuses, asked))
  {
    var pool := Pool(tasks, statuses);
    forall time: nat, cursor: Option<Cursor>
      ensures IsPageOf(server(time)(Query(statuses, cursor)), pool, cursor)
    {
      assert Answers(server(time)(Query(statuses, cursor)), tasks, valid, Query(statuses, cursor));
    }
    PassScans(server, lower, prefix, statuses, asked, pool, OnePass(server, lower, prefix, statuses, asked));
  }

  /** The names the server knows. */
  function Known(names: seq<Name>, valid: set<Name>): (r: seq<Name>)
    ensures forall n :: n in r <==> n in names && n in valid
  {
    if names == [] then [] else (if names[0] in valid then [names[0]] else []) + Known(names[1..], valid)
  }

  lemma {:induction false} KnownWithout(names: seq<Name>, valid: set<Name>, name: Name)
    requires name !in valid
    ensures Known(Without(names, name), valid) == Known(names, valid)
  {
    if names != [] {
      KnownWithout(names[1..], valid, name);
      if names[0] != name {
        assert Without(names, name)[1..] == Without(names[1..], name);
      } else {
        assert Without(names, name) == Without(names[1..], name);
      }
    }
  }

  lemma {:induction false} AllKnown(names: seq<Name>, valid: set<Name>)
    requires forall n | n in names :: n in valid
    ensures Known(names, valid) == names
  {
    if names != [] {
      AllKnown(names[1..], valid);
    }
  }

  /** It refuses the first name it does not know of every query that has one. */
  ghost predicate Refuses(server: Server, valid: set<Name>) {
    forall time: nat, q: Query {:trigger server(time)(q)} ::
      FirstUnknown(q.statuses, valid).Some? ==>
        RefusesName(server(time)(q), FirstUnknown(q.statuses, valid).value)
  }

  /** The request the pass over the known names begins with: one is refused for each
      name dropped before. */
  function KnownFrom(names: seq<Name>, valid: set<Name>, asked: nat): (from: nat)
    ensures from >= asked
    decreases |names|
  {
    match FirstUnknown(names, valid)
    case Some(name) => KnownFrom(Without(names, name), valid, asked + 1)
    case None => asked
  }

  /** A pass over names of which the server refuses one: the search goes on without it. */
  lemma NameIsDropped(server: Server, lower: string -> string, prefix: string, names: seq<Name>, name: Name,
                      asked: nat)
    requires name in names && IsStatusName(name) && RefusesName(server(asked)(Query(names, None)), name)
    ensures CustomSearch(server, lower, prefix, names, asked) ==
            CustomSearch(server, lower, prefix, Without(names, name), asked + 1)
  {
    var failure := server(asked)(Query(names, None)).failure;
    var rest :| failure.message.value == REJECTION + name + "; " + rest;
    RejectionIsReadBack(name, rest);
    assert RejectedStatus(failure) == Some(name);
    assert OnePass(server, lower, prefix, names, asked) == Thrown(failure, asked + 1);
  }

  /** Dropping one refused name after another comes to one pass over the names the
      server knows; the search never fails on a name. */
  lemma {:induction false} DropsToTheKnown(server: Server, valid: set<Name>, lower: string -> string, prefix: string,
                                           names: seq<Name>, asked: nat)
    requires Refuses(server, valid) && forall n | n in names :: IsStatusName(n)
    ensures CustomSearch(server, lower, prefix, names, asked) ==
            CustomSearch(server, lower, prefix, Known(names, valid), KnownFrom(names, valid, asked))
    decreases |names|
  {
    match FirstUnknown(names, valid)
    case None => AllKnown(names, valid);
    case Some(name) =>
      NameIsDropped(server, lower, prefix, names, name, asked);
      KnownWithout(names, valid, name);
      DropsToTheKnown(server, valid, lower, prefix, Without(names, name), asked + 1);
  }

  lemma HonestRefuses(server: Server, tasks: seq<Task>, valid: set<Name>)
    requires Honest(server, tasks, valid)
    ensures Refuses(server, valid)
  {
    forall time: nat, q: Query | FirstUnknown(q.statuses, valid).Some?
      ensures RefusesName(server(time)(q), FirstUnknown(q.statuses, valid).value)
    {
      assert Answers(server(time)(q), tasks, valid, q);
    }
  }

  /** Against an honest server it scans the tasks in the known names. */
  lemma CustomSearchScansTheKnown(server: Server, tasks: seq<Task>, valid: set<Name>, lower: string -> string,
                                  prefix: string, names: seq<Name>, asked: nat)
    requires Honest(server, tasks, valid) && forall n | n in names :: IsStatusName(n)
    ensures IsScan(server, Known(names, valid), lower, prefix, Pool(tasks, Known(names, valid)),
                   CustomSearch(server, lower, prefix, names, asked))
  {
    var known, from := Known(names, valid), KnownFrom(names, valid, asked);
    HonestRefuses(server, tasks, valid);
    DropsToTheKnown(server, valid, lower, prefix, names, asked);
    if known == [] {
      EmptyPool(tasks);
    } else {
      HonestPass(server, tasks, valid, lower, prefix, known, from);
    }
  }

  lemma {:induction false} EmptyPool(tasks: seq<Task>)
    ensures Pool(tasks, []) == []
  {
    if tasks != [] {
      EmptyPool(tasks[1..]);
    }
  }

  /** A server that knows the built-in statuses is always answered with a result, and
      "none" without the cap means no task in a built-in or known custom status matches. */
  lemma NoneMeansAbsent(server: Server, tasks: seq<Task>, valid: set<Name>, lower: string -> string, prefix: string,
                        listing: Listing, names: seq<Name>)
    requires Honest(server, tasks, valid) && AreCustomNames(names, listing)
    requires forall n | n in ALL_TASK_STATUSES :: n in valid
    ensures var r := Search(server, lower, prefix, names, IsComplete(listing));
      && r.Answered?
      && (r.found.NoMatch? && !r.capped ==>
            forall t | t in tasks && (t.status in ALL_TASK_STATUSES || (t.status in names && t.status in valid)) ::
              !Matches(lower, t, prefix))
      && (r.found.NoMatch? && !r.incomplete ==> listing.Listed? && forall p | p in listing.projects ::
            p.Some? && forall n | n in p.value :: IsCustom(n) ==> n in names)
  {
    HonestPass(server, tasks, valid, lower, prefix, ALL_TASK_STATUSES, 0);
    var first := OnePass(server, lower, prefix, ALL_TASK_STATUSES, 0);
    var builtIn := Pool(tasks, ALL_TASK_STATUSES);
    CustomSearchScansTheKnown(server, tasks, valid, lower, prefix, names, first.asked);
    var second := CustomSearch(server, lower, prefix, names, first.asked);
    var custom := Pool(tasks, Known(names, valid));
    assert builtIn[..|builtIn|] == builtIn && custom[..|custom|] == custom;
  }

  /** A unique answer is the newest match of its pass's pool and the only one among the
      tasks scanned, which end with the page that holds it. */
  lemma UniqueIsTheNewest(server: Server, statuses: seq<Name>, lower: string -> string, prefix: string,
                          pool: seq<Task>, pass: Pass)
    returns (i: nat, time: nat, cursor: Option<Cursor>)
    requires IsScan(server, statuses, lower, prefix, pool, pass) && pass.found.Unique?
    ensures IsLastPage(server(time)(Query(statuses, cursor)), lower, prefix, pool, cursor, pass.seen)
    ensures At(cursor) <= i < pass.seen && pool[i].id == pass.found.id && Matches(lower, pool[i], prefix)
    ensures NoneMatches(lower, pool[..i], prefix)
    ensures forall j :: i < j < pass.seen ==> !Matches(lower, pool[j], prefix)
  {
    i := OneMatching(lower, pool[..pass.seen], prefix);
    time, cursor :| IsLastPage(server(time)(Query(statuses, cursor)), lower, prefix, pool, cursor, pass.seen);
    assert pool[..pass.seen][..i] == pool[..i];
    forall j | 0 <= j < At(cursor)
      ensures !Matches(lower, pool[j], prefix)
    {
      assert pool[j] == pool[..At(cursor)][j];
    }
    assert At(cursor) <= i;
    forall j | i < j < pass.seen
      ensures !Matches(lower, pool[j], prefix)
    {
      assert pool[j] == pool[..pass.seen][i + 1..][j - i - 1];
    }
  }

  lemma {:induction false} MatchingAppend(lower: string -> string, a: seq<Task>, b: seq<Task>, prefix: string)
    ensures Matching(lower, a + b, prefix) == Matching(lower, a, prefix) + Matching(lower, b, prefix)
  {
    if a == [] {
      assert a + b == b;
    } else {
      assert (a + b)[0] == a[0] && (a + b)[1..] == a[1..] + b;
      MatchingAppend(lower, a[1..], b, prefix);
      var head := if Matches(lower, a[0], prefix) then [a[0]] else [];
      assert head + (Matching(lower, a[1..], prefix) + Matching(lower, b, prefix)) ==
             head + Matching(lower, a[1..], prefix) + Matching(lower, b, prefix);
    }
  }

  /** The last page of a pass, with none behind it. */
  predicate EndsPool(reply: Reply, lower: string -> string, prefix: string, pool: seq<Task>,
                     cursor: Option<Cursor>, seen: nat) {
    IsLastPage(reply, lower, prefix, pool, cursor, seen) && reply.next.None?
  }

  /** It is the only match of the whole pool exactly when the pages behind the one that
      holds the newest match hold none; always when that page is the last. */
  lemma UniqueInPool(server: Server, statuses: seq<Name>, lower: string -> string, prefix: string,
                     pool: seq<Task>, pass: Pass)
    requires IsScan(server, statuses, lower, prefix, pool, pass) && pass.found.Unique?
    ensures MatchTaskIdPrefix(lower, pool, prefix) == pass.found <==> NoneMatches(lower, pool[pass.seen..], prefix)
    ensures forall time: nat, cursor: Option<Cursor> ::
      EndsPool(server(time)(Query(statuses, cursor)), lower, prefix, pool, cursor, pass.seen) ==>
        MatchTaskIdPrefix(lower, pool, prefix) == pass.found
  {
    assert pool == pool[..pass.seen] + pool[pass.seen..];
    MatchingAppend(lower, pool[..pass.seen], pool[pass.seen..], prefix);
  }

  /** How many tasks of the custom pool a search has seen. */
  function SeenOfCustom(server: Server, lower: string -> string, prefix: string, names: seq<Name>): nat {
    var first := OnePass(server, lower, prefix, ALL_TASK_STATUSES, 0);
    if first.Ended? && first.found.NoMatch? then
      var second := CustomSearch(server, lower, prefix, names, first.asked);
      if second.Ended? then second.seen else 0
    else 0
  }

  /** The answer is the match among the newest tasks of a pool. */
  predicate IsMatchOfNewest(lower: string -> string, prefix: string, pool: seq<Task>, pass: Pass) {
    pass.Ended? && pass.seen <= |pool| && pass.found == MatchTaskIdPrefix(lower, pool[..pass.seen], prefix)
  }

  lemma BothPassesScan(server: Server, tasks: seq<Task>, valid: set<Name>, lower: string -> string, prefix: string,
                       names: seq<Name>, first: Pass, second: Pass)
    requires Honest(server, tasks, valid) && (forall n | n in names :: IsStatusName(n))
    requires forall n | n in ALL_TASK_STATUSES :: n in valid
    requires first == OnePass(server, lower, prefix, ALL_TASK_STATUSES, 0)
    requires second == CustomSearch(server, lower, prefix, names, first.asked)
    ensures IsMatchOfNewest(lower, prefix, Pool(tasks, ALL_TASK_STATUSES), first)
    ensures IsMatchOfNewest(lower, prefix, Pool(tasks, Known(names, valid)), second)
  {
    HonestPass(server, tasks, valid, lower, prefix, ALL_TASK_STATUSES, 0);
    CustomSearchScansTheKnown(server, tasks, valid, lower, prefix, names, first.asked);
  }

  /** How a search is made of its two passes. */
  lemma SearchOfPasses(server: Server, lower: string -> string, prefix: string, names: seq<Name>, complete: bool,
                       first: Pass, second: Pass)
    requires first == OnePass(server, lower, prefix, ALL_TASK_STATUSES, 0) && first.Ended?
    requires second == CustomSearch(server, lower, prefix, names, first.asked) && second.Ended?
    ensures var r, c := Search(server, lower, prefix, names, complete), SeenOfCustom(server, lower, prefix, names);
      && r.Answered? && c == (if first.found.NoMatch? then second.seen else 0)
      && r.searched == first.seen + c
      && r.found == (if first.found.NoMatch? then second.found else first.found)
  {
  }

  /** The answer of the whole search is the only match among all tasks in a built-in or
      known custom status exactly when the parts of both pools it did not scan hold none. */
  lemma UniqueEverywhere(server: Server, tasks: seq<Task>, valid: set<Name>, lower: string -> string, prefix: string,
                         names: seq<Name>, complete: bool)
    requires Honest(server, tasks, valid) && (forall n | n in names :: IsStatusName(n))
    requires forall n | n in ALL_TASK_STATUSES :: n in valid
    requires var r := Search(server, lower, prefix, names, complete); r.Answered? && r.found.Unique?
    ensures var r := Search(server, lower, prefix, names, complete);
      var builtIn, custom := Pool(tasks, ALL_TASK_STATUSES), Pool(tasks, Known(names, valid));
      var c := SeenOfCustom(server, lower, prefix, names);
      && c <= r.searched && r.searched - c <= |builtIn| && c <= |custom|
      && (MatchTaskIdPrefix(lower, builtIn + custom, prefix) == r.found <==>
          NoneMatches(lower, builtIn[r.searched - c..], prefix) && NoneMatches(lower, custom[c..], prefix))
  {
    var first := OnePass(server, lower, prefix, ALL_TASK_STATUSES, 0);
    var second := CustomSearch(server, lower, prefix, names, first.asked);
    BothPassesScan(server, tasks, valid, lower, prefix, names, first, second);
    SearchOfPasses(server, lower, prefix, names, complete, first, second);
    ScannedParts(lower, prefix, Pool(tasks, ALL_TASK_STATUSES), Pool(tasks, Known(names, valid)), first, second,
                 Search(server, lower, prefix, names, complete).found.id);
  }

  /** The two passes of a search, the second one only when the first found nothing. */
  lemma ScannedParts(lower: string -> string, prefix: string, a: seq<Task>, b: seq<Task>, first: Pass, second: Pass,
                     id: string)
    requires IsMatchOfNewest(lower, prefix, a, first) && IsMatchOfNewest(lower, prefix, b, second)
    requires (if first.found.NoMatch? then second.found else first.found) == Unique(id)
    ensures var j := if first.found.NoMatch? then second.seen else 0;
      MatchTaskIdPrefix(lower, a + b, prefix) == Unique(id) <==>
      NoneMatches(lower, a[first.seen..], prefix) && NoneMatches(lower, b[j..], prefix)
  {
    var j := if first.found.NoMatch? then second.seen else 0;
    assert b[..0] == [];
    UniqueInSplit(lower, prefix, a, b, first.seen, j, id);
  }

  /** One match in the scanned parts of two pools is the only one if the rest has none. */
  lemma UniqueInSplit(lower: string -> string, prefix: string, a: seq<Task>, b: seq<Task>, i: nat, j: nat, id: string)
    requires i <= |a| && j <= |b|
    requires
      var x, y := MatchTaskIdPrefix(lower, a[..i], prefix), MatchTaskIdPrefix(lower, b[..j], prefix);
      (x == NoMatch && y == Unique(id)) || (x == Unique(id) && y == NoMatch)
    ensures MatchTaskIdPrefix(lower, a + b, prefix) == Unique(id) <==>
            NoneMatches(lower, a[i..], prefix) && NoneMatches(lower, b[j..], prefix)
  {
    SplitPools(lower, prefix, a, b, i, j);
  }

  /** The matches of two pools, each split into what was scanned and the rest. */
  lemma SplitPools(lower: string -> string, prefix: string, a: seq<Task>, b: seq<Task>, i: nat, j: nat)
    requires i <= |a| && j <= |b|
    ensures Matching(lower, a + b, prefix) ==
      Matching(lower, a[..i], prefix) + Matching(lower, a[i..], prefix)
      + (Matching(lower, b[..j], prefix) + Matching(lower, b[j..], prefix))
  {
    assert a == a[..i] + a[i..] && b == b[..j] + b[j..];
    MatchingAppend(lower, a, b, prefix);
    MatchingAppend(lower, a[..i], a[i..], prefix);
    MatchingAppend(lower, b[..j], b[j..], prefix);
  }

  const TWINS: seq<Task> := [Task("a1", "open"), Task("a2", "open")]

  /** One task a page. */
  function OneByOne(time: nat): Query -> Reply {
    (q: Query) =>
      if FirstUnknown(q.statuses, {"open"}).Some? then
        Refused(Failure(Some(400), Some(REJECTION + FirstUnknown(q.statuses, {"open"}).value + "; " + "")))
      else
        var pool := Pool(TWINS, q.statuses);
        var at := At(q.cursor);
        if at + 1 < |pool| then Page([pool[at]], Some(at + 1))
        else if at < |pool| then Page([pool[at]], None)
        else Page([], None)
  }

  /** Unique among the tasks scanned need not be unique among all: an older match on a
      page never fetched goes unseen. */
  lemma UniqueMayHideAnOlderMatch()
    ensures Honest(OneByOne, TWINS, {"open"})
    ensures OnePass(OneByOne, x => x, "a", ["open"], 0) == Ended(Unique("a1"), 1, false, 1)
    ensures MatchTaskIdPrefix(x => x, TWINS, "a") == Ambiguous(TWINS)
  {
    forall time: nat, q: Query
      ensures Answers(OneByOne(time)(q), TWINS, {"open"}, q)
    {
    }
    assert TWINS[1..] == [Task("a2", "open")];
    assert Pool(TWINS[1..], ["open"]) == [Task("a2", "open")];
    assert Pool(TWINS, ["open"]) == TWINS;
    assert Matching(x => x, TWINS[1..], "a") == [Task("a2", "open")];
    assert [] + [TWINS[0]] == [TWINS[0]];
    assert Matching(x => x, [TWINS[0]], "a") == [TWINS[0]];
  }
}
