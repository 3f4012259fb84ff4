/**
 Polling signals in pages: a cursor over one bounded fetch of a queue that is
 acknowledged and appended to between polls.
 */
module SignalsPoll {
  import opened Basics

  datatype Signal = Signal(id: string, body: string)

  const FETCH_LIMIT: nat := 200

  datatype Page = Page(signals: seq<Signal>, truncated: bool, cursor: Option<string>, atFetchCeiling: bool)

  /** `all.findIndex(s => s.id === id)`, or the length when there is none. */
  function FindIndex(all: seq<Signal>, id: string): (i: nat)
    ensures i <= |all| && (i < |all| ==> all[i].id == id)
    ensures forall j :: 0 <= j < i ==> all[j].id != id
  {
    if all == [] || all[0].id == id then 0 else 1 + FindIndex(all[1..], id)
  }

  /** Just after the cursor; from the start when there is none or it is gone. */
  function StartIndex(all: seq<Signal>, cursor: Option<string>): (start: nat)
    ensures start <= |all|
  {
    if cursor.None? || cursor.value == "" || FindIndex(all, cursor.value) == |all| then 0
    else FindIndex(all, cursor.value) + 1
  }

  function PaginateSignals(all: seq<Signal>, cursor: Option<string>, limit: nat): Page {
    var start := StartIndex(all, cursor);
    var page := all[start..Min(start + limit, |all|)];
    var hasMore := start + |page| < |all|;
    Page(page, hasMore, if hasMore && page != [] then Some(page[|page| - 1].id) else None, |all| >= FETCH_LIMIT)
  }

  /** What one backend fetch returns of the pending queue: its oldest part. */
  function Fetch(queue: seq<Signal>): seq<Signal> {
    queue[..Min(FETCH_LIMIT, |queue|)]
  }

  predicate DistinctIds(all: seq<Signal>) {
    forall i, j :: 0 <= i < j < |all| ==> all[i].id != all[j].id
  }

  lemma FindIndexIs(all: seq<Signal>, i: nat)
    requires DistinctIds(all) && i < |all|
    ensures FindIndex(all, all[i].id) == i
  {
    var k := FindIndex(all, all[i].id);
    assert k <= i;
    assert all[k].id == all[i].id;
  }

  // ---- A stable backlog ----

  predicate NoEmptyIds(all: seq<Signal>) {
    forall s :: s in all ==> s.id != ""
  }

  /** The cursor of a truncated page leads to exactly where the page ended. */
  lemma CursorAdvances(all: seq<Signal>, cursor: Option<string>, limit: nat)
    requires DistinctIds(all) && NoEmptyIds(all) && limit >= 1
    ensures var page := PaginateSignals(all, cursor, limit);
      page.truncated ==>
        page.cursor.Some? && |page.signals| == limit &&
        StartIndex(all, page.cursor) == StartIndex(all, cursor) + limit
  {
    var start := StartIndex(all, cursor);
    if start + limit < |all| {
      assert all[start + limit - 1] in all;
      FindIndexIs(all, start + limit - 1);
    }
  }

  /** Poll after poll, passing each cursor back, until a page is not truncated. */
  function Chain(all: seq<Signal>, cursor: Option<string>, limit: nat): seq<Signal>
    requires DistinctIds(all) && NoEmptyIds(all) && limit >= 1
    decreases |all| - StartIndex(all, cursor)
  {
    var page := PaginateSignals(all, cursor, limit);
    CursorAdvances(all, cursor, limit);
    if page.truncated then page.signals + Chain(all, page.cursor, limit) else page.signals
  }

  /** Every signal from the cursor on, once, in order. */
  lemma {:induction false} ChainIsRest(all: seq<Signal>, cursor: Option<string>, limit: nat)
    requires DistinctIds(all) && NoEmptyIds(all) && limit >= 1
    ensures Chain(all, cursor, limit) == all[StartIndex(all, cursor)..]
    decreases |all| - StartIndex(all, cursor)
  {
    var start, page := StartIndex(all, cursor), PaginateSignals(all, cursor, limit);
    CursorAdvances(all, cursor, limit);
    if page.truncated {
      ChainIsRest(all, page.cursor, limit);
      assert all[start..] == all[start..start + limit] + all[start + limit..];
    }
  }

  lemma ChainIsFetch(all: seq<Signal>, limit: nat)
    requires DistinctIds(all) && NoEmptyIds(all) && limit >= 1
    ensures Chain(all, None, limit) == all
  {
    ChainIsRest(all, None, limit);
  }

  /** Pending signals outside the fetch are announced on every page; no flag means
      the fetch was the whole queue. */
  lemma CeilingIsFlagged(queue: seq<Signal>, cursor: Option<string>, limit: nat)
    ensures |Fetch(queue)| < |queue| ==> PaginateSignals(Fetch(queue), cursor, limit).atFetchCeiling
    ensures !PaginateSignals(Fetch(queue), cursor, limit).atFetchCeiling ==> Fetch(queue) == queue
  {
  }

  function Ids(signals: seq<Signal>): set<string> {
    set s | s in signals :: s.id
  }

  /** The queue once the signals of these ids are acknowledged. */
  function Acked(queue: seq<Signal>, ids: set<string>): (r: seq<Signal>)
    ensures |r| <= |queue|
  {
    if queue == [] then []
    else (if queue[0].id in ids then [] else [queue[0]]) + Acked(queue[1..], ids)
  }

  lemma {:induction false} AckedNone(queue: seq<Signal>, ids: set<string>)
    requires forall s :: s in queue ==> s.id !in ids
    ensures Acked(queue, ids) == queue
  {
    if queue != [] {
      AckedNone(queue[1..], ids);
    }
  }

  /** Acknowledging a whole fetch leaves exactly what lay behind it. */
  lemma {:induction false} AckedPrefix(queue: seq<Signal>, n: nat, ids: set<string>)
    requires n <= |queue| && DistinctIds(queue)
    requires forall k :: 0 <= k < |queue| ==> (queue[k].id in ids <==> k < n)
    ensures Acked(queue, ids) == queue[n..]
  {
    if n == 0 {
      AckedNone(queue, ids);
    } else {
      assert forall k :: 0 <= k < |queue[1..]| ==> queue[1..][k] == queue[k + 1];
      AckedPrefix(queue[1..], n - 1, ids);
    }
  }

  lemma AckedFetch(queue: seq<Signal>)
    requires DistinctIds(queue)
    ensures Acked(queue, Ids(Fetch(queue))) == queue[|Fetch(queue)|..]
  {
    var n := |Fetch(queue)|;
    forall k | 0 <= k < |queue|
      ensures queue[k].id in Ids(Fetch(queue)) <==> k < n
    {
      if k < n { assert Fetch(queue)[k] == queue[k]; }
      if queue[k].id in Ids(Fetch(queue)) {
        var s :| s in Fetch(queue) && s.id == queue[k].id;
        var j :| 0 <= j < n && queue[j] == s;
      }
    }
    AckedPrefix(queue, n, Ids(Fetch(queue)));
  }

  /** A caller that heeds the flags: read all pages of a fetch, acknowledge them,
      and poll again for as long as the fetch was at its ceiling. */
  function DrainBacklog(queue: seq<Signal>, limit: nat): seq<Signal>
    requires DistinctIds(queue) && NoEmptyIds(queue) && limit >= 1
    decreases |queue|
  {
    var fetched := Fetch(queue);
    var got := Chain(fetched, None, limit);
    if |fetched| >= FETCH_LIMIT then
      ChainIsFetch(fetched, limit);
      AckedFetch(queue);
      got + DrainBacklog(Acked(queue, Ids(got)), limit)
    else got
  }

  lemma DropDistinct(queue: seq<Signal>, n: nat)
    requires n <= |queue| && DistinctIds(queue) && NoEmptyIds(queue)
    ensures DistinctIds(queue[n..]) && NoEmptyIds(queue[n..])
  {
  }

  lemma DrainStep(queue: seq<Signal>, limit: nat, rest: seq<Signal>)
    requires DistinctIds(queue) && NoEmptyIds(queue) && limit >= 1
    requires rest == queue[|Fetch(queue)|..] && DistinctIds(rest) && NoEmptyIds(rest)
    ensures DrainBacklog(queue, limit) ==
      if |Fetch(queue)| >= FETCH_LIMIT then Fetch(queue) + DrainBacklog(rest, limit) else Fetch(queue)
  {
    ChainIsFetch(Fetch(queue), limit);
    AckedFetch(queue);
  }

  /** Whatever the size of the backlog, such a caller gets every pending signal
      exactly once, oldest first. */
  lemma {:induction false} DrainIsComplete(queue: seq<Signal>, limit: nat)
    requires DistinctIds(queue) && NoEmptyIds(queue) && limit >= 1
    ensures DrainBacklog(queue, limit) == queue
    decreases |queue|
  {
    var rest := queue[|Fetch(queue)|..];
    DropDistinct(queue, |Fetch(queue)|);
    DrainStep(queue, limit, rest);
    if |Fetch(queue)| >= FETCH_LIMIT {
      DrainIsComplete(rest, limit);
    }
  }

  // ---- Polls, acknowledgements and arrivals in any order ----

  /** The pending queue, the ids any poll has delivered, the cursors handed out, and
      every id that was ever pending. */
  datatype State = State(queue: seq<Signal>, delivered: set<string>, cursors: set<string>, known: set<string>)

  predicate Init(s: State) {
    && DistinctIds(s.queue) && NoEmptyIds(s.queue)
    && s.delivered == {} && s.cursors == {} && s.known == Ids(s.queue)
  }

  function AfterPoll(s: State, cursor: Option<string>, limit: nat): State {
    var page := PaginateSignals(Fetch(s.queue), cursor, limit);
    s.(delivered := s.delivered + Ids(page.signals),
       cursors := s.cursors + if page.cursor.Some? then {page.cursor.value} else {})
  }

  datatype Step =
    | Poll(cursor: Option<string>, limit: nat)
    | Ack(ids: set<string>)
    | Arrive(signal: Signal)

  /** A poll passes back no cursor or any one it was given, an acknowledgement names
      delivered signals, and a new signal joins the end of the queue. */
  predicate Enabled(s: State, step: Step) {
    match step
    case Poll(cursor, limit) => limit >= 1 && (cursor.Some? ==> cursor.value in s.cursors)
    case Ack(ids) => ids <= s.delivered
    case Arrive(signal) => signal.id !in s.known && signal.id != ""
  }

  function Apply(s: State, step: Step): State {
    match step
    case Poll(cursor, limit) => AfterPoll(s, cursor, limit)
    case Ack(ids) => s.(queue := Acked(s.queue, ids))
    case Arrive(signal) => s.(queue := s.queue + [signal], known := s.known + {signal.id})
  }

  /** Everything pending up to and including a cursor was delivered. */
  predicate DeliveredUpTo(s: State, cursor: string) {
    forall i, j :: 0 <= j <= i < |s.queue| && s.queue[i].id == cursor ==> s.queue[j].id in s.delivered
  }

  predicate Inv(s: State) {
    && DistinctIds(s.queue) && NoEmptyIds(s.queue)
    && Ids(s.queue) <= s.known && s.cursors <= s.known
    && forall c :: c in s.cursors ==> DeliveredUpTo(s, c)
  }

  /** Every pending signal in front of the page a poll returns was delivered before. */
  lemma NothingSkipped(s: State, cursor: Option<string>, j: nat)
    requires Inv(s) && (cursor.Some? ==> cursor.value in s.cursors)
    requires j < StartIndex(Fetch(s.queue), cursor)
    ensures s.queue[j].id in s.delivered
  {
    var all := Fetch(s.queue);
    var i := FindIndex(all, cursor.value);
    assert s.queue[i] == all[i];
    assert DeliveredUpTo(s, cursor.value);
  }

  /** A page delivers what lies between its start and its end. */
  lemma PageDelivers(s: State, cursor: Option<string>, limit: nat, j: nat)
    requires Inv(s) && Enabled(s, Poll(cursor, limit))
    requires j < StartIndex(Fetch(s.queue), cursor) + |PaginateSignals(Fetch(s.queue), cursor, limit).signals|
    ensures s.queue[j].id in AfterPoll(s, cursor, limit).delivered
  {
    var all := Fetch(s.queue);
    var start, page := StartIndex(all, cursor), PaginateSignals(all, cursor, limit);
    if j < start {
      NothingSkipped(s, cursor, j);
    } else {
      assert page.signals[j - start] == all[j] && all[j] == s.queue[j];
      assert page.signals[j - start] in page.signals;
    }
  }

  /** The cursor of a page names the signal at its end. */
  lemma PageEnds(s: State, cursor: Option<string>, limit: nat) returns (last: nat)
    requires Inv(s) && Enabled(s, Poll(cursor, limit))
    requires PaginateSignals(Fetch(s.queue), cursor, limit).cursor.Some?
    ensures last < StartIndex(Fetch(s.queue), cursor) + |PaginateSignals(Fetch(s.queue), cursor, limit).signals|
    ensures last < |s.queue| && PaginateSignals(Fetch(s.queue), cursor, limit).cursor.value == s.queue[last].id
  {
    var all := Fetch(s.queue);
    var start, page := StartIndex(all, cursor), PaginateSignals(all, cursor, limit);
    last := start + |page.signals| - 1;
    assert page.signals[|page.signals| - 1] == all[last] && all[last] == s.queue[last];
  }

  lemma CursorIsDelivered(s: State, cursor: Option<string>, limit: nat)
    requires Inv(s) && Enabled(s, Poll(cursor, limit))
    requires PaginateSignals(Fetch(s.queue), cursor, limit).cursor.Some?
    ensures var c := PaginateSignals(Fetch(s.queue), cursor, limit).cursor.value;
      c in Ids(s.queue) && DeliveredUpTo(AfterPoll(s, cursor, limit), c)
  {
    var last := PageEnds(s, cursor, limit);
    var t, c := AfterPoll(s, cursor, limit), s.queue[last].id;
    assert s.queue[last] in s.queue;
    forall i, j | 0 <= j <= i < |t.queue| && t.queue[i].id == c
      ensures t.queue[j].id in t.delivered
    {
      assert s.queue[i].id == s.queue[last].id;
      PageDelivers(s, cursor, limit, j);
    }
  }

  lemma PollKeepsInv(s: State, cursor: Option<string>, limit: nat)
    requires Inv(s) && Enabled(s, Poll(cursor, limit))
    ensures Inv(AfterPoll(s, cursor, limit))
  {
    var t := AfterPoll(s, cursor, limit);
    if PaginateSignals(Fetch(s.queue), cursor, limit).cursor.Some? {
      CursorIsDelivered(s, cursor, limit);
    }
    forall c | c in s.cursors
      ensures DeliveredUpTo(t, c)
    {
      assert DeliveredUpTo(s, c);
    }
  }

  /** Where in the queue the `i`-th signal that stays comes from. */
  function SourceIndex(queue: seq<Signal>, ids: set<string>, i: nat): (a: nat)
    requires i < |Acked(queue, ids)|
    ensures a < |queue| && queue[a] == Acked(queue, ids)[i]
  {
    if queue[0].id in ids then 1 + SourceIndex(queue[1..], ids, i)
    else if i == 0 then 0
    else 1 + SourceIndex(queue[1..], ids, i - 1)
  }

  /** Acknowledging keeps the order of what stays. */
  lemma {:induction false} AckedOrder(queue: seq<Signal>, ids: set<string>, i: nat, j: nat)
    requires j < i < |Acked(queue, ids)|
    ensures SourceIndex(queue, ids, j) < SourceIndex(queue, ids, i)
  {
    if queue[0].id in ids {
      AckedOrder(queue[1..], ids, i, j);
    } else if j > 0 {
      AckedOrder(queue[1..], ids, i - 1, j - 1);
    }
  }

  lemma AckKeepsInv(s: State, ids: set<string>)
    requires Inv(s)
    ensures Inv(s.(queue := Acked(s.queue, ids)))
  {
    var t := s.(queue := Acked(s.queue, ids));
    forall x | x in t.queue
      ensures x in s.queue
    {
      var i :| 0 <= i < |t.queue| && t.queue[i] == x;
      assert s.queue[SourceIndex(s.queue, ids, i)] == x;
    }
    forall j, i | 0 <= j < i < |t.queue|
      ensures t.queue[j].id != t.queue[i].id
    {
      AckedOrder(s.queue, ids, i, j);
    }
    forall c | c in s.cursors
      ensures DeliveredUpTo(t, c)
    {
      AckKeepsCursor(s, ids, c);
    }
  }

  lemma AckKeepsCursor(s: State, ids: set<string>, c: string)
    requires DeliveredUpTo(s, c)
    ensures DeliveredUpTo(s.(queue := Acked(s.queue, ids)), c)
  {
    var after := Acked(s.queue, ids);
    forall i, j | 0 <= j <= i < |after| && after[i].id == c
      ensures after[j].id in s.delivered
    {
      if j < i { AckedOrder(s.queue, ids, i, j); }
      assert s.queue[SourceIndex(s.queue, ids, i)].id == c;
      assert s.queue[SourceIndex(s.queue, ids, j)].id in s.delivered;
    }
  }

  lemma ArriveKeepsInv(s: State, signal: Signal)
    requires Inv(s) && Enabled(s, Arrive(signal))
    ensures Inv(Apply(s, Arrive(signal)))
  {
    var t := Apply(s, Arrive(signal));
    forall j | 0 <= j < |s.queue|
      ensures s.queue[j].id in s.known
    {
      assert s.queue[j] in s.queue;
    }
    forall c | c in s.cursors
      ensures DeliveredUpTo(t, c)
    {
      assert DeliveredUpTo(s, c);
    }
  }

  ghost predicate IsRun(states: seq<State>, steps: seq<Step>) {
    && |states| == |steps| + 1 && Init(states[0])
    && forall k :: 0 <= k < |steps| ==> Enabled(states[k], steps[k]) && states[k + 1] == Apply(states[k], steps[k])
  }

  /** Over any run of polls, acknowledgements and arrivals, whichever of its cursors
      a caller passes back: no pending signal at or before a cursor is undelivered. */
  lemma {:induction false} NoRunSkips(states: seq<State>, steps: seq<Step>, k: nat)
    requires IsRun(states, steps) && k < |states|
    ensures Inv(states[k])
  {
    if k > 0 {
      NoRunSkips(states, steps, k - 1);
      match steps[k - 1]
      case Poll(cursor, limit) => PollKeepsInv(states[k - 1], cursor, limit);
      case Ack(ids) => AckKeepsInv(states[k - 1], ids);
      case Arrive(signal) => ArriveKeepsInv(states[k - 1], signal);
    }
  }
}
