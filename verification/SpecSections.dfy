/**
 Spec sections of a markdown description: a line-by-line scan with fenced code,
 against a declarative account of which heading fills which field.
 */
module SpecSections {
  import opened Basics
  import opened Trimming

  datatype SpecField =
    | Goal | AcceptanceCriteria | Scope | OutOfScope | Dependencies | Risk | AgentPrompt | Context | Constraints

  datatype Fence = Fence(marker: char, length: nat)

  /** What the heading pattern and the alias table make of a line outside fences. */
  datatype Heading = NotHeading | HeadingFor(field: Option<SpecField>)

  // ---- Text ----

  function JoinLines(lines: seq<string>): string {
    if lines == [] then ""
    else if |lines| == 1 then lines[0]
    else lines[0] + "\n" + JoinLines(lines[1..])
  }

  function WithoutReturn(line: string): string {
    if line != "" && line[|line| - 1] == '\r' then line[..|line| - 1] else line
  }

  function LineFeed(s: string): (i: nat)
    ensures i <= |s| && (i < |s| ==> s[i] == '\n') && forall j :: 0 <= j < i ==> s[j] != '\n'
  {
    if s == "" || s[0] == '\n' then 0 else 1 + LineFeed(s[1..])
  }

  /** `s.split(/\r?\n/)`. */
  function Lines(s: string): seq<string>
    decreases |s|
  {
    var i := LineFeed(s);
    if i == |s| then [s] else [WithoutReturn(s[..i])] + Lines(s[i + 1..])
  }

  function RunLength(s: string, c: char): nat {
    if s != "" && s[0] == c then 1 + RunLength(s[1..], c) else 0
  }

  /** A line that opens or closes a code fence: three or more ` or ~ first. */
  function FenceOf(line: string): Option<Fence> {
    var t := TrimStart(line);
    if t != "" && (t[0] == '`' || t[0] == '~') && RunLength(t, t[0]) >= 3 then Some(Fence(t[0], RunLength(t, t[0])))
    else None
  }

  // ---- Which heading fills which field ----

  predicate Closes(fence: Fence, open: Fence) {
    fence.marker == open.marker && fence.length >= open.length
  }

  function AfterLine(open: Option<Fence>, fence: Option<Fence>): Option<Fence> {
    if fence.None? then open
    else if open.None? then fence
    else if Closes(fence.value, open.value) then None
    else open
  }

  /** The fence that is open in front of line `k`. */
  function FenceAt(lines: seq<string>, k: nat): Option<Fence>
    requires k <= |lines|
  {
    if k == 0 then None else AfterLine(FenceAt(lines, k - 1), FenceOf(lines[k - 1]))
  }

  lemma FenceBehind(lines: seq<string>, k: nat)
    requires k < |lines|
    ensures FenceAt(lines, k + 1) == AfterLine(FenceAt(lines, k), FenceOf(lines[k]))
  {
  }

  predicate IsHeadingAt(lines: seq<string>, heading: string -> Heading, k: nat)
    requires k < |lines|
  {
    FenceOf(lines[k]).None? && FenceAt(lines, k).None? && heading(lines[k]).HeadingFor?
  }

  /** The first unfenced heading from line `from` on, or the end. */
  function SectionEnd(lines: seq<string>, heading: string -> Heading, from: nat): (end: nat)
    requires from <= |lines|
    ensures from <= end <= |lines|
    ensures end < |lines| ==> IsHeadingAt(lines, heading, end)
    ensures forall j :: from <= j < end ==> !IsHeadingAt(lines, heading, j)
    decreases |lines| - from
  {
    if from == |lines| || IsHeadingAt(lines, heading, from) then from else SectionEnd(lines, heading, from + 1)
  }

  function SectionText(lines: seq<string>, heading: string -> Heading, i: nat): string
    requires i < |lines|
  {
    Trim(JoinLines(lines[i + 1..SectionEnd(lines, heading, i + 1)]))
  }

  /** Line `i` is an unfenced heading for `field` with a non-empty section. */
  predicate Fills(lines: seq<string>, heading: string -> Heading, i: nat, field: SpecField)
    requires i < |lines|
  {
    && IsHeadingAt(lines, heading, i) && heading(lines[i]).field == Some(field)
    && SectionText(lines, heading, i) != ""
  }

  predicate FillsFirst(lines: seq<string>, heading: string -> Heading, i: nat, field: SpecField)
    requires i < |lines|
  {
    Fills(lines, heading, i, field) && forall j :: 0 <= j < i ==> !Fills(lines, heading, j, field)
  }

  /** `sections` holds exactly the fields filled by a heading before `bound`,
      each with the text of the first heading that fills it. */
  ghost predicate HoldsUpTo(sections: map<SpecField, string>, lines: seq<string>, heading: string -> Heading,
                            bound: nat)
    requires bound <= |lines|
  {
    && (forall i, f :: 0 <= i < bound && FillsFirst(lines, heading, i, f) ==>
          f in sections && sections[f] == SectionText(lines, heading, i))
    && (forall f :: f in sections ==> exists i :: 0 <= i < bound && FillsFirst(lines, heading, i, f))
  }

  /** A text joins the fields unless it is empty or its field has one already. */
  function Commit(sections: map<SpecField, string>, current: Option<SpecField>, body: seq<string>)
    : map<SpecField, string>
  {
    if current.None? then sections
    else
      var text := Trim(JoinLines(body));
      if text != "" && current.value !in sections then sections[current.value := text] else sections
  }

  /** Committing the section of heading `at` once the next heading, or the end, is met. */
  lemma CommitSection(sections: map<SpecField, string>, lines: seq<string>, heading: string -> Heading, at: nat, k: nat)
    requires at < k <= |lines| && IsHeadingAt(lines, heading, at)
    requires k == |lines| || IsHeadingAt(lines, heading, k)
    requires forall j :: at < j < k ==> !IsHeadingAt(lines, heading, j)
    requires HoldsUpTo(sections, lines, heading, at)
    ensures HoldsUpTo(Commit(sections, heading(lines[at]).field, lines[at + 1..k]), lines, heading, k)
  {
    assert SectionEnd(lines, heading, at + 1) == k;
    CommitKeepsFirst(sections, lines, heading, at, k);
    CommitOnlyFirst(sections, lines, heading, at, k);
  }

  lemma CommitKeepsFirst(sections: map<SpecField, string>, lines: seq<string>, heading: string -> Heading, at: nat,
                         k: nat)
    requires at < k <= |lines| && IsHeadingAt(lines, heading, at) && SectionEnd(lines, heading, at + 1) == k
    requires HoldsUpTo(sections, lines, heading, at)
    ensures var after := Commit(sections, heading(lines[at]).field, lines[at + 1..k]);
      forall i, f :: 0 <= i < k && FillsFirst(lines, heading, i, f) ==>
        f in after && after[f] == SectionText(lines, heading, i)
  {
    var after := Commit(sections, heading(lines[at]).field, lines[at + 1..k]);
    NoHeadingBefore(lines, heading, at, k);
    forall i, f | 0 <= i < k && FillsFirst(lines, heading, i, f)
      ensures f in after && after[f] == SectionText(lines, heading, i)
    {
      if i == at {
        CommitFills(sections, lines, heading, at, k, f);
      } else {
        CommitKeeps(sections, lines, heading, at, heading(lines[at]).field, lines[at + 1..k], i, f);
      }
    }
  }

  lemma CommitKeeps(sections: map<SpecField, string>, lines: seq<string>, heading: string -> Heading, at: nat,
                    current: Option<SpecField>, body: seq<string>, i: nat, f: SpecField)
    requires i < at <= |lines| && HoldsUpTo(sections, lines, heading, at) && FillsFirst(lines, heading, i, f)
    ensures f in Commit(sections, current, body) && Commit(sections, current, body)[f] == SectionText(lines, heading, i)
  {
  }

  lemma CommitFills(sections: map<SpecField, string>, lines: seq<string>, heading: string -> Heading, at: nat, k: nat,
                    f: SpecField)
    requires at < k <= |lines| && IsHeadingAt(lines, heading, at) && SectionEnd(lines, heading, at + 1) == k
    requires HoldsUpTo(sections, lines, heading, at) && FillsFirst(lines, heading, at, f)
    ensures var after := Commit(sections, heading(lines[at]).field, lines[at + 1..k]);
      f in after && after[f] == SectionText(lines, heading, at)
  {
    NotYetHeld(sections, lines, heading, at, f);
  }

  lemma NotYetHeld(sections: map<SpecField, string>, lines: seq<string>, heading: string -> Heading, at: nat,
                   f: SpecField)
    requires at < |lines| && HoldsUpTo(sections, lines, heading, at) && FillsFirst(lines, heading, at, f)
    ensures f !in sections
  {
  }

  /** Between a heading and the end of its section there is no other heading. */
  lemma NoHeadingBefore(lines: seq<string>, heading: string -> Heading, at: nat, k: nat)
    requires at < k <= |lines| && SectionEnd(lines, heading, at + 1) == k
    ensures forall j :: at < j < k ==> !IsHeadingAt(lines, heading, j)
  {
  }

  lemma CommitOnlyFirst(sections: map<SpecField, string>, lines: seq<string>, heading: string -> Heading, at: nat,
                        k: nat)
    requires at < k <= |lines| && IsHeadingAt(lines, heading, at) && SectionEnd(lines, heading, at + 1) == k
    requires HoldsUpTo(sections, lines, heading, at)
    ensures var after := Commit(sections, heading(lines[at]).field, lines[at + 1..k]);
      forall f :: f in after ==> exists i :: 0 <= i < k && FillsFirst(lines, heading, i, f)
  {
    var after := Commit(sections, heading(lines[at]).field, lines[at + 1..k]);
    forall f | f in after
      ensures exists i :: 0 <= i < k && FillsFirst(lines, heading, i, f)
    {
      if f in sections {
        var i :| 0 <= i < at && FillsFirst(lines, heading, i, f);
      } else {
        FirstBelow(sections, lines, heading, at, f);
        assert FillsFirst(lines, heading, at, f);
      }
    }
  }

  /** A field nothing before `at` filled first was not filled before `at` at all. */
  lemma FirstBelow(sections: map<SpecField, string>, lines: seq<string>, heading: string -> Heading, at: nat,
                   f: SpecField)
    requires at <= |lines| && HoldsUpTo(sections, lines, heading, at) && f !in sections
    ensures forall j :: 0 <= j < at ==> !Fills(lines, heading, j, f)
  {
    var j := 0;
    while j < at
      invariant 0 <= j <= at
      invariant forall i :: 0 <= i < j ==> !Fills(lines, heading, i, f)
    {
      assert !FillsFirst(lines, heading, j, f);
      j := j + 1;
    }
  }

  /** Where the scan stands in front of line `k`: `at` is the last heading met, or -1. */
  ghost predicate Scanned(lines: seq<string>, heading: string -> Heading, k: nat, at: int,
                          current: Option<SpecField>, body: seq<string>, sections: map<SpecField, string>)
    requires k <= |lines|
  {
    && -1 <= at < k
    && (forall j :: at < j < k ==> !IsHeadingAt(lines, heading, j))
    && (current.Some? ==> at >= 0 && body == lines[at + 1..k])
    && (if at < 0 then current.None? && sections == map[]
        else IsHeadingAt(lines, heading, at) && current == heading(lines[at]).field
             && HoldsUpTo(sections, lines, heading, at))
  }

  lemma ScanLine(lines: seq<string>, heading: string -> Heading, k: nat, at: int,
                 current: Option<SpecField>, body: seq<string>, sections: map<SpecField, string>)
    requires k < |lines| && Scanned(lines, heading, k, at, current, body, sections) && !IsHeadingAt(lines, heading, k)
    ensures Scanned(lines, heading, k + 1, at, current, if current.Some? then body + [lines[k]] else body, sections)
  {
    assert current.Some? ==> lines[at + 1..k + 1] == lines[at + 1..k] + [lines[k]];
  }

  lemma ScanHeading(lines: seq<string>, heading: string -> Heading, k: nat, at: int,
                    current: Option<SpecField>, body: seq<string>, sections: map<SpecField, string>)
    requires k < |lines| && Scanned(lines, heading, k, at, current, body, sections) && IsHeadingAt(lines, heading, k)
    ensures Scanned(lines, heading, k + 1, k, heading(lines[k]).field, [], Commit(sections, current, body))
  {
    ScanCommit(lines, heading, k, at, current, body, sections);
    assert lines[k + 1..k + 1] == [];
  }

  /** At a heading or at the end, the section that ends there is committed. */
  lemma ScanCommit(lines: seq<string>, heading: string -> Heading, k: nat, at: int,
                   current: Option<SpecField>, body: seq<string>, sections: map<SpecField, string>)
    requires k <= |lines| && Scanned(lines, heading, k, at, current, body, sections)
    requires k == |lines| || IsHeadingAt(lines, heading, k)
    ensures HoldsUpTo(Commit(sections, current, body), lines, heading, k)
  {
    if at >= 0 {
      CommitSection(sections, lines, heading, at, k);
    }
  }

  method ExtractSpecSections(lines: seq<string>, heading: string -> Heading) returns (sections: map<SpecField, string>)
    ensures HoldsUpTo(sections, lines, heading, |lines|)
  {
    sections := map[];
    var current: Option<SpecField> := None;
    var body: seq<string> := [];
    var openFence: Option<Fence> := None;
    ghost var at := -1;  // the last heading met
    for k := 0 to |lines|
      invariant openFence == FenceAt(lines, k)
      invariant Scanned(lines, heading, k, at, current, body, sections)
    {
      var line := lines[k];
      var fence := FenceOf(line);
      FenceBehind(lines, k);
      if fence.Some? {
        ScanLine(lines, heading, k, at, current, body, sections);
        if openFence.None? {
          openFence := fence;
        } else if Closes(fence.value, openFence.value) {
          openFence := None;
        }
        if current.Some? { body := body + [line]; }
      } else if openFence.None? && heading(line).HeadingFor? {
        ScanHeading(lines, heading, k, at, current, body, sections);
        sections := Commit(sections, current, body);
        current := heading(line).field;
        body := [];
        at := k;
      } else {
        ScanLine(lines, heading, k, at, current, body, sections);
        if current.Some? { body := body + [line]; }
      }
    }
    ScanCommit(lines, heading, |lines|, at, current, body, sections);
    sections := Commit(sections, current, body);
  }

  // ---- What the scan means ----

  /** The result of the scan: the text of each field some heading fills. */
  ghost predicate AreSections(sections: map<SpecField, string>, lines: seq<string>, heading: string -> Heading) {
    HoldsUpTo(sections, lines, heading, |lines|)
  }

  lemma SectionsUnique(a: map<SpecField, string>, b: map<SpecField, string>, lines: seq<string>,
                       heading: string -> Heading)
    requires AreSections(a, lines, heading) && AreSections(b, lines, heading)
    ensures a == b
  {
    SectionsAgree(a, b, lines, heading);
    SectionsAgree(b, a, lines, heading);
  }

  lemma SectionsAgree(a: map<SpecField, string>, b: map<SpecField, string>, lines: seq<string>,
                      heading: string -> Heading)
    requires AreSections(a, lines, heading) && AreSections(b, lines, heading)
    ensures forall f :: f in a ==> f in b && a[f] == b[f]
  {
    forall f | f in a
      ensures f in b && a[f] == b[f]
    {
      var i :| 0 <= i < |lines| && FillsFirst(lines, heading, i, f);
    }
  }

  // ---- Fences ----

  /** Once a fence is open and no later line closes it, no heading counts any more. */
  lemma {:induction false} UnclosedFenceSwallows(lines: seq<string>, heading: string -> Heading, k: nat, open: Fence,
                                                 j: nat)
    requires k <= j < |lines| && FenceAt(lines, k) == Some(open)
    requires forall i :: k <= i < |lines| && FenceOf(lines[i]).Some? ==> !Closes(FenceOf(lines[i]).value, open)
    ensures FenceAt(lines, j) == Some(open) && !IsHeadingAt(lines, heading, j)
  {
    if j > k {
      UnclosedFenceSwallows(lines, heading, k, open, j - 1);
    }
  }

  // ---- Appending ----

  lemma {:induction false} FenceAtPrefix(lines: seq<string>, more: seq<string>, k: nat)
    requires k <= |lines|
    ensures FenceAt(lines + more, k) == FenceAt(lines, k)
  {
    if k > 0 {
      FenceAtPrefix(lines, more, k - 1);
      assert (lines + more)[k - 1] == lines[k - 1];
    }
  }

  lemma HeadingAtPrefix(lines: seq<string>, more: seq<string>, heading: string -> Heading, k: nat)
    requires k < |lines|
    ensures IsHeadingAt(lines + more, heading, k) == IsHeadingAt(lines, heading, k)
  {
    FenceAtPrefix(lines, more, k);
  }

  lemma SectionEndPrefix(lines: seq<string>, more: seq<string>, heading: string -> Heading, from: nat)
    requires from <= |lines|
    ensures var end := SectionEnd(lines, heading, from);
      if end < |lines| then SectionEnd(lines + more, heading, from) == end
      else SectionEnd(lines + more, heading, from) >= end
  {
    var all := lines + more;
    var end, newEnd := SectionEnd(lines, heading, from), SectionEnd(all, heading, from);
    if newEnd < |lines| { HeadingAtPrefix(lines, more, heading, newEnd); }
    if end < |lines| { HeadingAtPrefix(lines, more, heading, end); }
  }

  lemma {:induction false} JoinPrefix(a: seq<string>, b: seq<string>)
    ensures JoinLines(a) <= JoinLines(a + b)
  {
    if |a| >= 2 {
      JoinPrefix(a[1..], b);
      assert (a + b)[1..] == a[1..] + b;
    } else if |a| == 1 {
      assert (a + b)[0] == a[0];
    }
  }

  /** Appending lines keeps every section's text or extends it at the end. */
  lemma SectionTextGrows(lines: seq<string>, more: seq<string>, heading: string -> Heading, i: nat)
    requires i < |lines|
    ensures SectionText(lines, heading, i) != "" ==>
      SectionText(lines, heading, i) <= SectionText(lines + more, heading, i)
    ensures SectionEnd(lines, heading, i + 1) < |lines| ==>
      SectionText(lines + more, heading, i) == SectionText(lines, heading, i)
  {
    var all := lines + more;
    SectionEndPrefix(lines, more, heading, i + 1);
    var end, newEnd := SectionEnd(lines, heading, i + 1), SectionEnd(all, heading, i + 1);
    assert all[i + 1..end] == lines[i + 1..end];
    assert all[i + 1..newEnd] == all[i + 1..end] + all[end..newEnd];
    JoinPrefix(all[i + 1..end], all[end..newEnd]);
    if SectionText(lines, heading, i) != "" {
      TrimPrefix(JoinLines(all[i + 1..end]), JoinLines(all[i + 1..newEnd]));
    }
  }

  lemma FillsFirstGrows(lines: seq<string>, more: seq<string>, heading: string -> Heading, i: nat, f: SpecField)
    requires i < |lines| && FillsFirst(lines, heading, i, f)
    ensures FillsFirst(lines + more, heading, i, f)
  {
    var all := lines + more;
    HeadingAtPrefix(lines, more, heading, i);
    SectionTextGrows(lines, more, heading, i);
    forall j | 0 <= j < i
      ensures !Fills(all, heading, j, f)
    {
      if Fills(all, heading, j, f) {
        HeadingAtPrefix(lines, more, heading, j);
        SectionTextGrows(lines, more, heading, j);
        assert SectionEnd(lines, heading, j + 1) <= i;
        assert Fills(lines, heading, j, f);
      }
    }
  }

  /** Appending lines to a description never removes a field, and the old text of
      a field stays a prefix of its new text. */
  lemma AppendingKeepsFields(lines: seq<string>, more: seq<string>, heading: string -> Heading,
                             before: map<SpecField, string>, after: map<SpecField, string>)
    requires AreSections(before, lines, heading) && AreSections(after, lines + more, heading)
    ensures forall f :: f in before ==> f in after && before[f] <= after[f]
  {
    forall f | f in before
      ensures f in after && before[f] <= after[f]
    {
      var i :| 0 <= i < |lines| && FillsFirst(lines, heading, i, f);
      FillsFirstGrows(lines, more, heading, i, f);
      SectionTextGrows(lines, more, heading, i);
    }
  }

  /** In terms of the description itself: text appended after a line break only
      appends lines, unless the description ends in a bare carriage return. */
  lemma {:induction false} LinesAppend(s: string, t: string)
    requires s == "" || s[|s| - 1] != '\r'
    ensures Lines(s + "\n" + t) == Lines(s) + Lines(t)
    decreases |s|
  {
    var i := LineFeed(s);
    if i == |s| {
      FirstLine(s, t);
      OneLine(s);
    } else {
      var line, rest := s[..i], s[i + 1..];
      assert s == line + "\n" + rest;
      LinesAppend(rest, t);
      LineInFront(s, t, line, rest);
    }
  }

  lemma LineInFront(s: string, t: string, line: string, rest: string)
    requires s == line + "\n" + rest && forall j :: 0 <= j < |line| ==> line[j] != '\n'
    requires Lines(rest + "\n" + t) == Lines(rest) + Lines(t)
    ensures Lines(s + "\n" + t) == Lines(s) + Lines(t)
  {
    Around(line, "\n", rest, t);
    FirstLineOf(s, line, rest);
    FirstLineOf(s + "\n" + t, line, rest + "\n" + t);
    FirstOfBoth(WithoutReturn(line), Lines(rest), Lines(t));
  }

  lemma FirstLineOf(s: string, line: string, rest: string)
    requires s == line + "\n" + rest && forall j :: 0 <= j < |line| ==> line[j] != '\n'
    ensures Lines(s) == [WithoutReturn(line)] + Lines(rest)
  {
    FirstLine(line, rest);
  }

  lemma OneLine(s: string)
    requires LineFeed(s) == |s| && (s == "" || s[|s| - 1] != '\r')
    ensures Lines(s) == [WithoutReturn(s)]
  {
  }

  lemma Around<T>(a: seq<T>, b: seq<T>, c: seq<T>, d: seq<T>)
    ensures a + b + c + b + d == a + b + (c + b + d)
  {
  }

  lemma FirstOfBoth<T>(x: T, a: seq<T>, b: seq<T>)
    ensures [x] + (a + b) == [x] + a + b
  {
  }

  lemma FirstLine(line: string, rest: string)
    requires forall j :: 0 <= j < |line| ==> line[j] != '\n'
    ensures Lines(line + "\n" + rest) == [WithoutReturn(line)] + Lines(rest)
  {
    var all := line + "\n" + rest;
    LineFeedAt(all, |line|);
    assert all[..|line|] == line && all[|line| + 1..] == rest;
  }

  lemma LineFeedAt(s: string, i: nat)
    requires i < |s| && s[i] == '\n' && forall j :: 0 <= j < i ==> s[j] != '\n'
    ensures LineFeed(s) == i
  {
  }
}
