/** The content of a chat message, `renderContent` in `src/components/message.tsx`.

    A message marked as a plan is searched for
    `/<시작>([\s\S]*?)<분할>([\s\S]*?)<분할>([\s\S]*?)<끝>/`: an exam date, an exam place
    and a task list, each a lazy group of any characters. The task list is split on
    `'|'`, each task on `','`, and the lines `<date>: <content>` are joined with newlines.
    The regular expression's meaning is stated separately (`MatchAt`, `Precedes`) and the
    search proved to find exactly the match JavaScript's backtracking matcher reports. */
module PlanMessage {
  import opened Wrappers
  import JsText

  const Open := "<시작>"
  const Divide := "<분할>"
  const Close := "<끝>"

  // ----------------------------------------------------------------------------
  // What the regular expression matches
  // ----------------------------------------------------------------------------

  /** `pat` occurs in `s` at index `i`, compared character by character
      (`OccursAtIsSlice` states it as a slice of `s`). */
  predicate OccursAt(s: string, pat: string, i: nat)
    decreases |pat|
  {
    if pat == [] then i <= |s|
    else i < |s| && s[i] == pat[0] && OccursAt(s, pat[1..], i + 1)
  }

  /** The pattern matches `s` at index `p` with groups `date`, `place` and `tasks`:
      from `p` on, `s` holds `<시작>`, the date, `<분할>`, the place, `<분할>`, the tasks
      and `<끝>`, one right after the other (`MatchAtIsOccurrence` restates this as one
      occurrence of the concatenated text). */
  predicate MatchAt(s: string, p: nat, date: string, place: string, tasks: string) {
    var q := p + |Open| + |date|;
    var q' := q + |Divide| + |place|;
    var q'' := q' + |Divide| + |tasks|;
    && OccursAt(s, Open, p) && OccursAt(s, date, p + |Open|) && OccursAt(s, Divide, q)
    && OccursAt(s, place, q + |Divide|) && OccursAt(s, Divide, q')
    && OccursAt(s, tasks, q' + |Divide|) && OccursAt(s, Close, q'')
  }

  /** A match found by the search: where it starts and its three groups. */
  datatype PlanMatch = PlanMatch(start: nat, date: string, place: string, tasks: string)

  /** JavaScript's choice between two matches: the leftmost start first; at the same
      start the lazy groups prefer the shorter date, then the shorter place, then the
      shorter task list. `m` is chosen over (or is) the match `p, d, pl, t`. */
  ghost predicate Precedes(m: PlanMatch, p: nat, d: string, pl: string, t: string) {
    || m.start < p
    || (m.start == p && |m.date| < |d|)
    || (m.start == p && |m.date| == |d| && |m.place| < |pl|)
    || (m.start == p && |m.date| == |d| && |m.place| == |pl| && |m.tasks| <= |t|)
  }

  // ----------------------------------------------------------------------------
  // The search
  // ----------------------------------------------------------------------------

  /** The first index at or after `from` where `pat` occurs, or -1. */
  function IndexOf(s: string, pat: string, from: nat): (r: int)
    requires |pat| > 0
    ensures r == -1 || (from <= r && r + |pat| <= |s| && OccursAt(s, pat, r))
    decreases |s| - from
  {
    if from + |pat| > |s| then -1
    else if OccursAt(s, pat, from) then from
    else IndexOf(s, pat, from + 1)
  }

  /** Where the four delimiters of a match are: `<시작>` at `a`, `<분할>` at `b` and `c`,
      `<끝>` at `e`. */
  datatype Delimiters = Delimiters(a: nat, b: nat, c: nat, e: nat)

  /** The first `<시작>`, the first `<분할>` after it, the next `<분할>`, and the first
      `<끝>` after that; none when one of them is missing. */
  function FindDelimiters(s: string): (r: Option<Delimiters>)
    ensures r.Some? ==>
              && IndexOf(s, Open, 0) == r.value.a
              && IndexOf(s, Divide, r.value.a + |Open|) == r.value.b
              && IndexOf(s, Divide, r.value.b + |Divide|) == r.value.c
              && IndexOf(s, Close, r.value.c + |Divide|) == r.value.e
    ensures r.Some? ==>
              && r.value.a + |Open| <= r.value.b
              && r.value.b + |Divide| <= r.value.c
              && r.value.c + |Divide| <= r.value.e
              && r.value.e + |Close| <= |s|
    ensures r.Some? ==>
              && OccursAt(s, Open, r.value.a) && OccursAt(s, Divide, r.value.b)
              && OccursAt(s, Divide, r.value.c) && OccursAt(s, Close, r.value.e)
  {
    var a := IndexOf(s, Open, 0);
    if a < 0 then None else
    var b := IndexOf(s, Divide, a + |Open|);
    if b < 0 then None else
    var c := IndexOf(s, Divide, b + |Divide|);
    if c < 0 then None else
    var e := IndexOf(s, Close, c + |Divide|);
    if e < 0 then None else Some(Delimiters(a, b, c, e))
  }

  /** `content.match(...)`: the groups are the text between the delimiters. */
  function Match(s: string): (r: Option<PlanMatch>)
    ensures r.Some? ==> MatchAt(s, r.value.start, r.value.date, r.value.place, r.value.tasks)
  {
    match FindDelimiters(s)
    case None => None
    case Some(d) =>
      assert OccursAt(s, Open, d.a) && OccursAt(s, Divide, d.b) && OccursAt(s, Divide, d.c) && OccursAt(s, Close, d.e);
      GroupsBetween(s, d.a, d.b, d.c, d.e);
      Some(PlanMatch(d.a, s[d.a + |Open|..d.b], s[d.b + |Divide|..d.c], s[d.c + |Divide|..d.e]))
  }

  /** The text between four delimiters that occur in order is a match's groups. */
  lemma {:induction false} GroupsBetween(s: string, a: nat, b: nat, c: nat, e: nat)
    requires a + |Open| <= b && b + |Divide| <= c && c + |Divide| <= e && e + |Close| <= |s|
    requires OccursAt(s, Open, a) && OccursAt(s, Divide, b) && OccursAt(s, Divide, c) && OccursAt(s, Close, e)
    ensures MatchAt(s, a, s[a + |Open|..b], s[b + |Divide|..c], s[c + |Divide|..e])
  {
    var date, place, tasks := s[a + |Open|..b], s[b + |Divide|..c], s[c + |Divide|..e];
    SliceOccurs(s, a + |Open|, b);
    SliceOccurs(s, b + |Divide|, c);
    SliceOccurs(s, c + |Divide|, e);
    MatchAtIntro(s, a, date, place, tasks, b, c, e);
  }

  /** `MatchAt` from its seven occurrences, with the delimiters' positions named. */
  lemma {:induction false} MatchAtIntro(s: string, p: nat, date: string, place: string, tasks: string, q: nat, q': nat, q'': nat)
    requires q == p + |Open| + |date| && q' == q + |Divide| + |place| && q'' == q' + |Divide| + |tasks|
    requires OccursAt(s, Open, p) && OccursAt(s, date, p + |Open|) && OccursAt(s, Divide, q)
    requires OccursAt(s, place, q + |Divide|) && OccursAt(s, Divide, q')
    requires OccursAt(s, tasks, q' + |Divide|) && OccursAt(s, Close, q'')
    ensures MatchAt(s, p, date, place, tasks)
  {
  }

  /** Every slice of `s` occurs in `s` where it starts. */
  lemma {:induction false} SliceOccurs(s: string, i: nat, j: nat)
    requires i <= j <= |s|
    ensures OccursAt(s, s[i..j], i)
  {
    OccursAtIsSlice(s, s[i..j], i);
  }

  // ----------------------------------------------------------------------------
  // Occurrences
  // ----------------------------------------------------------------------------

  /** An occurrence is a slice of `s` equal to the pattern. */
  lemma {:induction false} OccursAtIsSlice(s: string, pat: string, i: nat)
    ensures OccursAt(s, pat, i) <==> i + |pat| <= |s| && s[i..i + |pat|] == pat
    decreases |pat|
  {
    if pat != [] {
      OccursAtIsSlice(s, pat[1..], i + 1);
      if i + |pat| <= |s| {
        assert s[i..i + |pat|] == [s[i]] + s[i + 1..i + |pat|];
        assert pat == [pat[0]] + pat[1..];
      }
    }
  }

  /** An occurrence of `a + b` is an occurrence of `a` followed by one of `b`. */
  lemma {:induction false} OccursConcat(s: string, a: string, b: string, p: nat)
    ensures OccursAt(s, a + b, p) <==> OccursAt(s, a, p) && OccursAt(s, b, p + |a|)
    decreases |a|
  {
    if a == [] {
      assert a + b == b;
      OccursAtIsSlice(s, b, p);
    } else {
      assert (a + b)[1..] == a[1..] + b;
      OccursConcat(s, a[1..], b, p + 1);
    }
  }

  /** A match at `p` is an occurrence at `p` of the text the pattern spells out with
      the groups filled in, `<시작>date<분할>place<분할>tasks<끝>`. */
  lemma MatchAtIsOccurrence(s: string, p: nat, d: string, pl: string, t: string)
    ensures MatchAt(s, p, d, pl, t) <==> OccursAt(s, Open + d + Divide + pl + Divide + t + Close, p)
  {
    var x1 := Open + d;
    var x2 := x1 + Divide;
    var x3 := x2 + pl;
    var x4 := x3 + Divide;
    var x5 := x4 + t;
    OccursConcat(s, x5, Close, p);
    OccursConcat(s, x4, t, p);
    OccursConcat(s, x3, Divide, p);
    OccursConcat(s, x2, pl, p);
    OccursConcat(s, x1, Divide, p);
    OccursConcat(s, Open, d, p);
  }

  /** An occurrence inside a slice is an occurrence in the whole string. */
  lemma OccursInSlice(s: string, i: nat, k: nat, pat: string, j: nat)
    requires i <= k <= |s| && OccursAt(s[i..k], pat, j)
    ensures OccursAt(s, pat, i + j) && i + j + |pat| <= k
  {
    OccursAtIsSlice(s[i..k], pat, j);
    forall x | 0 <= x < |pat| ensures s[i + j + x] == pat[x] {
      assert s[i..k][j..j + |pat|][x] == pat[x];
    }
    assert s[i + j..i + j + |pat|] == pat;
    OccursAtIsSlice(s, pat, i + j);
  }

  /** A group that ends at the first occurrence of `pat` after its start holds none. */
  lemma GroupBeforeFirstOccurrence(s: string, pat: string, from: nat, to: nat)
    requires |pat| > 0 && from <= to <= |s|
    requires forall j :: from <= j < to ==> !OccursAt(s, pat, j)
    ensures forall j :: 0 <= j ==> !OccursAt(s[from..to], pat, j)
  {
    forall j | 0 <= j ensures !OccursAt(s[from..to], pat, j) {
      if OccursAt(s[from..to], pat, j) {
        OccursInSlice(s, from, to, pat, j);
        assert false;
      }
    }
  }

  // ----------------------------------------------------------------------------
  // The search finds the match JavaScript reports
  // ----------------------------------------------------------------------------

  /** The index found is the first: no occurrence lies between `from` and it, and when
      none is found there is no occurrence at or after `from` at all. */
  lemma {:induction false} IndexOfIsFirst(s: string, pat: string, from: nat)
    requires |pat| > 0
    ensures IndexOf(s, pat, from) >= 0 ==>
              forall j :: from <= j < IndexOf(s, pat, from) ==> !OccursAt(s, pat, j)
    ensures IndexOf(s, pat, from) == -1 ==> forall j :: from <= j ==> !OccursAt(s, pat, j)
    decreases |s| - from
  {
    if from + |pat| > |s| {
      forall j | from <= j ensures !OccursAt(s, pat, j) {
        OccursAtIsSlice(s, pat, j);
      }
    } else if !OccursAt(s, pat, from) {
      IndexOfIsFirst(s, pat, from + 1);
    }
  }

  /** An occurrence at or after `from` is not missed: the search finds one at or
      before it. */
  lemma IndexOfFinds(s: string, pat: string, from: nat, q: nat)
    requires |pat| > 0 && from <= q && OccursAt(s, pat, q)
    ensures 0 <= IndexOf(s, pat, from) <= q
  {
    IndexOfIsFirst(s, pat, from);
  }

  /** The delimiters are the four results of the chained search. */
  lemma DelimitersFromSearch(s: string, a: nat, b: nat, c: nat, e: nat)
    requires IndexOf(s, Open, 0) == a && IndexOf(s, Divide, a + |Open|) == b
    requires IndexOf(s, Divide, b + |Divide|) == c && IndexOf(s, Close, c + |Divide|) == e
    ensures FindDelimiters(s) == Some(Delimiters(a, b, c, e))
  {
  }

  /** Each delimiter the search finds lies no later than the corresponding delimiter of
      any match, given here by its four positions. */
  lemma DelimitersNoLater(s: string, p: nat, q: nat, q': nat, q'': nat)
    requires p + |Open| <= q && q + |Divide| <= q' && q' + |Divide| <= q''
    requires OccursAt(s, Open, p) && OccursAt(s, Divide, q) && OccursAt(s, Divide, q') && OccursAt(s, Close, q'')
    ensures FindDelimiters(s).Some?
    ensures var r := FindDelimiters(s).value; r.a <= p && r.b <= q && r.c <= q' && r.e <= q''
  {
    IndexOfFinds(s, Open, 0, p);
    var a := IndexOf(s, Open, 0);
    IndexOfFinds(s, Divide, a + |Open|, q);
    var b := IndexOf(s, Divide, a + |Open|);
    IndexOfFinds(s, Divide, b + |Divide|, q');
    var c := IndexOf(s, Divide, b + |Divide|);
    IndexOfFinds(s, Close, c + |Divide|, q'');
    var e := IndexOf(s, Close, c + |Divide|);
    DelimitersFromSearch(s, a, b, c, e);
  }

  /** The search misses no match and picks the one JavaScript reports: whenever the
      pattern matches anywhere, `Match` finds a match, and it precedes every match. */
  lemma MatchIsLeftmostLazy(s: string, p: nat, d: string, pl: string, t: string)
    requires MatchAt(s, p, d, pl, t)
    ensures Match(s).Some? && Precedes(Match(s).value, p, d, pl, t)
  {
    var q := p + |Open| + |d|;
    var q' := q + |Divide| + |pl|;
    var q'' := q' + |Divide| + |t|;
    DelimitersNoLater(s, p, q, q', q'');
    var r := FindDelimiters(s).value;
    var m := Match(s).value;
    assert m == PlanMatch(r.a, s[r.a + |Open|..r.b], s[r.b + |Divide|..r.c], s[r.c + |Divide|..r.e]);
  }

  /** The reported match precedes every match of the pattern. */
  lemma MatchIsLeast(s: string)
    ensures Match(s).Some? ==>
              forall p: nat, d, pl, t :: MatchAt(s, p, d, pl, t) ==> Precedes(Match(s).value, p, d, pl, t)
  {
    if Match(s).Some? {
      forall p: nat, d, pl, t | MatchAt(s, p, d, pl, t) ensures Precedes(Match(s).value, p, d, pl, t) {
        MatchIsLeftmostLazy(s, p, d, pl, t);
      }
    }
  }

  /** No match is reported exactly when the pattern matches nowhere. */
  lemma NoMatchIffNoOccurrence(s: string)
    ensures Match(s).None? <==> forall p: nat, d, pl, t :: !MatchAt(s, p, d, pl, t)
  {
    if Match(s).None? {
      forall p: nat, d, pl, t | MatchAt(s, p, d, pl, t) ensures false {
        MatchIsLeftmostLazy(s, p, d, pl, t);
      }
    } else {
      var m := Match(s).value;
      assert MatchAt(s, m.start, m.date, m.place, m.tasks);
    }
  }

  /** The text from `from` up to the occurrence the search finds holds no occurrence. */
  lemma NoneBeforeFound(s: string, pat: string, from: nat)
    requires |pat| > 0 && IndexOf(s, pat, from) >= 0
    ensures forall j :: 0 <= j ==> !OccursAt(s[from..IndexOf(s, pat, from)], pat, j)
  {
    IndexOfIsFirst(s, pat, from);
    GroupBeforeFirstOccurrence(s, pat, from, IndexOf(s, pat, from));
  }

  /** The groups contain no delimiter that would have ended them earlier: the date and
      the place contain no `<분할>`, the task list no `<끝>`. */
  lemma LazyGroupsStopAtFirstDelimiter(s: string)
    requires Match(s).Some?
    ensures var m := Match(s).value;
            && (forall j :: 0 <= j ==> !OccursAt(m.date, Divide, j))
            && (forall j :: 0 <= j ==> !OccursAt(m.place, Divide, j))
            && (forall j :: 0 <= j ==> !OccursAt(m.tasks, Close, j))
  {
    var d := FindDelimiters(s).value;
    NoneBeforeFound(s, Divide, d.a + |Open|);
    NoneBeforeFound(s, Divide, d.b + |Divide|);
    NoneBeforeFound(s, Close, d.c + |Divide|);
  }

  // ----------------------------------------------------------------------------
  // The task list
  // ----------------------------------------------------------------------------

  /** `${taskDate}: ${taskContent}` for `[taskDate, taskContent] = task.split(',')`:
      a task without a comma has no content, which the template renders as
      "undefined"; text after a second comma is dropped. */
  function TaskLine(task: string): (r: string)
    ensures ',' !in task ==> r == task + ": undefined"
  {
    var fields := JsText.Split(task, ',');
    assert ',' !in task ==> fields == [task] by {
      if ',' !in task { JsText.SplitWithoutSeparator(task, ','); }
    }
    assert ": " + "undefined" == ": undefined";
    fields[0] + ": " + (if |fields| >= 2 then fields[1] else "undefined")
  }

  /** One line per `'|'`-separated task. */
  function TaskLines(tasks: string): (lines: seq<string>)
    ensures |lines| == JsText.Count(tasks, '|') + 1 == |JsText.Split(tasks, '|')|
    ensures forall k :: 0 <= k < |lines| ==> lines[k] == TaskLine(JsText.Split(tasks, '|')[k])
  {
    var parts := JsText.Split(tasks, '|');
    JsText.SplitCount(tasks, '|');
    seq(|parts|, k requires 0 <= k < |parts| => TaskLine(parts[k]))
  }

  /** The `<pre>` text: the task lines joined by newlines. */
  function TaskList(tasks: string): (r: string)
    ensures '|' !in tasks ==> r == TaskLine(tasks)
  {
    assert '|' !in tasks ==> JsText.Split(tasks, '|') == [tasks] by {
      if '|' !in tasks { JsText.SplitWithoutSeparator(tasks, '|'); }
    }
    JsText.Join(TaskLines(tasks), "\n")
  }

  /** The text of `s` before the first `c`, all of `s` when there is none. */
  function TakeUntil(s: string, c: char): (r: string)
    ensures |r| <= |s| && c !in r && r == s[..|r|]
    ensures |r| < |s| ==> s[|r|] == c
  {
    if s == [] || s[0] == c then [] else [s[0]] + TakeUntil(s[1..], c)
  }

  /** The first piece of a split is the text before the first separator; after it come
      the pieces of the rest. */
  lemma {:induction false} SplitHead(s: string, c: char)
    ensures JsText.Split(s, c)[0] == TakeUntil(s, c)
    ensures |TakeUntil(s, c)| == |s| ==> JsText.Split(s, c) == [s]
    ensures |TakeUntil(s, c)| < |s| ==>
              JsText.Split(s, c) == [TakeUntil(s, c)] + JsText.Split(s[|TakeUntil(s, c)| + 1..], c)
  {
    if s != [] && s[0] != c {
      SplitHead(s[1..], c);
      var k := |TakeUntil(s[1..], c)|;
      if k < |s[1..]| {
        assert s[1..][k + 1..] == s[k + 2..];
      } else {
        assert [s[0]] + s[1..] == s;
      }
    }
  }

  /** A task with a comma renders as the text before the first comma, ": ", and the text
      between the first comma and the second (or the end). */
  lemma {:induction false} TaskLineWithComma(task: string)
    requires ',' in task
    ensures var date := TakeUntil(task, ',');
            var rest := task[|date| + 1..];
            TaskLine(task) == date + ": " + TakeUntil(rest, ',')
  {
    SplitHead(task, ',');
    var date := TakeUntil(task, ',');
    SplitHead(task[|date| + 1..], ',');
  }

  /** The task list ends with the last task's line: no trailing newline. */
  lemma {:induction false} TaskListEndsWithLastLine(tasks: string)
    ensures var lines := TaskLines(tasks);
            var list := TaskList(tasks);
            |list| >= |lines[|lines| - 1]| && list[|list| - |lines[|lines| - 1]|..] == lines[|lines| - 1]
  {
    JsText.JoinEndsWithLast(TaskLines(tasks), "\n");
  }

  /** When no task contains a newline, splitting the list on newlines gives back exactly
      one line per task. */
  lemma TaskListLines(tasks: string)
    requires '\n' !in tasks
    ensures JsText.Split(TaskList(tasks), '\n') == TaskLines(tasks)
  {
    var lines := TaskLines(tasks);
    var parts := JsText.Split(tasks, '|');
    JsText.SplitPiecesFromString(tasks, '|');
    forall k | 0 <= k < |lines| ensures '\n' !in lines[k] {
      JsText.SplitPiecesFromString(parts[k], ',');
      assert '\n' !in ": undefined" && '\n' !in ": ";
    }
    JsText.SplitJoin(lines, '\n');
  }

  // ----------------------------------------------------------------------------
  // renderContent and the message
  // ----------------------------------------------------------------------------

  /** What the message body shows: the children as given, the text as it is, or the
      plan view (exam date, exam place, task list). */
  datatype Content<Node> =
    | Children(node: Node)
    | Text(text: string)
    | PlanView(date: string, place: string, taskList: string)

  /** `renderContent()`: children win when given; a plan message that matches is shown
      as a plan; everything else is the content verbatim. */
  function RenderContent<Node>(children: Option<Node>, plan: bool, content: string): (r: Content<Node>)
    ensures children.Some? ==> r == Children(children.value)
    ensures children.None? && !plan ==> r == Text(content)
    ensures r.PlanView? ==> children.None? && plan
  {
    if children.Some? then Children(children.value)
    else if plan && Match(content).Some? then
      var m := Match(content).value;
      PlanView(m.date, m.place, TaskList(m.tasks))
    else Text(content)
  }

  /** A plan message whose content the pattern matches nowhere is shown verbatim. */
  lemma UnmatchedPlanIsText<Node>(content: string)
    requires forall p: nat, d, pl, t :: !MatchAt(content, p, d, pl, t)
    ensures RenderContent<Node>(None, true, content) == Text(content)
  {
    NoMatchIffNoOccurrence(content);
  }

  /** A plan message whose content the pattern matches is shown as a plan, with the
      date and place of the match JavaScript reports and the task list built from its
      tasks. */
  lemma MatchedPlanIsPlanView<Node>(content: string, p: nat, d: string, pl: string, t: string)
    requires MatchAt(content, p, d, pl, t)
    ensures var r := RenderContent<Node>(None, true, content);
            && r.PlanView? && Match(content).Some?
            && var m := Match(content).value;
               && Precedes(m, p, d, pl, t)
               && MatchAt(content, m.start, r.date, r.place, m.tasks) && r.taskList == TaskList(m.tasks)
  {
    MatchIsLeftmostLazy(content, p, d, pl, t);
  }

  /** A chat message as displayed: its body, the avatar's fallback text, and whether
      the link to the plan preview is shown. */
  datatype MessageView<Node> = MessageView(body: Content<Node>, avatarFallback: string, planButton: bool)

  /** `Message({isUser, plan, content, userName, children})`: children given are shown
      as they are; a message that is not a plan, or a plan the pattern matches nowhere,
      shows its content verbatim; a matching plan shows the date, place and task list of
      the leftmost, laziest match. The preview link is shown exactly for plans. */
  function Message<Node>(isUser: bool, plan: bool, content: string, children: Option<Node>): (v: MessageView<Node>)
    ensures v.planButton <==> plan
    ensures children.Some? ==> v.body == Children(children.value)
    ensures children.None? && (!plan || forall p: nat, d, pl, t :: !MatchAt(content, p, d, pl, t)) ==>
              v.body == Text(content)
    ensures children.None? && plan && Match(content).Some? ==>
              var m := Match(content).value;
              && v.body == PlanView(m.date, m.place, TaskList(m.tasks))
              && MatchAt(content, m.start, m.date, m.place, m.tasks)
              && forall p: nat, d, pl, t :: MatchAt(content, p, d, pl, t) ==> Precedes(m, p, d, pl, t)
  {
    NoMatchIffNoOccurrence(content);
    MatchIsLeast(content);
    MessageView(RenderContent(children, plan, content), if isUser then "나" else "AI", plan)
  }
}
