/**
 WatchJob streams over a LogHub and a job record (orchestrator/watch.go), for
 one job, any number of watchers, with worker log chunks, result reports,
 other terminal writers and notifyTerminal at any moment. Chunks may arrive
 even after the job ended: StreamTaskLogs checks the record before it appends,
 not while.
 */
module Watch {
  import opened Jobs
  import opened Mutators
  import opened LogHub

  /** What a stream has sent, with the marks taken when it subscribed. */
  datatype View = View(
    sent: seq<Event>,
    lastStatus: JobStatus,
    replay: seq<Line>,
    from: nat,                     // where in the job's log the hub entry began
    joined: nat,                   // length of the log at Subscribe
    early: bool,                   // subscribed before the terminal transition
    whole: bool)                   // the replay buffer had not overflowed

  datatype Watcher =
    | Opening(status: JobStatus)                       // GetJob done, not subscribed
    | Polling(view: View)                              // about to read the store
    | Selecting(view: View)                            // waiting on mailbox or ticker
    | Draining(view: View, rec: JobRecord)             // saw the job terminal, emptying the mailbox
    | Closed(view: View, end: nat, lostLines: nat)     // result sent; log length and mailbox losses at that moment
    | Broken(view: View)                               // send error or client cancel
    | Gone

  datatype World = World(
    rec: JobRecord,
    books: Books,                  // the hub entry and its history
    log: seq<Line>,                // every line the hub accepted for the job, in order
    start: nat,                    // length of the log when the current hub entry was made
    committed: nat,                // length of the log at the terminal transition
    reports: set<Mutator>,         // reports whose tail lines are in and whose transition is not
    watchers: map<nat, Watcher>)

  datatype Action =
    | Change(m: Mutator, now: int)
    | Chunk(lines: seq<Line>)
    | ReportTail(report: Mutator, tail: seq<Line>)
    | ReportCommit(report: Mutator, now: int)
    | Notify
    | Open(w: nat)
    | Join(w: nat)
    | Poll(w: nat)
    | Tick(w: nat)
    | Take(w: nat)
    | Drain(w: nat)
    | Break(w: nat)
    | Leave(w: nat)

  // ---- steps -----------------------------------------------------------------

  ghost function Hub(maxLines: nat, s: World, op: Op): World {
    var books := BooksNext(maxLines, s.books, op);
    s.(books := books,
       start := if s.books.entry.None? && books.entry.Some? then |s.log| else s.start,
       log := if op.Append? && op.lines != [] && Opened(s.books.entry).terminal.None? then s.log + ClipAll(op.lines) else s.log)
  }

  ghost function Transition(s: World, m: Mutator, now: int): World {
    match Run(m, s.rec)
    case Write(rec) =>
      s.(rec := Stamp(rec, now),
         committed := if !Terminal(s.rec.status) && Terminal(rec.status) then |s.log| else s.committed)
    case _ => s
  }

  ghost function Logs(lines: seq<Line>): (r: seq<Event>)
    ensures |r| == |lines| && forall i :: 0 <= i < |r| ==> r[i] == Log(lines[i])
  {
    seq(|lines|, i requires 0 <= i < |lines| => Log(lines[i]))
  }

  /** What a stream has sent after Subscribe: the initial status and the replay. */
  ghost function JoinView(maxLines: nat, s: World, w: nat): View
    requires w in s.watchers && s.watchers[w].Opening?
  {
    var s' := Hub(maxLines, s, Subscribe(w));
    var e := Opened(s'.books.entry);
    var status := s.watchers[w].status;
    View([Event.Status(status)] + Logs(e.lines), status, e.lines, s'.start, |s.log|, !Terminal(s.rec.status), e.dropped == 0)
  }

  /** If the hub already has the result, the stream sends it and ends. */
  ghost function JoinedAs(view: View, terminal: Option<JobResult>, end: nat): Watcher {
    if terminal.Some? then Closed(view.(sent := view.sent + [Result(terminal.value)]), end, 0) else Polling(view)
  }

  ghost function Joined(maxLines: nat, s: World, w: nat): World
    requires w in s.watchers && s.watchers[w].Opening?
  {
    var s' := Hub(maxLines, s, Subscribe(w));
    s'.(watchers := s.watchers[w := JoinedAs(JoinView(maxLines, s, w), Opened(s.books.entry).terminal, |s.log|)])
  }

  /** The top of the event loop: look at the store. */
  ghost function Polled(s: World, w: nat): Watcher
    requires w in s.watchers && s.watchers[w].Polling?
  {
    var view := s.watchers[w].view;
    if Terminal(s.rec.status) then Draining(view, s.rec)
    else if s.rec.status != view.lastStatus
    then Selecting(view.(sent := view.sent + [Event.Status(s.rec.status)], lastStatus := s.rec.status))
    else Selecting(view)
  }

  ghost predicate Attached(x: Watcher) {
    x.Polling? || x.Selecting? || x.Draining? || x.Closed? || x.Broken?
  }

  ghost function Mailbox(s: World, w: nat): seq<Event> {
    if s.books.entry.Some? && w in s.books.entry.value.subs then s.books.entry.value.subs[w].ch else []
  }

  ghost function LostLines(s: World, w: nat): nat {
    if w in s.books.accounts then s.books.accounts[w].lostLines else 0
  }

  /** Receive the head of the mailbox and send it; a result ends the stream, anything else leads to `next`. */
  ghost function Forwarded(maxLines: nat, s: World, w: nat, view: View, next: Watcher): World
    requires Mailbox(s, w) != []
  {
    var ev := Mailbox(s, w)[0];
    var s' := Hub(maxLines, s, Receive(w));
    var view' := view.(sent := view.sent + [ev]);
    s'.(watchers := s.watchers[w := if ev.Result? then Closed(view', |s.log|, LostLines(s, w))
                                    else if next.Draining? then Draining(view', next.rec) else Polling(view')])
  }

  /** The mailbox is empty: the stream sends the result it read from the store. */
  ghost function Drained(s: World, w: nat): Watcher
    requires w in s.watchers && s.watchers[w].Draining?
  {
    var view := s.watchers[w].view;
    Closed(view.(sent := view.sent + [Result(ResultOf(s.watchers[w].rec))]), |s.log|, LostLines(s, w))
  }

  ghost function Moved(s: World, w: nat, x: Watcher): World {
    s.(watchers := s.watchers[w := x])
  }

  ghost function Step(maxLines: nat, s: World, a: Action): Option<World> {
    match a
    case Change(m, now) => if m.Report? || m.MissingPayload? then None else Some(Transition(s, m, now))
    case Chunk(lines) => Some(Hub(maxLines, s, Append(lines)))
    case ReportTail(report, tail) =>
      if report.Report? then Some(Hub(maxLines, s, Append(tail)).(reports := s.reports + {report})) else None
    case ReportCommit(report, now) =>
      if report.Report? && report in s.reports
      then Some(Transition(s, report, now).(reports := s.reports - {report})) else None
    case Notify =>
      if Terminal(s.rec.status) then Some(Hub(maxLines, s, Finish(ResultOf(s.rec)))) else Some(s)
    case Open(w) =>
      if w in s.watchers then None else Some(Moved(s, w, Opening(s.rec.status)))
    case Join(w) =>
      if w in s.watchers && s.watchers[w].Opening? then Some(Joined(maxLines, s, w)) else None
    case Poll(w) =>
      if w in s.watchers && s.watchers[w].Polling? then Some(Moved(s, w, Polled(s, w))) else None
    case Tick(w) =>
      if w in s.watchers && s.watchers[w].Selecting?
      then Some(Moved(s, w, Polling(s.watchers[w].view))) else None
    case Take(w) =>
      if w in s.watchers && s.watchers[w].Selecting? && Mailbox(s, w) != []
      then Some(Forwarded(maxLines, s, w, s.watchers[w].view, s.watchers[w])) else None
    case Drain(w) =>
      if !(w in s.watchers && s.watchers[w].Draining?) then None
      else if Mailbox(s, w) != [] then Some(Forwarded(maxLines, s, w, s.watchers[w].view, s.watchers[w]))
      else Some(Moved(s, w, Drained(s, w)))
    case Break(w) =>
      if w in s.watchers && Attached(s.watchers[w]) && !s.watchers[w].Closed?
      then Some(Moved(s, w, Broken(s.watchers[w].view))) else None
    case Leave(w) =>
      if w in s.watchers && (s.watchers[w].Closed? || s.watchers[w].Broken?)
      then Some(Moved(Hub(maxLines, s, Unsubscribe(w)), w, Gone)) else None
  }

  // ---- invariants ------------------------------------------------------------

  /** The hub entry against the log and the record. */
  ghost predicate OnLog(entry: Option<Entry>, appended: seq<Line>, log: seq<Line>, start: nat, rec: JobRecord) {
    && (entry.Some? ==> start <= |log| && appended == log[start..])
    && (!Terminal(rec.status) ==> if entry.Some? then start == 0 else log == [])
    && (entry.Some? && entry.value.terminal.Some? ==> Terminal(rec.status) && entry.value.terminal.value == ResultOf(rec))
  }

  ghost predicate HubSound(maxLines: nat, s: World) {
    && Balanced(maxLines, s.books)
    && Sound(s.rec)
    && OnLog(s.books.entry, s.books.appended, s.log, s.start, s.rec)
    && (Terminal(s.rec.status) ==> s.committed <= |s.log|)
    && s.books.accounts.Keys == (set w | w in s.watchers && Attached(s.watchers[w]))
  }

  /** The length the log had at the terminal transition, once that has happened. */
  ghost function Ended(s: World): Option<nat> {
    if Terminal(s.rec.status) then Some(s.committed) else None
  }

  /** A stream still open: what it sent is the replay plus what it took from its mailbox. */
  ghost predicate OpenStream(view: View, acc: Account) {
    && view.sent != [] && view.sent[0].Status? && NoResult(view.sent) && NoResult(acc.received)
    && LinesOf(view.sent) == view.replay + LinesOf(acc.received)
  }

  function Head(maxLines: nat, lines: seq<Line>): seq<Line> {
    if |lines| <= maxLines then lines else lines[..maxLines]
  }

  ghost predicate MarksSound(maxLines: nat, log: seq<Line>, start: nat, ended: Option<nat>, view: View, acc: Account) {
    && view.from == start <= view.joined <= |log|
    && view.replay == Head(maxLines, log[view.from..view.joined])
    && (view.whole ==> view.replay == log[view.from..view.joined])
    && LinesOf(acc.offered) == log[view.joined..]
    && (view.early ==> view.from == 0 && (ended.Some? ==> view.joined <= ended.value))
  }

  /** A finished stream: a status first, exactly one result and it comes last, lines in log order, none lost that need not be. */
  ghost predicate FinishedStream(log: seq<Line>, committed: nat, result: JobResult, view: View, end: nat, lostLines: nat) {
    && view.sent != [] && view.sent[0].Status?
    && EndsWith(view.sent, Result(result))
    && view.from <= end <= |log|
    && Subsequence(LinesOf(view.sent), log[view.from..end])
    && (view.early && view.whole && lostLines == 0 ==>
          committed <= end && LinesOf(view.sent) == log[..end])
  }

  ghost predicate WatcherSound(maxLines: nat, s: World, w: nat)
    requires w in s.watchers && (Attached(s.watchers[w]) ==> w in s.books.accounts)
  {
    match s.watchers[w]
    case Opening(_) => true
    case Polling(view) => OpenStream(view, s.books.accounts[w]) && MarksSound(maxLines, s.log, s.start, Ended(s), view, s.books.accounts[w])
    case Selecting(view) => OpenStream(view, s.books.accounts[w]) && MarksSound(maxLines, s.log, s.start, Ended(s), view, s.books.accounts[w])
    case Draining(view, rec) =>
      && OpenStream(view, s.books.accounts[w]) && MarksSound(maxLines, s.log, s.start, Ended(s), view, s.books.accounts[w])
      && Terminal(s.rec.status) && ResultOf(rec) == ResultOf(s.rec)
    case Closed(view, end, lostLines) =>
      Terminal(s.rec.status) && FinishedStream(s.log, s.committed, ResultOf(s.rec), view, end, lostLines)
    case Broken(_) => true
    case Gone => true
  }

  ghost predicate Inv(maxLines: nat, s: World) {
    && HubSound(maxLines, s)
    && forall w {:trigger WatcherSound(maxLines, s, w)} :: w in s.watchers ==> WatcherSound(maxLines, s, w)
  }

  // ---- sequences -------------------------------------------------------------

  lemma {:induction false} SubsequenceOfLines(a: seq<Event>, b: seq<Event>)
    requires Subsequence(a, b)
    ensures Subsequence(LinesOf(a), LinesOf(b))
    decreases |b|
  {
    if b != [] {
      var b0 := b[..|b| - 1];
      assert LinesOf(b0) + [] == LinesOf(b0);
      if Subsequence(a, b0) {
        SubsequenceOfLines(a, b0);
        if b[|b| - 1].Log? {
          SubsequenceGrows(LinesOf(a), LinesOf(b0), b[|b| - 1].line);
        }
      } else {
        SubsequenceOfLines(a[..|a| - 1], b0);
        assert LinesOf(a[..|a| - 1]) + [] == LinesOf(a[..|a| - 1]);
        if b[|b| - 1].Log? {
          SubsequenceGrows(LinesOf(a[..|a| - 1]), LinesOf(b0), b[|b| - 1].line);
        }
      }
    }
  }

  lemma {:induction false} SubsequenceSelf(a: seq<Line>)
    ensures Subsequence(a, a)
  {
    if a != [] {
      SubsequenceSelf(a[..|a| - 1]);
      SubsequenceGrows(a[..|a| - 1], a[..|a| - 1], a[|a| - 1]);
      assert a[..|a| - 1] + [a[|a| - 1]] == a;
    }
  }

  /** Lines missing from the end of the head are still only missing. */
  lemma {:induction false} SubsequenceSkips(a: seq<Line>, b: seq<Line>, middle: seq<Line>)
    requires Subsequence(a, b)
    ensures Subsequence(a, b + middle)
    decreases |middle|
  {
    if middle == [] {
      assert b + middle == b;
    } else {
      SubsequenceSkips(a, b, middle[..|middle| - 1]);
      SubsequenceGrows(a, b + middle[..|middle| - 1], middle[|middle| - 1]);
      assert b + middle == (b + middle[..|middle| - 1]) + [middle[|middle| - 1]];
    }
  }

  lemma {:induction false} SubsequenceJoin(a: seq<Line>, b: seq<Line>, c: seq<Line>, d: seq<Line>)
    requires Subsequence(a, b) && Subsequence(c, d)
    ensures Subsequence(a + c, b + d)
    decreases |d|
  {
    if d == [] {
      assert a + c == a && b + d == b;
    } else {
      var d0, x := d[..|d| - 1], d[|d| - 1];
      assert b + d == (b + d0) + [x];
      if Subsequence(c, d0) {
        SubsequenceJoin(a, b, c, d0);
        SubsequenceGrows(a + c, b + d0, x);
      } else {
        SubsequenceJoin(a, b, c[..|c| - 1], d0);
        assert a + c == (a + c[..|c| - 1]) + [x];
        SubsequenceGrows(a + c[..|c| - 1], b + d0, x);
      }
    }
  }

  lemma {:induction false} LinesOfLogs(lines: seq<Line>)
    ensures LinesOf(Logs(lines)) == lines
  {
    if lines != [] {
      var init := lines[..|lines| - 1];
      LinesOfLogs(init);
      assert Logs(lines)[..|lines| - 1] == Logs(init);
      assert lines == init + [lines[|lines| - 1]];
    }
  }

  lemma {:induction false} LinesOfConcat(a: seq<Event>, b: seq<Event>)
    ensures LinesOf(a + b) == LinesOf(a) + LinesOf(b)
  {
    if b == [] {
      assert a + b == a;
    } else {
      var b0 := b[..|b| - 1];
      LinesOfConcat(a, b0);
      assert a + b == (a + b0) + [b[|b| - 1]];
      LinesOfSnoc(a + b0, b[|b| - 1]);
    }
  }

  // ---- the record changes ----------------------------------------------------

  /** Once terminal, a record changes at most its bookkeeping. */
  lemma TransitionKeepsResult(s: World, m: Mutator, now: int)
    requires Sound(s.rec) && !m.MissingPayload?
    ensures var s' := Transition(s, m, now);
            && Sound(s'.rec)
            && (Terminal(s.rec.status) ==>
                  Terminal(s'.rec.status) && ResultOf(s'.rec) == ResultOf(s.rec) && s'.committed == s.committed)
            && (!Terminal(s.rec.status) && Terminal(s'.rec.status) ==> s'.committed == |s.log|)
  {
    if Run(m, s.rec).Write? {
      KeepsSound(m, s.rec);
      if Terminal(s.rec.status) {
        TerminalIsFinal(m, s.rec);
      }
    }
  }

  lemma TransitionKeepsInv(maxLines: nat, s: World, m: Mutator, now: int)
    requires Inv(maxLines, s) && !m.MissingPayload?
    ensures Inv(maxLines, Transition(s, m, now))
  {
    var s' := Transition(s, m, now);
    TransitionKeepsResult(s, m, now);
    forall w | w in s'.watchers
      ensures WatcherSound(maxLines, s', w)
    {
      assert WatcherSound(maxLines, s, w);
    }
  }

  // ---- lines arrive ----------------------------------------------------------

  lemma AppendStaysOnLog(entry: Option<Entry>, appended: seq<Line>, log: seq<Line>, start: nat, rec: JobRecord,
                         entry': Option<Entry>, more: seq<Line>)
    requires OnLog(entry, appended, log, start, rec)
    requires entry.None? ==> appended == []
    requires entry'.Some? && entry'.value.terminal.None?
    ensures OnLog(entry', appended + more, log + more, if entry.None? then |log| else start, rec)
  {
    assert entry.None? ==> (log + more)[|log|..] == appended + more;
    assert entry.Some? ==> (log + more)[start..] == log[start..] + more;
  }

  lemma AppendKeepsHub(maxLines: nat, s: World, lines: seq<Line>)
    requires HubSound(maxLines, s)
    ensures HubSound(maxLines, Hub(maxLines, s, Append(lines)))
  {
    BooksStayBalanced(maxLines, s.books, Append(lines));
    if lines != [] && Opened(s.books.entry).terminal.None? {
      AppendBooks(maxLines, s.books, lines);
      AppendStaysOnLog(s.books.entry, s.books.appended, s.log, s.start, s.rec,
                       BooksNext(maxLines, s.books, Append(lines)).entry, ClipAll(lines));
    }
  }

  lemma AppendBooks(maxLines: nat, b: Books, lines: seq<Line>)
    requires Balanced(maxLines, b) && lines != [] && Opened(b.entry).terminal.None?
    ensures BooksNext(maxLines, b, Append(lines)).appended == b.appended + ClipAll(lines)
    ensures BooksNext(maxLines, b, Append(lines)).accounts.Keys == b.accounts.Keys
    ensures BooksNext(maxLines, b, Append(lines)).entry.Some?
    ensures BooksNext(maxLines, b, Append(lines)).entry.value.terminal.None?
  {
    var b' := b.(entry := Some(Opened(b.entry)));
    BookLinesFollow(maxLines, b', ClipAll(lines));
    BookLinesAccounts(maxLines, b', ClipAll(lines), 0);
  }

  lemma AppendKeepsInv(maxLines: nat, s: World, lines: seq<Line>)
    requires Inv(maxLines, s)
    ensures Inv(maxLines, Hub(maxLines, s, Append(lines)))
  {
    var s' := Hub(maxLines, s, Append(lines));
    AppendKeepsHub(maxLines, s, lines);
    if s' != s {
      forall w | w in s'.watchers
        ensures WatcherSound(maxLines, s', w)
      {
        assert WatcherSound(maxLines, s, w);
        AppendKeepsWatcher(maxLines, s, lines, w);
      }
    }
  }

  lemma MarksGrow(maxLines: nat, log: seq<Line>, start: nat, ended: Option<nat>, view: View, acc: Account, more: seq<Line>, acc': Account)
    requires MarksSound(maxLines, log, start, ended, view, acc)
    requires LinesOf(acc'.offered) == LinesOf(acc.offered) + more
    ensures MarksSound(maxLines, log + more, start, ended, view, acc')
  {
    assert (log + more)[view.from..view.joined] == log[view.from..view.joined];
    assert (log + more)[view.joined..] == log[view.joined..] + more;
  }

  lemma FinishedStays(log: seq<Line>, committed: nat, result: JobResult, view: View, end: nat, lostLines: nat, more: seq<Line>)
    requires FinishedStream(log, committed, result, view, end, lostLines)
    ensures FinishedStream(log + more, committed, result, view, end, lostLines)
  {
    assert (log + more)[view.from..end] == log[view.from..end];
    assert (log + more)[..end] == log[..end];
  }

  lemma AppendKeepsWatcher(maxLines: nat, s: World, lines: seq<Line>, w: nat)
    requires HubSound(maxLines, s) && HubSound(maxLines, Hub(maxLines, s, Append(lines)))
    requires lines != [] && Opened(s.books.entry).terminal.None?
    requires w in s.watchers && WatcherSound(maxLines, s, w)
    ensures WatcherSound(maxLines, Hub(maxLines, s, Append(lines)), w)
  {
    var s' := Hub(maxLines, s, Append(lines));
    var more := ClipAll(lines);
    BookLinesAccounts(maxLines, s.books.(entry := Some(Opened(s.books.entry))), more, w);
    var x := s.watchers[w];
    if x.Closed? {
      FinishedStays(s.log, s.committed, ResultOf(s.rec), x.view, x.end, x.lostLines, more);
    } else if Attached(x) && !x.Broken? {
      MarksGrow(maxLines, s.log, s.start, Ended(s), x.view, s.books.accounts[w], more, s'.books.accounts[w]);
    }
  }

  // ---- the result arrives ----------------------------------------------------

  lemma FinishKeepsInv(maxLines: nat, s: World)
    requires Inv(maxLines, s) && Terminal(s.rec.status)
    ensures Inv(maxLines, Hub(maxLines, s, Finish(ResultOf(s.rec))))
  {
    var op := Finish(ResultOf(s.rec));
    var s' := Hub(maxLines, s, op);
    BooksStayBalanced(maxLines, s.books, op);
    BooksFollowHub(maxLines, s.books, op);
    forall w | w in s'.watchers
      ensures WatcherSound(maxLines, s', w)
    {
      assert WatcherSound(maxLines, s, w);
      if w in s.books.accounts {
        LinesOfSnoc(s.books.accounts[w].offered, Result(ResultOf(s.rec)));
      }
    }
  }

  // ---- one watcher moves -----------------------------------------------------

  /** Watchers other than `w` do not notice when only `w` and its mailbox changed. */
  lemma OthersKeep(maxLines: nat, s: World, s': World, w: nat)
    requires Inv(maxLines, s)
    requires forall x :: x in s'.watchers && Attached(s'.watchers[x]) ==> x in s'.books.accounts
    requires s'.rec == s.rec && s'.log == s.log && s'.committed == s.committed
    requires forall x :: x in s'.watchers && x != w ==> x in s.watchers && s'.watchers[x] == s.watchers[x]
    requires forall x :: x in s'.books.accounts && x != w ==> x in s.books.accounts && s'.books.accounts[x] == s.books.accounts[x]
    requires s.books.accounts != map[] ==> s'.start == s.start
    ensures forall x :: x in s'.watchers && x != w ==> WatcherSound(maxLines, s', x)
  {
    forall x | x in s'.watchers && x != w
      ensures WatcherSound(maxLines, s', x)
    {
      assert WatcherSound(maxLines, s, x);
    }
  }

  /** A step that touches neither hub nor record. */
  lemma MovedKeeps(maxLines: nat, s: World, w: nat, x: Watcher)
    requires Inv(maxLines, s)
    requires Attached(x) <==> w in s.watchers && Attached(s.watchers[w])
    requires Attached(x) ==> w in s.books.accounts
    requires WatcherSound(maxLines, Moved(s, w, x), w)
    ensures Inv(maxLines, Moved(s, w, x))
  {
    var s' := Moved(s, w, x);
    assert (set y | y in s'.watchers && Attached(s'.watchers[y])) == (set y | y in s.watchers && Attached(s.watchers[y]));
    OthersKeep(maxLines, s, s', w);
  }

  lemma ReceiveBooks(maxLines: nat, b: Books, w: nat)
    requires Balanced(maxLines, b) && w in b.accounts
    ensures var b' := BooksNext(maxLines, b, Receive(w));
            && b.entry.Some? && b'.entry.Some? && b'.entry.value.terminal == b.entry.value.terminal
            && b'.appended == b.appended
            && b'.accounts.Keys == b.accounts.Keys
            && forall x :: x in b.accounts && x != w ==> b'.accounts[x] == b.accounts[x]
  {
  }

  lemma ReceiveKeepsHub(maxLines: nat, s: World, w: nat, watchers: map<nat, Watcher>)
    requires HubSound(maxLines, s)
    requires w in s.watchers && Attached(s.watchers[w])
    requires w in watchers && Attached(watchers[w]) && watchers == s.watchers[w := watchers[w]]
    ensures var s' := Hub(maxLines, s, Receive(w)).(watchers := watchers);
            && HubSound(maxLines, s')
            && s'.books.accounts.Keys == s.books.accounts.Keys && s'.start == s.start
            && forall x :: x in s.books.accounts && x != w ==> s'.books.accounts[x] == s.books.accounts[x]
  {
    assert w in s.books.accounts;
    BooksStayBalanced(maxLines, s.books, Receive(w));
    ReceiveBooks(maxLines, s.books, w);
    assert (set x | x in watchers && Attached(watchers[x])) == (set x | x in s.watchers && Attached(s.watchers[x]));
  }

  lemma SubscribeKeepsHub(maxLines: nat, s: World, w: nat, watchers: map<nat, Watcher>)
    requires HubSound(maxLines, s)
    requires w in watchers && Attached(watchers[w]) && watchers == s.watchers[w := watchers[w]]
    ensures HubSound(maxLines, Hub(maxLines, s, Subscribe(w)).(watchers := watchers))
  {
    BooksStayBalanced(maxLines, s.books, Subscribe(w));
    assert (set x | x in watchers && Attached(watchers[x])) == (set x | x in s.watchers && Attached(s.watchers[x])) + {w};
  }

  /** The stream a watcher has right after Subscribe, on values. */
  ghost predicate JustJoined(maxLines: nat, log: seq<Line>, start: nat, ended: Option<nat>, view: View) {
    && view.from == start <= view.joined == |log|
    && view.replay == Head(maxLines, log[start..])
    && (view.whole ==> view.replay == log[start..])
    && (view.early ==> ended.None? && start == 0)
    && view.sent != [] && view.sent[0].Status?
    && view.sent == [view.sent[0]] + Logs(view.replay)
  }

  lemma StatusFirst(first: Event, rest: seq<Event>)
    requires first.Status?
    ensures LinesOf([first] + rest) == LinesOf(rest)
  {
    LinesOfConcat([first], rest);
    var none := LinesOf([first]);
    assert none == [];
    assert none + LinesOf(rest) == LinesOf(rest);
  }

  lemma NoResultInReplay(first: Event, replay: seq<Line>)
    requires first.Status?
    ensures NoResult([first] + Logs(replay))
  {
  }

  lemma JoinedOpens(maxLines: nat, log: seq<Line>, start: nat, ended: Option<nat>, view: View)
    requires JustJoined(maxLines, log, start, ended, view)
    ensures OpenStream(view, Account([], [], 0))
    ensures MarksSound(maxLines, log, start, ended, view, Account([], [], 0))
  {
    StatusFirst(view.sent[0], Logs(view.replay));
    LinesOfLogs(view.replay);
    NoResultInReplay(view.sent[0], view.replay);
    assert log[start..|log|] == log[start..] && log[|log|..] == [];
  }

  lemma ReplayInLog(maxLines: nat, log: seq<Line>, start: nat)
    requires start <= |log|
    ensures Subsequence(Head(maxLines, log[start..]), log[start..|log|])
  {
    var replay := Head(maxLines, log[start..]);
    SubsequenceSelf(replay);
    SubsequenceSkips(replay, replay, log[start + |replay|..]);
    assert log[start..|log|] == replay + log[start + |replay|..];
  }

  lemma JoinedFinishes(maxLines: nat, log: seq<Line>, start: nat, ended: Option<nat>, view: View, result: JobResult, committed: nat)
    requires JustJoined(maxLines, log, start, ended, view) && !view.early
    ensures FinishedStream(log, committed, result, view.(sent := view.sent + [Result(result)]), |log|, 0)
  {
    JoinedOpens(maxLines, log, start, ended, view);
    LinesOfSnoc(view.sent, Result(result));
    var none := LinesOf(Account([], [], 0).received);
    assert view.replay + none == view.replay;
    assert view.replay + [] == view.replay;
    assert (view.sent + [Result(result)])[..|view.sent|] == view.sent;
    ReplayInLog(maxLines, log, start);
  }

  lemma JoinViewJustJoined(maxLines: nat, s: World, w: nat)
    requires HubSound(maxLines, s) && w in s.watchers && s.watchers[w].Opening?
    ensures JustJoined(maxLines, s.log, Hub(maxLines, s, Subscribe(w)).start, Ended(s), JoinView(maxLines, s, w))
  {
    var start := Hub(maxLines, s, Subscribe(w)).start;
    assert s.books.appended == s.log[start..];
  }

  lemma JoinKeepsWatcher(maxLines: nat, s: World, w: nat)
    requires HubSound(maxLines, s) && w in s.watchers && s.watchers[w].Opening?
    ensures w in Joined(maxLines, s, w).books.accounts
    ensures WatcherSound(maxLines, Joined(maxLines, s, w), w)
  {
    var s' := Joined(maxLines, s, w);
    var view, terminal := JoinView(maxLines, s, w), Opened(s.books.entry).terminal;
    JoinViewJustJoined(maxLines, s, w);
    assert s'.books.accounts[w] == Account([], [], 0);
    if terminal.Some? {
      JoinedFinishes(maxLines, s.log, s'.start, Ended(s), view, terminal.value, s.committed);
    } else {
      JoinedOpens(maxLines, s.log, s'.start, Ended(s), view);
    }
  }

  lemma JoinKeepsInv(maxLines: nat, s: World, w: nat)
    requires Inv(maxLines, s) && w in s.watchers && s.watchers[w].Opening?
    ensures Inv(maxLines, Joined(maxLines, s, w))
  {
    var s' := Joined(maxLines, s, w);
    SubscribeKeepsHub(maxLines, s, w, s'.watchers);
    JoinKeepsWatcher(maxLines, s, w);
    OthersKeep(maxLines, s, s', w);
  }

  /** An open stream that has taken everything out of its mailbox is finished by the result. */
  lemma ResultFinishes(maxLines: nat, log: seq<Line>, start: nat, committed: nat, result: JobResult,
                       view: View, acc: Account, received: seq<Event>)
    requires OpenStream(view, acc) && MarksSound(maxLines, log, start, Some(committed), view, acc)
    requires committed <= |log|
    requires LinesOf(received) == LinesOf(acc.received)
    requires Subsequence(received, acc.offered)
    requires acc.lostLines == 0 ==> LinesOf(received) == LinesOf(acc.offered)
    ensures FinishedStream(log, committed, result, view.(sent := view.sent + [Result(result)]), |log|, acc.lostLines)
  {
    var ev := Result(result);
    LinesOfSnoc(view.sent, ev);
    assert (view.sent + [ev])[..|view.sent|] == view.sent;
    var lines := LinesOf(view.sent + [ev]);
    assert lines == view.replay + LinesOf(received);
    SubsequenceOfLines(received, acc.offered);
    SubsequenceSelf(view.replay);
    var head := log[view.from..view.joined];
    SubsequenceSkips(view.replay, view.replay, head[|view.replay|..]);
    assert view.replay + head[|view.replay|..] == head;
    SubsequenceJoin(view.replay, head, LinesOf(received), log[view.joined..]);
    assert log[view.from..|log|] == head + log[view.joined..];
    if view.early && view.whole && acc.lostLines == 0 {
      assert lines == log[view.from..view.joined] + log[view.joined..] == log[..|log|];
    }
  }

  /** What the books say about one attached watcher. */
  lemma AccountOf(maxLines: nat, s: World, w: nat)
    requires HubSound(maxLines, s) && w in s.watchers && Attached(s.watchers[w])
    ensures s.books.entry.Some? && w in s.books.entry.value.subs && w in s.books.accounts
    ensures AccountBalances(s.books.entry.value, s.books.entry.value.subs[w], s.books.accounts[w])
    ensures Mailbox(s, w) == s.books.entry.value.subs[w].ch
  {
    assert w in s.books.accounts;
  }

  lemma DrainedFinishes(maxLines: nat, s: World, w: nat)
    requires HubSound(maxLines, s)
    requires w in s.watchers && s.watchers[w].Draining? && Mailbox(s, w) == []
    requires w in s.books.accounts && WatcherSound(maxLines, s, w)
    ensures var view := s.watchers[w].view;
            FinishedStream(s.log, s.committed, ResultOf(s.rec),
                           view.(sent := view.sent + [Result(ResultOf(s.rec))]), |s.log|, LostLines(s, w))
  {
    AccountOf(maxLines, s, w);
    var acc := s.books.accounts[w];
    assert acc.received + Mailbox(s, w) == acc.received;
    ResultFinishes(maxLines, s.log, s.start, s.committed, ResultOf(s.rec), s.watchers[w].view, acc, acc.received);
  }

  lemma DrainedKeepsInv(maxLines: nat, s: World, w: nat)
    requires Inv(maxLines, s) && w in s.watchers && s.watchers[w].Draining? && Mailbox(s, w) == []
    ensures Inv(maxLines, Moved(s, w, Drained(s, w)))
  {
    assert WatcherSound(maxLines, s, w);
    DrainedFinishes(maxLines, s, w);
    MovedKeeps(maxLines, s, w, Drained(s, w));
  }

  /** The head of the mailbox, once sent: the stream goes on, on values. */
  lemma ForwardGoesOn(maxLines: nat, log: seq<Line>, start: nat, ended: Option<nat>, view: View, acc: Account, ev: Event)
    requires OpenStream(view, acc) && MarksSound(maxLines, log, start, ended, view, acc) && !ev.Result?
    ensures OpenStream(view.(sent := view.sent + [ev]), acc.(received := acc.received + [ev]))
    ensures MarksSound(maxLines, log, start, ended, view.(sent := view.sent + [ev]), acc.(received := acc.received + [ev]))
  {
    LinesOfSnoc(view.sent, ev);
    LinesOfSnoc(acc.received, ev);
  }

  /** A result at the head of the mailbox is the hub's, and nothing is behind it. */
  lemma ForwardedResult(e: Entry, sub: Sub, acc: Account)
    requires AccountBalances(e, sub, acc) && sub.ch != [] && sub.ch[0].Result?
    ensures e.terminal.Some? && sub.ch == [Result(e.terminal.value)]
    ensures LinesOf(acc.received + sub.ch) == LinesOf(acc.received)
  {
    var all := acc.received + sub.ch;
    assert all[|acc.received|] == sub.ch[0];
    LinesOfSnoc(acc.received, sub.ch[0]);
  }

  lemma ForwardKeepsWatcher(maxLines: nat, s: World, w: nat)
    requires HubSound(maxLines, s)
    requires w in s.watchers && (s.watchers[w].Selecting? || s.watchers[w].Draining?) && Mailbox(s, w) != []
    requires w in s.books.accounts && WatcherSound(maxLines, s, w)
    ensures var s' := Forwarded(maxLines, s, w, s.watchers[w].view, s.watchers[w]);
            w in s'.books.accounts && WatcherSound(maxLines, s', w)
  {
    var view, acc, ch := s.watchers[w].view, s.books.accounts[w], Mailbox(s, w);
    AccountOf(maxLines, s, w);
    if ch[0].Result? {
      ForwardedResult(s.books.entry.value, s.books.entry.value.subs[w], acc);
      ResultFinishes(maxLines, s.log, s.start, s.committed, ResultOf(s.rec), view, acc, acc.received + ch);
    } else {
      ForwardGoesOn(maxLines, s.log, s.start, Ended(s), view, acc, ch[0]);
    }
  }

  lemma ForwardKeepsInv(maxLines: nat, s: World, w: nat)
    requires Inv(maxLines, s) && w in s.watchers && (s.watchers[w].Selecting? || s.watchers[w].Draining?)
    requires Mailbox(s, w) != []
    ensures Inv(maxLines, Forwarded(maxLines, s, w, s.watchers[w].view, s.watchers[w]))
  {
    var s' := Forwarded(maxLines, s, w, s.watchers[w].view, s.watchers[w]);
    assert WatcherSound(maxLines, s, w);
    ForwardKeepsWatcher(maxLines, s, w);
    ReceiveKeepsHub(maxLines, s, w, s'.watchers);
    OthersKeep(maxLines, s, s', w);
  }

  lemma PolledStaysOpen(view: View, acc: Account, status: JobStatus)
    requires OpenStream(view, acc)
    ensures OpenStream(view.(sent := view.sent + [Event.Status(status)], lastStatus := status), acc)
  {
    LinesOfSnoc(view.sent, Event.Status(status));
  }

  lemma PollKeepsInv(maxLines: nat, s: World, w: nat)
    requires Inv(maxLines, s) && w in s.watchers && s.watchers[w].Polling?
    ensures Inv(maxLines, Moved(s, w, Polled(s, w)))
  {
    assert WatcherSound(maxLines, s, w);
    PolledStaysOpen(s.watchers[w].view, s.books.accounts[w], s.rec.status);
    MovedKeeps(maxLines, s, w, Polled(s, w));
  }

  lemma TickKeepsInv(maxLines: nat, s: World, w: nat)
    requires Inv(maxLines, s) && w in s.watchers && s.watchers[w].Selecting?
    ensures Inv(maxLines, Moved(s, w, Polling(s.watchers[w].view)))
  {
    assert WatcherSound(maxLines, s, w);
    MovedKeeps(maxLines, s, w, Polling(s.watchers[w].view));
  }

  lemma UnsubscribeBooks(maxLines: nat, b: Books, w: nat)
    requires Balanced(maxLines, b) && b.entry.Some?
    ensures var b' := BooksNext(maxLines, b, Unsubscribe(w));
            && b'.accounts == b.accounts - {w}
            && (b'.entry.Some? ==> b'.entry.value.terminal == b.entry.value.terminal && b'.appended == b.appended)
            && (b'.entry.None? ==> b.entry.value.terminal.Some?)
  {
  }

  lemma UnsubscribeKeepsHub(maxLines: nat, s: World, w: nat)
    requires HubSound(maxLines, s) && w in s.watchers && Attached(s.watchers[w])
    ensures var s' := Moved(Hub(maxLines, s, Unsubscribe(w)), w, Gone);
            HubSound(maxLines, s') && s'.books.accounts == s.books.accounts - {w} && s'.start == s.start
  {
    var s' := Moved(Hub(maxLines, s, Unsubscribe(w)), w, Gone);
    assert w in s.books.accounts;
    BooksStayBalanced(maxLines, s.books, Unsubscribe(w));
    UnsubscribeBooks(maxLines, s.books, w);
    assert (set x | x in s'.watchers && Attached(s'.watchers[x])) == (set x | x in s.watchers && Attached(s.watchers[x])) - {w};
  }

  lemma LeaveKeepsInv(maxLines: nat, s: World, w: nat)
    requires Inv(maxLines, s) && w in s.watchers && Attached(s.watchers[w])
    ensures Inv(maxLines, Moved(Hub(maxLines, s, Unsubscribe(w)), w, Gone))
  {
    UnsubscribeKeepsHub(maxLines, s, w);
    OthersKeep(maxLines, s, Moved(Hub(maxLines, s, Unsubscribe(w)), w, Gone), w);
  }

  lemma SharedStepKeepsInv(maxLines: nat, s: World, a: Action)
    requires Inv(maxLines, s) && Step(maxLines, s, a).Some?
    requires a.Change? || a.Chunk? || a.ReportTail? || a.ReportCommit? || a.Notify?
    ensures Inv(maxLines, Step(maxLines, s, a).value)
  {
    match a
    case Change(m, now) => TransitionKeepsInv(maxLines, s, m, now);
    case Chunk(lines) => AppendKeepsInv(maxLines, s, lines);
    case ReportTail(report, tail) =>
      AppendKeepsInv(maxLines, s, tail);
      ReportsDoNotMatter(maxLines, Hub(maxLines, s, Append(tail)), s.reports + {report});
    case ReportCommit(report, now) =>
      TransitionKeepsInv(maxLines, s, report, now);
      ReportsDoNotMatter(maxLines, Transition(s, report, now), s.reports - {report});
    case Notify => if Terminal(s.rec.status) { FinishKeepsInv(maxLines, s); }
  }

  lemma ReportsDoNotMatter(maxLines: nat, s: World, reports: set<Mutator>)
    requires Inv(maxLines, s)
    ensures Inv(maxLines, s.(reports := reports))
  {
    forall w | w in s.watchers
      ensures WatcherSound(maxLines, s.(reports := reports), w)
    {
      assert WatcherSound(maxLines, s, w);
    }
  }

  lemma StepKeepsInv(maxLines: nat, s: World, a: Action)
    requires Inv(maxLines, s) && Step(maxLines, s, a).Some?
    ensures Inv(maxLines, Step(maxLines, s, a).value)
  {
    match a
    case Open(w) => MovedKeeps(maxLines, s, w, Opening(s.rec.status));
    case Join(w) => JoinKeepsInv(maxLines, s, w);
    case Poll(w) => PollKeepsInv(maxLines, s, w);
    case Tick(w) => TickKeepsInv(maxLines, s, w);
    case Take(w) => ForwardKeepsInv(maxLines, s, w);
    case Drain(w) =>
      if Mailbox(s, w) != [] { ForwardKeepsInv(maxLines, s, w); } else { DrainedKeepsInv(maxLines, s, w); }
    case Break(w) => MovedKeeps(maxLines, s, w, Broken(s.watchers[w].view));
    case Leave(w) => LeaveKeepsInv(maxLines, s, w);
    case _ => SharedStepKeepsInv(maxLines, s, a);
  }

  // ---- runs ------------------------------------------------------------------

  /** A freshly invoked job nobody watches yet. */
  ghost function Initial(rec: JobRecord): World {
    World(rec, NEW_BOOKS, [], 0, 0, {}, map[])
  }

  ghost function After(maxLines: nat, rec: JobRecord, run: seq<Action>): Option<World> {
    if run == [] then Some(Initial(rec)) else
    match After(maxLines, rec, run[..|run| - 1])
    case Some(s) => Step(maxLines, s, run[|run| - 1])
    case None => None
  }

  lemma {:induction false} RunKeepsInv(maxLines: nat, rec: JobRecord, run: seq<Action>)
    requires Invoked(rec) && After(maxLines, rec, run).Some?
    ensures Inv(maxLines, After(maxLines, rec, run).value)
  {
    if run != [] {
      RunKeepsInv(maxLines, rec, run[..|run| - 1]);
      StepKeepsInv(maxLines, After(maxLines, rec, run[..|run| - 1]).value, run[|run| - 1]);
    }
  }

  /**
   Whatever happened around it, a stream that ended by itself is: a status
   first; no result before the last event; the job's result last; log lines in
   the order the hub took them, none twice. And a watcher that subscribed
   before the terminal transition and overflowed neither buffer got every
   line up to that transition, also when the hub could not put the terminal
   event in its mailbox.
   */
  lemma StreamIsWellFormed(maxLines: nat, rec: JobRecord, run: seq<Action>, w: nat)
    requires Invoked(rec) && After(maxLines, rec, run).Some?
    requires w in After(maxLines, rec, run).value.watchers && After(maxLines, rec, run).value.watchers[w].Closed?
    ensures var s := After(maxLines, rec, run).value;
            var x := s.watchers[w];
            var sent := x.view.sent;
            && |sent| >= 2
            && sent[0].Status?
            && sent[|sent| - 1] == Result(ResultOf(s.rec)) && Terminal(s.rec.status)
            && NoResult(sent[..|sent| - 1])
            && Subsequence(LinesOf(sent), s.log)
            && (x.view.early && x.view.whole && x.lostLines == 0 ==>
                  s.committed <= |LinesOf(sent)| <= |s.log| && LinesOf(sent) == s.log[..|LinesOf(sent)|])
  {
    RunKeepsInv(maxLines, rec, run);
    var s := After(maxLines, rec, run).value;
    assert WatcherSound(maxLines, s, w);
    var x := s.watchers[w];
    FinishedInWholeLog(s.log, s.committed, ResultOf(s.rec), x.view, x.end, x.lostLines);
  }

  lemma FinishedInWholeLog(log: seq<Line>, committed: nat, result: JobResult, view: View, end: nat, lostLines: nat)
    requires FinishedStream(log, committed, result, view, end, lostLines)
    ensures |view.sent| >= 2
    ensures Subsequence(LinesOf(view.sent), log)
    ensures view.early && view.whole && lostLines == 0 ==> |LinesOf(view.sent)| == end
  {
    var lines := LinesOf(view.sent);
    SubsequenceDrops(lines, log[..view.from], log[view.from..end]);
    SubsequenceSkips(lines, log[..view.from] + log[view.from..end], log[end..]);
    assert log == log[..view.from] + log[view.from..end] + log[end..];
  }

  lemma {:induction false} SubsequenceDrops(a: seq<Line>, head: seq<Line>, b: seq<Line>)
    requires Subsequence(a, b)
    ensures Subsequence(a, head + b)
    decreases |b|
  {
    SubsequenceEmpty(head);
    SubsequenceJoin([], head, a, b);
    assert [] + a == a;
  }

  lemma {:induction false} SubsequenceEmpty(b: seq<Line>)
    ensures Subsequence([], b)
  {
    if b != [] {
      SubsequenceEmpty(b[..|b| - 1]);
    }
  }

  lemma StepKeepsResult(maxLines: nat, s: World, a: Action)
    requires Terminal(s.rec.status) && Step(maxLines, s, a).Some?
    ensures Terminal(Step(maxLines, s, a).value.rec.status)
    ensures ResultOf(Step(maxLines, s, a).value.rec) == ResultOf(s.rec)
  {
    if a.Change? {
      TerminalIsFinal(a.m, s.rec);
    } else if a.ReportCommit? {
      TerminalIsFinal(a.report, s.rec);
    }
  }

  /** The result is one and the same for every stream that ends, now or later. */
  lemma {:induction false} ResultNeverChanges(maxLines: nat, rec: JobRecord, run: seq<Action>, more: seq<Action>)
    requires After(maxLines, rec, run).Some? && After(maxLines, rec, run + more).Some?
    requires Terminal(After(maxLines, rec, run).value.rec.status)
    ensures Terminal(After(maxLines, rec, run + more).value.rec.status)
    ensures ResultOf(After(maxLines, rec, run + more).value.rec) == ResultOf(After(maxLines, rec, run).value.rec)
  {
    if more == [] {
      assert run + more == run;
    } else {
      var prev := run + more[..|more| - 1];
      assert (run + more)[..|run + more| - 1] == prev;
      ResultNeverChanges(maxLines, rec, run, more[..|more| - 1]);
      StepKeepsResult(maxLines, After(maxLines, rec, prev).value, more[|more| - 1]);
    }
  }
}
