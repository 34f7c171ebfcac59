/**
 What WatchJob streams say and how they end, beyond their shape: the statuses
 are the job's, the lines are what workers sent, and once the job has ended
 every stream can end (orchestrator/watch.go, orchestrator/server.go).
 */
module WatchRuns {
  import opened Jobs
  import opened LogHub
  import opened Mutators
  import opened Watch

  // ---- the record ------------------------------------------------------------

  /** The record after the transitions of a run, in the order they committed. */
  function RecordAfter(rec: JobRecord, run: seq<Action>): JobRecord {
    if run == [] then rec else
    var r, a := RecordAfter(rec, run[..|run| - 1]), run[|run| - 1];
    var m := match a case Change(m, _) => Run(m, r) case ReportCommit(report, _) => Run(report, r) case _ => Skip;
    if m.Write? then Stamp(m.rec, a.now) else r
  }

  /** Watching changes nothing about the job: its record is what the transitions make of it. */
  lemma {:induction false} RecordFollowsTransitions(maxLines: nat, rec: JobRecord, run: seq<Action>)
    requires After(maxLines, rec, run).Some?
    ensures After(maxLines, rec, run).value.rec == RecordAfter(rec, run)
  {
    if run != [] {
      RecordFollowsTransitions(maxLines, rec, run[..|run| - 1]);
    }
  }

  // ---- the first status ------------------------------------------------------

  /** The record's status when watcher `w` opened its stream. */
  ghost function StatusAtOpen(maxLines: nat, rec: JobRecord, run: seq<Action>, w: nat): Option<JobStatus>
    requires After(maxLines, rec, run).Some?
  {
    if run == [] then None else
    var init := run[..|run| - 1];
    if run[|run| - 1] == Open(w) then Some(After(maxLines, rec, init).value.rec.status) else StatusAtOpen(maxLines, rec, init, w)
  }

  /** A stream begins with this status. */
  ghost predicate BeginsWith(x: Watcher, st: Option<JobStatus>) {
    match x
    case Opening(status) => st == Some(status)
    case Gone => true
    case _ => st.Some? && x.view.sent != [] && x.view.sent[0] == Event.Status(st.value)
  }

  lemma StepKeepsBeginning(maxLines: nat, s: World, a: Action, w: nat, st: Option<JobStatus>)
    requires Step(maxLines, s, a).Some? && a != Open(w) && w in Step(maxLines, s, a).value.watchers
    ensures w in s.watchers
    ensures BeginsWith(s.watchers[w], st) ==> BeginsWith(Step(maxLines, s, a).value.watchers[w], st)
  {
  }

  /** The first thing a watcher hears is the status the job had when it asked. */
  lemma {:induction false} FirstStatusIsTheJobs(maxLines: nat, rec: JobRecord, run: seq<Action>, w: nat)
    requires After(maxLines, rec, run).Some? && w in After(maxLines, rec, run).value.watchers
    ensures BeginsWith(After(maxLines, rec, run).value.watchers[w], StatusAtOpen(maxLines, rec, run, w))
  {
    if run != [] && run[|run| - 1] != Open(w) {
      var init := run[..|run| - 1];
      var s := After(maxLines, rec, init).value;
      StepKeepsBeginning(maxLines, s, run[|run| - 1], w, StatusAtOpen(maxLines, rec, init, w));
      FirstStatusIsTheJobs(maxLines, rec, init, w);
    }
  }

  // ---- the statuses after it -------------------------------------------------

  function StatusesOf(events: seq<Event>): seq<JobStatus> {
    if events == [] then []
    else StatusesOf(events[..|events| - 1]) + if events[|events| - 1].Status? then [events[|events| - 1].status] else []
  }

  lemma StatusesOfSnoc(events: seq<Event>, ev: Event)
    ensures StatusesOf(events + [ev]) == StatusesOf(events) + if ev.Status? then [ev.status] else []
  {
    assert (events + [ev])[..|events|] == events;
  }

  lemma {:induction false} LogsHaveNoStatus(first: JobStatus, lines: seq<Line>)
    ensures StatusesOf([Event.Status(first)] + Logs(lines)) == [first]
  {
    var events := [Event.Status(first)] + Logs(lines);
    if lines == [] {
      assert events[..|events| - 1] == [];
    } else {
      LogsHaveNoStatus(first, lines[..|lines| - 1]);
      assert events[..|events| - 1] == [Event.Status(first)] + Logs(lines[..|lines| - 1]);
    }
  }

  /** Each status told differs from the one before, and the last is the one the stream remembers. */
  ghost predicate Alternates(view: View) {
    var sts := StatusesOf(view.sent);
    && sts != [] && sts[|sts| - 1] == view.lastStatus
    && forall i :: 0 < i < |sts| ==> sts[i - 1] != sts[i]
  }

  ghost predicate StatusSound(x: Watcher) {
    x.Opening? || x.Gone? || Alternates(x.view)
  }

  /** Mailboxes carry log lines and results, never a status. */
  ghost predicate MailHasNoStatus(e: Option<Entry>) {
    e.Some? ==> forall w, i :: w in e.value.subs && 0 <= i < |e.value.subs[w].ch| ==> !e.value.subs[w].ch[i].Status?
  }

  lemma OfferKeepsMail(subs: map<nat, Sub>, ev: Event)
    requires !ev.Status? && forall w, i :: w in subs && 0 <= i < |subs[w].ch| ==> !subs[w].ch[i].Status?
    ensures forall w, i :: w in OfferAll(subs, ev) && 0 <= i < |OfferAll(subs, ev)[w].ch| ==> !OfferAll(subs, ev)[w].ch[i].Status?
  {
  }

  lemma {:induction false} AppendKeepsMail(maxLines: nat, e: Entry, lines: seq<Line>)
    requires MailHasNoStatus(Some(e))
    ensures MailHasNoStatus(Some(AppendLines(maxLines, e, lines)))
  {
    if lines != [] {
      var init := lines[..|lines| - 1];
      AppendKeepsMail(maxLines, e, init);
      OfferKeepsMail(AppendLines(maxLines, e, init).subs, Log(lines[|lines| - 1]));
    }
  }

  lemma HubKeepsMail(maxLines: nat, b: Books, op: Op)
    requires MailHasNoStatus(b.entry)
    ensures MailHasNoStatus(BooksNext(maxLines, b, op).entry)
  {
    BooksFollowHub(maxLines, b, op);
    match op
    case Append(lines) => AppendKeepsMail(maxLines, Opened(b.entry), ClipAll(lines));
    case Finish(result) =>
      if b.entry.Some? {
        OfferKeepsMail(b.entry.value.subs, Result(result));
      }
    case _ =>
  }

  lemma StepKeepsMail(maxLines: nat, s: World, a: Action)
    requires Step(maxLines, s, a).Some? && MailHasNoStatus(s.books.entry)
    ensures MailHasNoStatus(Step(maxLines, s, a).value.books.entry)
  {
    match a
    case Chunk(lines) => HubKeepsMail(maxLines, s.books, Append(lines));
    case ReportTail(_, tail) => HubKeepsMail(maxLines, s.books, Append(tail));
    case Notify => HubKeepsMail(maxLines, s.books, Finish(ResultOf(s.rec)));
    case Join(w) => HubKeepsMail(maxLines, s.books, Subscribe(w));
    case Take(w) => HubKeepsMail(maxLines, s.books, Receive(w));
    case Drain(w) => HubKeepsMail(maxLines, s.books, Receive(w));
    case Leave(w) => HubKeepsMail(maxLines, s.books, Unsubscribe(w));
    case _ =>
  }

  lemma SendKeepsStatuses(view: View, ev: Event)
    requires Alternates(view) && !ev.Status?
    ensures Alternates(view.(sent := view.sent + [ev]))
  {
    StatusesOfSnoc(view.sent, ev);
    assert StatusesOf(view.sent) + [] == StatusesOf(view.sent);
  }

  lemma TellKeepsStatuses(view: View, status: JobStatus)
    requires Alternates(view) && status != view.lastStatus
    ensures Alternates(view.(sent := view.sent + [Event.Status(status)], lastStatus := status))
  {
    StatusesOfSnoc(view.sent, Event.Status(status));
  }

  lemma JoinAlternates(maxLines: nat, s: World, w: nat)
    requires w in s.watchers && s.watchers[w].Opening?
    ensures StatusSound(JoinedAs(JoinView(maxLines, s, w), Opened(s.books.entry).terminal, |s.log|))
  {
    var view := JoinView(maxLines, s, w);
    LogsHaveNoStatus(s.watchers[w].status, view.replay);
    if Opened(s.books.entry).terminal.Some? {
      SendKeepsStatuses(view, Result(Opened(s.books.entry).terminal.value));
    }
  }

  lemma ForwardAlternates(maxLines: nat, s: World, w: nat)
    requires w in s.watchers && (s.watchers[w].Selecting? || s.watchers[w].Draining?) && Mailbox(s, w) != []
    requires MailHasNoStatus(s.books.entry) && StatusSound(s.watchers[w])
    ensures StatusSound(Forwarded(maxLines, s, w, s.watchers[w].view, s.watchers[w]).watchers[w])
  {
    SendKeepsStatuses(s.watchers[w].view, Mailbox(s, w)[0]);
  }

  /** The one watcher a step moves. */
  function Mover(a: Action): Option<nat> {
    match a
    case Open(w) => Some(w)
    case Join(w) => Some(w)
    case Poll(w) => Some(w)
    case Tick(w) => Some(w)
    case Take(w) => Some(w)
    case Drain(w) => Some(w)
    case Break(w) => Some(w)
    case Leave(w) => Some(w)
    case _ => None
  }

  lemma OthersDoNotMove(maxLines: nat, s: World, a: Action, w: nat)
    requires Step(maxLines, s, a).Some? && Mover(a) != Some(w) && w in Step(maxLines, s, a).value.watchers
    ensures w in s.watchers && Step(maxLines, s, a).value.watchers[w] == s.watchers[w]
  {
  }

  lemma MoverKeepsStatuses(maxLines: nat, s: World, a: Action, w: nat)
    requires Step(maxLines, s, a).Some? && Mover(a) == Some(w) && MailHasNoStatus(s.books.entry)
    requires w in s.watchers ==> StatusSound(s.watchers[w])
    ensures w in Step(maxLines, s, a).value.watchers && StatusSound(Step(maxLines, s, a).value.watchers[w])
  {
    match a
    case Join(_) => JoinAlternates(maxLines, s, w);
    case Poll(_) =>
      if s.rec.status != s.watchers[w].view.lastStatus {
        TellKeepsStatuses(s.watchers[w].view, s.rec.status);
      }
    case Take(_) => ForwardAlternates(maxLines, s, w);
    case Drain(_) =>
      if Mailbox(s, w) != [] {
        ForwardAlternates(maxLines, s, w);
      } else {
        SendKeepsStatuses(s.watchers[w].view, Result(ResultOf(s.watchers[w].rec)));
      }
    case _ =>
  }

  /** A stream never tells the same status twice in a row, and remembers the last it told. */
  lemma {:induction false} StatusesAlternate(maxLines: nat, rec: JobRecord, run: seq<Action>, w: nat)
    requires After(maxLines, rec, run).Some?
    ensures MailHasNoStatus(After(maxLines, rec, run).value.books.entry)
    ensures w in After(maxLines, rec, run).value.watchers ==> StatusSound(After(maxLines, rec, run).value.watchers[w])
  {
    if run != [] {
      var init, a := run[..|run| - 1], run[|run| - 1];
      var s := After(maxLines, rec, init).value;
      StatusesAlternate(maxLines, rec, init, w);
      StepKeepsMail(maxLines, s, a);
      if Mover(a) == Some(w) {
        MoverKeepsStatuses(maxLines, s, a, w);
      } else if w in After(maxLines, rec, run).value.watchers {
        OthersDoNotMove(maxLines, s, a, w);
      }
    }
  }

  /** Looking at the store leaves the stream having told what it saw, or about to send the result it saw. */
  lemma PollTellsWhatItSees(maxLines: nat, s: World, w: nat)
    requires w in s.watchers && s.watchers[w].Polling?
    ensures Step(maxLines, s, Poll(w)).Some?
    ensures var x := Step(maxLines, s, Poll(w)).value.watchers[w];
            if Terminal(s.rec.status) then x == Draining(s.watchers[w].view, s.rec)
            else x.Selecting? && x.view.lastStatus == s.rec.status && s.watchers[w].view.sent <= x.view.sent
                 && |x.view.sent| == |s.watchers[w].view.sent| + if s.watchers[w].view.lastStatus == s.rec.status then 0 else 1
  {
  }

  // ---- the lines are what workers sent ---------------------------------------

  /** All lines sent for the job, clipped, in the order they came in. */
  function Arrived(run: seq<Action>): seq<Line> {
    if run == [] then [] else
    Arrived(run[..|run| - 1]) +
    match run[|run| - 1]
    case Chunk(lines) => ClipAll(lines)
    case ReportTail(_, tail) => ClipAll(tail)
    case _ => []
  }

  /** The run up to the job's end. */
  ghost function WhileLive(maxLines: nat, rec: JobRecord, run: seq<Action>): seq<Action>
    requires After(maxLines, rec, run).Some?
  {
    if run == [] || !Terminal(After(maxLines, rec, run).value.rec.status) then run
    else WhileLive(maxLines, rec, run[..|run| - 1])
  }

  lemma LiveStepTakesLines(maxLines: nat, s: World, a: Action)
    requires Inv(maxLines, s) && !Terminal(s.rec.status) && Step(maxLines, s, a).Some?
    ensures Step(maxLines, s, a).value.log == s.log +
            match a
            case Chunk(lines) => ClipAll(lines)
            case ReportTail(_, tail) => ClipAll(tail)
            case _ => []
  {
    assert Opened(s.books.entry).terminal.None?;
  }

  lemma StepKeepsLog(maxLines: nat, s: World, a: Action)
    requires Inv(maxLines, s) && Step(maxLines, s, a).Some?
    ensures s.log <= Step(maxLines, s, a).value.log
    ensures Terminal(s.rec.status) ==>
              Terminal(Step(maxLines, s, a).value.rec.status) && Step(maxLines, s, a).value.committed == s.committed <= |s.log|
    ensures !Terminal(s.rec.status) && Terminal(Step(maxLines, s, a).value.rec.status) ==>
              Step(maxLines, s, a).value.committed == |s.log| && Step(maxLines, s, a).value.log == s.log
  {
    if a.Change? && Terminal(s.rec.status) {
      TerminalIsFinal(a.m, s.rec);
    } else if a.ReportCommit? && Terminal(s.rec.status) {
      TerminalIsFinal(a.report, s.rec);
    }
  }

  /** While the job runs the hub has every line sent; afterwards what it had at the job's end is every line sent until then. */
  lemma {:induction false} LogIsWhatArrived(maxLines: nat, rec: JobRecord, run: seq<Action>)
    requires Invoked(rec) && After(maxLines, rec, run).Some?
    ensures var s := After(maxLines, rec, run).value;
            if Terminal(s.rec.status)
            then s.committed <= |s.log| && s.log[..s.committed] == Arrived(WhileLive(maxLines, rec, run))
            else s.log == Arrived(run)
  {
    if run != [] {
      var init, a := run[..|run| - 1], run[|run| - 1];
      var s := After(maxLines, rec, init).value;
      LogIsWhatArrived(maxLines, rec, init);
      RunKeepsInv(maxLines, rec, init);
      StepKeepsLog(maxLines, s, a);
      if !Terminal(s.rec.status) {
        LiveStepTakesLines(maxLines, s, a);
      }
    }
  }

  /** So a watcher that came before the end and overflowed nothing is sent every line that came before the end, first and in order. */
  lemma StreamHasAllLines(maxLines: nat, rec: JobRecord, run: seq<Action>, w: nat)
    requires Invoked(rec) && After(maxLines, rec, run).Some?
    requires w in After(maxLines, rec, run).value.watchers && After(maxLines, rec, run).value.watchers[w].Closed?
    ensures var x := After(maxLines, rec, run).value.watchers[w];
            x.view.early && x.view.whole && x.lostLines == 0 ==> Arrived(WhileLive(maxLines, rec, run)) <= LinesOf(x.view.sent)
  {
    var s := After(maxLines, rec, run).value;
    StreamIsWellFormed(maxLines, rec, run, w);
    LogIsWhatArrived(maxLines, rec, run);
    var lines := LinesOf(s.watchers[w].view.sent);
    assert |lines| <= |s.log| ==> forall k :: 0 <= k <= |lines| ==> s.log[..|lines|][..k] == s.log[..k];
  }

  // ---- streams end -----------------------------------------------------------

  /** notifyTerminal gives the job's result to the hub, which keeps it for as long as anyone watches. */
  lemma NotifyTellsTheHub(maxLines: nat, s: World)
    requires Inv(maxLines, s) && Terminal(s.rec.status)
    ensures Step(maxLines, s, Notify).Some?
    ensures var s' := Step(maxLines, s, Notify).value;
            && (s'.books.entry.Some? ==> s'.books.entry.value.terminal == Some(ResultOf(s.rec)))
            && forall w :: w in s.watchers && Attached(s.watchers[w]) ==> s'.books.entry.Some?
  {
    forall w | w in s.watchers && Attached(s.watchers[w])
      ensures Step(maxLines, s, Notify).value.books.entry.Some?
    {
      AccountOf(maxLines, s, w);
    }
  }

  ghost function Steps(maxLines: nat, s: World, acts: seq<Action>): Option<World>
    decreases |acts|
  {
    if acts == [] then Some(s) else
    match Step(maxLines, s, acts[0])
    case Some(s') => Steps(maxLines, s', acts[1..])
    case None => None
  }

  lemma StepThen(maxLines: nat, s: World, a: Action, s1: World, rest: seq<Action>)
    requires Step(maxLines, s, a) == Some(s1)
    ensures Steps(maxLines, s, [a] + rest) == Steps(maxLines, s1, rest)
  {
    assert ([a] + rest)[1..] == rest;
  }

  lemma DrainStep(maxLines: nat, s: World, w: nat) returns (s': World)
    requires w in s.watchers && s.watchers[w].Draining?
    ensures Step(maxLines, s, Drain(w)) == Some(s') && w in s'.watchers
    ensures s'.watchers[w].Closed? || (s'.watchers[w].Draining? && |Mailbox(s', w)| < |Mailbox(s, w)|)
  {
    s' := Step(maxLines, s, Drain(w)).value;
  }

  lemma {:induction false} DrainEnds(maxLines: nat, s: World, w: nat) returns (acts: seq<Action>, s': World)
    requires w in s.watchers && s.watchers[w].Draining?
    ensures Steps(maxLines, s, acts) == Some(s') && w in s'.watchers && s'.watchers[w].Closed?
    ensures forall i :: 0 <= i < |acts| ==> Mover(acts[i]) == Some(w)
    decreases |Mailbox(s, w)|
  {
    var s1 := DrainStep(maxLines, s, w);
    var rest := [];
    s' := s1;
    if !s1.watchers[w].Closed? {
      rest, s' := DrainEnds(maxLines, s1, w);
    }
    acts := [Drain(w)] + rest;
    StepThen(maxLines, s, Drain(w), s1, rest);
  }

  /** Once the job has ended, a stream ends by its own steps alone, whatever the hub did or dropped. */
  lemma StreamCanEnd(maxLines: nat, s: World, w: nat) returns (acts: seq<Action>, s': World)
    requires Terminal(s.rec.status) && w in s.watchers
    requires s.watchers[w].Polling? || s.watchers[w].Selecting? || s.watchers[w].Draining?
    ensures Steps(maxLines, s, acts) == Some(s') && w in s'.watchers && s'.watchers[w].Closed?
    ensures forall i :: 0 <= i < |acts| ==> Mover(acts[i]) == Some(w)
    decreases if s.watchers[w].Selecting? then 2 else if s.watchers[w].Polling? then 1 else 0
  {
    if s.watchers[w].Draining? {
      acts, s' := DrainEnds(maxLines, s, w);
    } else {
      var a := if s.watchers[w].Selecting? then Tick(w) else Poll(w);
      var s1 := Step(maxLines, s, a).value;
      var rest;
      rest, s' := StreamCanEnd(maxLines, s1, w);
      acts := [a] + rest;
      StepThen(maxLines, s, a, s1, rest);
    }
  }

  /** And a stream that waits hears of the next event in its mailbox at once. */
  lemma WaitingStreamHears(maxLines: nat, s: World, w: nat)
    requires w in s.watchers && s.watchers[w].Selecting? && Mailbox(s, w) != []
    ensures Step(maxLines, s, Take(w)).Some?
    ensures var s' := Step(maxLines, s, Take(w)).value;
            && w in s'.watchers && Attached(s'.watchers[w]) && s'.watchers[w].view.sent == s.watchers[w].view.sent + [Mailbox(s, w)[0]]
            && Mailbox(s', w) == Mailbox(s, w)[1..]
            && (s'.watchers[w].Closed? <==> Mailbox(s, w)[0].Result?)
  {
  }
}
