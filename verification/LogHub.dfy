/**
 LogHub (orchestrator/loghub.go): bounded replay buffer per job, bounded
 mailbox per watcher, at most one terminal event. A subscription is named by a
 number; everything under the hub's mutex is one method.
 */
module LogHub {
  import opened Jobs

  const DEFAULT_MAX_BUFFERED_LINES: nat := 10000
  const SUB_CHANNEL_BUFFER: nat := 1024
  const MAX_LINE_BYTES: nat := 8192

  /** The UTF-8 bytes of the marker put on a cut line. */
  const TRUNCATED: Bytes :=
    [0xE2, 0x80, 0xA6, 0x5B, 0x74, 0x72, 0x75, 0x6E, 0x63, 0x61, 0x74, 0x65, 0x64, 0x5D]

  datatype Line = Line(text: Bytes, isStderr: bool, unixMs: int)

  datatype Event = Status(status: JobStatus) | Log(line: Line) | Result(result: JobResult)

  datatype Sub = Sub(ch: seq<Event>, dropped: nat)

  datatype Entry = Entry(lines: seq<Line>, dropped: nat, subs: map<nat, Sub>, terminal: Option<JobResult>)

  const NEW_ENTRY := Entry([], 0, map[], None)

  /** Short lines pass untouched; a long one keeps its first MAX_LINE_BYTES bytes and says so. */
  function Clip(line: Line): (r: Line)
    ensures |line.text| <= MAX_LINE_BYTES ==> r == line
    ensures |line.text| > MAX_LINE_BYTES ==>
              && |r.text| == MAX_LINE_BYTES + 14 && r.text[..MAX_LINE_BYTES] == line.text[..MAX_LINE_BYTES]
              && r.isStderr == line.isStderr && r.unixMs == line.unixMs
  {
    if |line.text| > MAX_LINE_BYTES then line.(text := line.text[..MAX_LINE_BYTES] + TRUNCATED) else line
  }

  function ClipAll(lines: seq<Line>): (r: seq<Line>)
    ensures |r| == |lines|
    ensures forall i :: 0 <= i < |r| ==> r[i] == Clip(lines[i])
  {
    seq(|lines|, i requires 0 <= i < |lines| => Clip(lines[i]))
  }

  /** A non-blocking send: a full mailbox loses the event and counts it. */
  function Offer(sub: Sub, ev: Event): Sub {
    if |sub.ch| < SUB_CHANNEL_BUFFER then sub.(ch := sub.ch + [ev]) else sub.(dropped := sub.dropped + 1)
  }

  function OfferAll(subs: map<nat, Sub>, ev: Event): map<nat, Sub> {
    map s | s in subs :: Offer(subs[s], ev)
  }

  /** Append's loop body. */
  function AppendLine(maxLines: nat, e: Entry, line: Line): Entry {
    (if |e.lines| >= maxLines then e.(dropped := e.dropped + 1) else e.(lines := e.lines + [line]))
    .(subs := OfferAll(e.subs, Log(line)))
  }

  function AppendLines(maxLines: nat, e: Entry, lines: seq<Line>): Entry {
    if lines == [] then e
    else AppendLine(maxLines, AppendLines(maxLines, e, lines[..|lines| - 1]), lines[|lines| - 1])
  }

  // ---- one entry's life ------------------------------------------------------

  datatype Op =
    | Append(lines: seq<Line>)
    | Subscribe(sub: nat)
    | Receive(sub: nat)
    | Unsubscribe(sub: nat)
    | Finish(result: JobResult)

  function Opened(e: Option<Entry>): Entry {
    if e.Some? then e.value else NEW_ENTRY
  }

  /** The job's entry after one call; None when the hub does not track the job. */
  function Next(maxLines: nat, e: Option<Entry>, op: Op): Option<Entry> {
    match op
    case Append(lines) =>
      if lines == [] then e
      else if Opened(e).terminal.Some? then e
      else Some(AppendLines(maxLines, Opened(e), ClipAll(lines)))
    case Subscribe(sub) =>
      Some(Opened(e).(subs := Opened(e).subs[sub := Sub([], 0)]))
    case Receive(sub) =>
      if e.Some? && sub in e.value.subs && e.value.subs[sub].ch != []
      then Some(e.value.(subs := e.value.subs[sub := e.value.subs[sub].(ch := e.value.subs[sub].ch[1..])]))
      else e
    case Unsubscribe(sub) =>
      if e.None? then None
      else
        var rest := e.value.subs - {sub};
        if e.value.terminal.Some? && rest == map[] then None else Some(e.value.(subs := rest))
    case Finish(result) =>
      if e.None? || e.value.terminal.Some? then e
      else if e.value.subs == map[] then None
      else Some(e.value.(terminal := Some(result), subs := OfferAll(e.value.subs, Result(result))))
  }

  class LogHub {
    var jobs: map<string, Entry>
    var issued: nat                // names handed out so far
    const maxLines: nat

    constructor (maxLines: nat)
      ensures jobs == map[] && issued == 0 && this.maxLines == maxLines
    {
      jobs, issued := map[], 0;
      this.maxLines := maxLines;
    }

    function EntryOf(jobId: string): Option<Entry>
      reads this
    {
      if jobId in jobs then Some(jobs[jobId]) else None
    }

    function With(jobId: string, e: Option<Entry>): map<string, Entry>
      reads this
    {
      if e.Some? then jobs[jobId := e.value] else jobs - {jobId}
    }

    /** The fan-out loop over a job's subscribers. */
    static method FanOut(subs: map<nat, Sub>, ev: Event) returns (r: map<nat, Sub>)
      ensures r == OfferAll(subs, ev)
    {
      r := subs;
      var rest := subs.Keys;
      while rest != {}
        invariant rest <= subs.Keys == r.Keys
        invariant forall s :: s in subs ==> r[s] == if s in rest then subs[s] else Offer(subs[s], ev)
        decreases rest
      {
        var s :| s in rest;
        rest := rest - {s};
        if |r[s].ch| < SUB_CHANNEL_BUFFER {
          r := r[s := r[s].(ch := r[s].ch + [ev])];
        } else {
          r := r[s := r[s].(dropped := r[s].dropped + 1)];
        }
      }
    }

    method Append(jobId: string, lines: seq<Line>)
      modifies this`jobs
      ensures jobs == old(With(jobId, Next(maxLines, EntryOf(jobId), Op.Append(lines))))
    {
      assert With(jobId, EntryOf(jobId)) == jobs;
      if lines == [] {
        return;
      }
      var st := if jobId in jobs then jobs[jobId] else NEW_ENTRY;
      if st.terminal.Some? {
        return;
      }
      ghost var before := Opened(EntryOf(jobId));
      for i := 0 to |lines|
        invariant jobs == old(jobs)
        invariant st == AppendLines(maxLines, before, ClipAll(lines)[..i])
      {
        assert ClipAll(lines)[..i + 1][..i] == ClipAll(lines)[..i];
        var line := lines[i];
        if |line.text| > MAX_LINE_BYTES {
          line := line.(text := line.text[..MAX_LINE_BYTES] + TRUNCATED);
        }
        var subs := FanOut(st.subs, Log(line));
        if |st.lines| >= maxLines {
          st := st.(dropped := st.dropped + 1);
        } else {
          st := st.(lines := st.lines + [line]);
        }
        st := st.(subs := subs);
      }
      assert ClipAll(lines)[..|lines|] == ClipAll(lines);
      jobs := jobs[jobId := st];
    }

    method Subscribe(jobId: string) returns (sub: nat, replay: seq<Event>, terminal: Option<JobResult>)
      modifies this
      ensures sub == old(issued) && issued == old(issued) + 1
      ensures jobs == old(With(jobId, Next(maxLines, EntryOf(jobId), Op.Subscribe(issued))))
      ensures |replay| == |jobs[jobId].lines|
      ensures forall i :: 0 <= i < |replay| ==> replay[i] == Log(jobs[jobId].lines[i])
      ensures terminal == jobs[jobId].terminal
    {
      var st := if jobId in jobs then jobs[jobId] else NEW_ENTRY;
      sub := issued;
      issued := issued + 1;
      st := st.(subs := st.subs[sub := Sub([], 0)]);
      jobs := jobs[jobId := st];
      replay := [];
      for i := 0 to |st.lines|
        invariant |replay| == i
        invariant forall k :: 0 <= k < i ==> replay[k] == Log(st.lines[k])
      {
        replay := replay + [Log(st.lines[i])];
      }
      terminal := st.terminal;
    }

    /** A watcher's non-blocking read of its channel. */
    method TryReceive(jobId: string, sub: nat) returns (ev: Option<Event>)
      modifies this`jobs
      ensures jobs == old(With(jobId, Next(maxLines, EntryOf(jobId), Receive(sub))))
      ensures ev.Some? <==> jobId in old(jobs) && sub in old(jobs)[jobId].subs && old(jobs)[jobId].subs[sub].ch != []
      ensures ev.Some? ==> ev.value == old(jobs)[jobId].subs[sub].ch[0]
    {
      if jobId !in jobs || sub !in jobs[jobId].subs || jobs[jobId].subs[sub].ch == [] {
        return None;
      }
      var st := jobs[jobId];
      ev := Some(st.subs[sub].ch[0]);
      jobs := jobs[jobId := st.(subs := st.subs[sub := st.subs[sub].(ch := st.subs[sub].ch[1..])])];
    }

    method Unsubscribe(jobId: string, sub: nat)
      modifies this`jobs
      ensures jobs == old(With(jobId, Next(maxLines, EntryOf(jobId), Op.Unsubscribe(sub))))
    {
      if jobId !in jobs {
        return;
      }
      var st := jobs[jobId];
      st := st.(subs := st.subs - {sub});
      if st.terminal.Some? && st.subs == map[] {
        jobs := jobs - {jobId};
      } else {
        jobs := jobs[jobId := st];
      }
    }

    method Finish(jobId: string, result: JobResult)
      modifies this`jobs
      ensures jobs == old(With(jobId, Next(maxLines, EntryOf(jobId), Op.Finish(result))))
    {
      if jobId !in jobs {
        return;
      }
      var st := jobs[jobId];
      if st.terminal.Some? {
        return;
      }
      var subs := FanOut(st.subs, Result(result));
      if st.subs == map[] {
        jobs := jobs - {jobId};
      } else {
        jobs := jobs[jobId := st.(terminal := Some(result), subs := subs)];
      }
    }
  }

  // ---- the ledger ------------------------------------------------------------

  /** `a` is `b` with some events left out. */
  ghost predicate Subsequence<T(!new)>(a: seq<T>, b: seq<T>) {
    if b == [] then a == []
    else Subsequence(a, b[..|b| - 1])
         || (a != [] && a[|a| - 1] == b[|b| - 1] && Subsequence(a[..|a| - 1], b[..|b| - 1]))
  }

  lemma SubsequenceGrows<T(!new)>(a: seq<T>, b: seq<T>, x: T)
    requires Subsequence(a, b)
    ensures Subsequence(a, b + [x]) && Subsequence(a + [x], b + [x])
  {
    assert (b + [x])[..|b|] == b && (a + [x])[..|a|] == a;
  }

  function LinesOf(events: seq<Event>): seq<Line> {
    if events == [] then []
    else LinesOf(events[..|events| - 1]) +
         if events[|events| - 1].Log? then [events[|events| - 1].line] else []
  }

  lemma LinesOfSnoc(events: seq<Event>, ev: Event)
    ensures LinesOf(events + [ev]) == LinesOf(events) + if ev.Log? then [ev.line] else []
  {
    assert (events + [ev])[..|events|] == events;
  }

  ghost predicate NoResult(events: seq<Event>) {
    forall i :: 0 <= i < |events| ==> !events[i].Result?
  }

  /** What one subscription has been offered and has taken so far. */
  datatype Account = Account(offered: seq<Event>, received: seq<Event>, lostLines: nat)

  /** An entry with the history of its calls: every accepted line, and an account per subscription. */
  datatype Books = Books(entry: Option<Entry>, appended: seq<Line>, accounts: map<nat, Account>)

  const NEW_BOOKS := Books(None, [], map[])

  ghost function Charge(sub: Sub, acc: Account, ev: Event): Account {
    acc.(offered := acc.offered + [ev],
         lostLines := acc.lostLines + if ev.Log? && |sub.ch| >= SUB_CHANNEL_BUFFER then 1 else 0)
  }

  ghost function ChargeAll(subs: map<nat, Sub>, accounts: map<nat, Account>, ev: Event): map<nat, Account> {
    map s | s in subs && s in accounts :: Charge(subs[s], accounts[s], ev)
  }

  ghost function BookLine(maxLines: nat, b: Books, line: Line): Books
    requires b.entry.Some?
  {
    Books(Some(AppendLine(maxLines, b.entry.value, line)), b.appended + [line],
          ChargeAll(b.entry.value.subs, b.accounts, Log(line)))
  }

  ghost function BookLines(maxLines: nat, b: Books, lines: seq<Line>): (r: Books)
    requires b.entry.Some?
    ensures r.entry.Some?
  {
    if lines == [] then b else BookLine(maxLines, BookLines(maxLines, b, lines[..|lines| - 1]), lines[|lines| - 1])
  }

  ghost function BooksNext(maxLines: nat, b: Books, op: Op): Books {
    var e := Next(maxLines, b.entry, op);
    match op
    case Append(lines) =>
      if lines == [] || Opened(b.entry).terminal.Some? then b
      else BookLines(maxLines, b.(entry := Some(Opened(b.entry))), ClipAll(lines))
    case Subscribe(sub) => b.(entry := e, accounts := b.accounts[sub := Account([], [], 0)])
    case Receive(sub) =>
      if b.entry.Some? && sub in b.entry.value.subs && sub in b.accounts && b.entry.value.subs[sub].ch != []
      then b.(entry := e,
              accounts := b.accounts[sub := b.accounts[sub].(received := b.accounts[sub].received + [b.entry.value.subs[sub].ch[0]])])
      else b.(entry := e)
    case Unsubscribe(sub) => if e.None? then NEW_BOOKS else b.(entry := e, accounts := b.accounts - {sub})
    case Finish(result) =>
      if e.None? then NEW_BOOKS
      else if b.entry.value.terminal.Some? then b
      else b.(entry := e, accounts := ChargeAll(b.entry.value.subs, b.accounts, Result(result)))
  }

  /** The books are about the entry the hub really has. */
  lemma BooksFollowHub(maxLines: nat, b: Books, op: Op)
    ensures BooksNext(maxLines, b, op).entry == Next(maxLines, b.entry, op)
  {
    if op.Append? && op.lines != [] && !Opened(b.entry).terminal.Some? {
      BookLinesFollow(maxLines, b.(entry := Some(Opened(b.entry))), ClipAll(op.lines));
    }
  }

  lemma {:induction false} BookLinesFollow(maxLines: nat, b: Books, lines: seq<Line>)
    requires b.entry.Some?
    ensures BookLines(maxLines, b, lines).entry == Some(AppendLines(maxLines, b.entry.value, lines))
    ensures BookLines(maxLines, b, lines).appended == b.appended + lines
  {
    if lines != [] {
      BookLinesFollow(maxLines, b, lines[..|lines| - 1]);
      assert lines == lines[..|lines| - 1] + [lines[|lines| - 1]];
    }
  }

  /** One subscription adds up. */
  ghost predicate AccountBalances(e: Entry, sub: Sub, acc: Account) {
    && |acc.received| + |sub.ch| + sub.dropped == |acc.offered|
    && |sub.ch| <= SUB_CHANNEL_BUFFER
    && Subsequence(acc.received + sub.ch, acc.offered)
    && (sub.dropped == 0 ==> acc.received + sub.ch == acc.offered)
    && (acc.lostLines == 0 ==> LinesOf(acc.received + sub.ch) == LinesOf(acc.offered))
    && (e.terminal.None? ==> NoResult(acc.offered) && NoResult(acc.received + sub.ch))
    && (e.terminal.Some? ==> EndsWith(acc.offered, Result(e.terminal.value)) || acc.offered == [])
    && (e.terminal.Some? ==> OnlyLastIs(acc.received + sub.ch, Result(e.terminal.value)))
  }

  ghost predicate EndsWith(events: seq<Event>, ev: Event) {
    events != [] && events[|events| - 1] == ev && NoResult(events[..|events| - 1])
  }

  ghost predicate OnlyLastIs(events: seq<Event>, ev: Event) {
    NoResult(events) || EndsWith(events, ev)
  }

  ghost predicate Balanced(maxLines: nat, b: Books) {
    match b.entry
    case None => b.appended == [] && b.accounts == map[]
    case Some(e) =>
      && e.lines == (if |b.appended| <= maxLines then b.appended else b.appended[..maxLines])
      && e.dropped == |b.appended| - |e.lines|
      && e.subs.Keys == b.accounts.Keys
      && (e.terminal.Some? ==> e.subs != map[])
      && forall s {:trigger AccountBalances(e, e.subs[s], b.accounts[s])} :: s in e.subs ==> AccountBalances(e, e.subs[s], b.accounts[s])
  }

  lemma NoResultSnoc(events: seq<Event>, ev: Event)
    requires NoResult(events)
    ensures !ev.Result? ==> NoResult(events + [ev])
    ensures EndsWith(events + [ev], ev)
  {
    assert (events + [ev])[..|events|] == events;
  }

  /** The event goes in: everything received or waiting grows by it. */
  lemma TakenBalances(e: Entry, sub: Sub, acc: Account, ev: Event, e': Entry)
    requires AccountBalances(e, sub, acc) && e.terminal.None? && |sub.ch| < SUB_CHANNEL_BUFFER
    requires if ev.Result? then e'.terminal == Some(ev.result) else e'.terminal.None?
    ensures AccountBalances(e', sub.(ch := sub.ch + [ev]), acc.(offered := acc.offered + [ev]))
  {
    var got := acc.received + sub.ch;
    SubsequenceGrows(got, acc.offered, ev);
    LinesOfSnoc(acc.offered, ev);
    LinesOfSnoc(got, ev);
    NoResultSnoc(acc.offered, ev);
    NoResultSnoc(got, ev);
    assert acc.received + (sub.ch + [ev]) == got + [ev];
  }

  /** The mailbox is full: only the count of losses grows. */
  lemma LostBalances(e: Entry, sub: Sub, acc: Account, ev: Event, e': Entry, lostLines: nat)
    requires AccountBalances(e, sub, acc) && e.terminal.None? && |sub.ch| <= SUB_CHANNEL_BUFFER
    requires if ev.Result? then e'.terminal == Some(ev.result) else e'.terminal.None?
    requires lostLines == acc.lostLines + if ev.Log? then 1 else 0
    ensures AccountBalances(e', sub.(dropped := sub.dropped + 1), acc.(offered := acc.offered + [ev], lostLines := lostLines))
  {
    SubsequenceGrows(acc.received + sub.ch, acc.offered, ev);
    LinesOfSnoc(acc.offered, ev);
    NoResultSnoc(acc.offered, ev);
  }

  lemma OfferBalances(e: Entry, sub: Sub, acc: Account, ev: Event, e': Entry)
    requires AccountBalances(e, sub, acc) && e.terminal.None?
    requires if ev.Result? then e'.terminal == Some(ev.result) else e'.terminal.None?
    ensures AccountBalances(e', Offer(sub, ev), Charge(sub, acc, ev))
  {
    if |sub.ch| < SUB_CHANNEL_BUFFER {
      TakenBalances(e, sub, acc, ev, e');
    } else {
      LostBalances(e, sub, acc, ev, e', Charge(sub, acc, ev).lostLines);
    }
  }

  lemma OfferAllBalances(e: Entry, accounts: map<nat, Account>, ev: Event, e': Entry)
    requires e.subs.Keys == accounts.Keys && e.terminal.None?
    requires forall s :: s in e.subs ==> AccountBalances(e, e.subs[s], accounts[s])
    requires if ev.Result? then e'.terminal == Some(ev.result) else e'.terminal.None?
    ensures OfferAll(e.subs, ev).Keys == ChargeAll(e.subs, accounts, ev).Keys
    ensures forall s :: s in e.subs ==>
              AccountBalances(e', OfferAll(e.subs, ev)[s], ChargeAll(e.subs, accounts, ev)[s])
  {
    forall s | s in e.subs
      ensures AccountBalances(e', Offer(e.subs[s], ev), Charge(e.subs[s], accounts[s], ev))
    {
      OfferBalances(e, e.subs[s], accounts[s], ev, e');
    }
  }

  lemma BookLineBalances(maxLines: nat, b: Books, line: Line)
    requires Balanced(maxLines, b) && b.entry.Some? && b.entry.value.terminal.None?
    ensures Balanced(maxLines, BookLine(maxLines, b, line))
    ensures BookLine(maxLines, b, line).entry.value.terminal.None?
  {
    OfferAllBalances(b.entry.value, b.accounts, Log(line), AppendLine(maxLines, b.entry.value, line));
  }

  lemma {:induction false} BookLinesBalance(maxLines: nat, b: Books, lines: seq<Line>)
    requires Balanced(maxLines, b) && b.entry.Some? && b.entry.value.terminal.None?
    ensures Balanced(maxLines, BookLines(maxLines, b, lines))
    ensures BookLines(maxLines, b, lines).entry.value.terminal.None?
  {
    if lines != [] {
      BookLinesBalance(maxLines, b, lines[..|lines| - 1]);
      BookLineBalances(maxLines, BookLines(maxLines, b, lines[..|lines| - 1]), lines[|lines| - 1]);
    }
  }

  /** Subscriptions that an operation leaves alone stay in balance. */
  lemma OthersBalance(maxLines: nat, b: Books, e: Entry, s: nat)
    requires Balanced(maxLines, b) && b.entry.Some? && e.terminal == b.entry.value.terminal && s in b.entry.value.subs
    ensures AccountBalances(e, b.entry.value.subs[s], b.accounts[s])
  {
    assert AccountBalances(b.entry.value, b.entry.value.subs[s], b.accounts[s]);
  }

  lemma ReceiveBalances(maxLines: nat, b: Books, sub: nat)
    requires Balanced(maxLines, b)
    ensures Balanced(maxLines, BooksNext(maxLines, b, Receive(sub)))
  {
    if b.entry.Some? && sub in b.entry.value.subs && b.entry.value.subs[sub].ch != [] {
      var e, acc := b.entry.value, b.accounts[sub];
      var ch := e.subs[sub].ch;
      assert (acc.received + [ch[0]]) + ch[1..] == acc.received + ch;
      assert AccountBalances(e, e.subs[sub], acc);
      var b' := BooksNext(maxLines, b, Receive(sub));
      forall s | s in e.subs
        ensures AccountBalances(b'.entry.value, b'.entry.value.subs[s], b'.accounts[s])
      {
        if s != sub {
          OthersBalance(maxLines, b, b'.entry.value, s);
        }
      }
    }
  }

  lemma SubscribeBalances(maxLines: nat, b: Books, sub: nat)
    requires Balanced(maxLines, b)
    ensures Balanced(maxLines, BooksNext(maxLines, b, Subscribe(sub)))
  {
    var b' := BooksNext(maxLines, b, Subscribe(sub));
    var e := b'.entry.value;
    forall s | s in e.subs
      ensures AccountBalances(e, e.subs[s], b'.accounts[s])
    {
      if s == sub {
        assert AccountBalances(e, Sub([], 0), Account([], [], 0));
      } else {
        OthersBalance(maxLines, b, e, s);
      }
    }
  }

  lemma UnsubscribeBalances(maxLines: nat, b: Books, sub: nat)
    requires Balanced(maxLines, b)
    ensures Balanced(maxLines, BooksNext(maxLines, b, Unsubscribe(sub)))
  {
    var b' := BooksNext(maxLines, b, Unsubscribe(sub));
    if b'.entry.Some? {
      forall s | s in b'.entry.value.subs
        ensures AccountBalances(b'.entry.value, b'.entry.value.subs[s], b'.accounts[s])
      {
        OthersBalance(maxLines, b, b'.entry.value, s);
      }
    }
  }

  lemma FinishBalances(maxLines: nat, b: Books, result: JobResult)
    requires Balanced(maxLines, b)
    ensures Balanced(maxLines, BooksNext(maxLines, b, Finish(result)))
  {
    if b.entry.Some? && b.entry.value.terminal.None? && b.entry.value.subs != map[] {
      OfferAllBalances(b.entry.value, b.accounts, Result(result), Next(maxLines, b.entry, Finish(result)).value);
    }
  }

  /** Every call keeps every account, the replay buffer and the drop counters in balance. */
  lemma BooksStayBalanced(maxLines: nat, b: Books, op: Op)
    requires Balanced(maxLines, b)
    ensures Balanced(maxLines, BooksNext(maxLines, b, op))
  {
    match op
    case Append(lines) =>
      if lines != [] && !Opened(b.entry).terminal.Some? {
        BookLinesBalance(maxLines, b.(entry := Some(Opened(b.entry))), ClipAll(lines));
      }
    case Receive(sub) => ReceiveBalances(maxLines, b, sub);
    case Subscribe(sub) => SubscribeBalances(maxLines, b, sub);
    case Unsubscribe(sub) => UnsubscribeBalances(maxLines, b, sub);
    case Finish(result) => FinishBalances(maxLines, b, result);
  }

  ghost function BooksAfter(maxLines: nat, ops: seq<Op>): Books {
    if ops == [] then NEW_BOOKS else BooksNext(maxLines, BooksAfter(maxLines, ops[..|ops| - 1]), ops[|ops| - 1])
  }

  /** The hub's entry after the same calls. */
  function EntryAfter(maxLines: nat, ops: seq<Op>): Option<Entry> {
    if ops == [] then None else Next(maxLines, EntryAfter(maxLines, ops[..|ops| - 1]), ops[|ops| - 1])
  }

  /** An accepted line is offered to every subscriber once. */
  lemma BookLineAccounts(maxLines: nat, b: Books, line: Line, w: nat)
    requires b.entry.Some? && b.entry.value.subs.Keys == b.accounts.Keys
    ensures var b' := BookLine(maxLines, b, line);
            && b'.entry.value.subs.Keys == b'.accounts.Keys == b.accounts.Keys
            && b'.entry.value.terminal == b.entry.value.terminal
            && (w in b.accounts ==>
                  && b'.accounts[w].received == b.accounts[w].received
                  && |b'.accounts[w].offered| == |b.accounts[w].offered| + 1
                  && LinesOf(b'.accounts[w].offered) == LinesOf(b.accounts[w].offered) + [line])
  {
    if w in b.accounts {
      LinesOfSnoc(b.accounts[w].offered, Log(line));
    }
  }

  lemma {:induction false} BookLinesAccounts(maxLines: nat, b: Books, lines: seq<Line>, w: nat)
    requires b.entry.Some? && b.entry.value.subs.Keys == b.accounts.Keys
    ensures var b' := BookLines(maxLines, b, lines);
            && b'.entry.value.subs.Keys == b'.accounts.Keys == b.accounts.Keys
            && b'.entry.value.terminal == b.entry.value.terminal
            && (w in b.accounts ==>
                  && b'.accounts[w].received == b.accounts[w].received
                  && |b'.accounts[w].offered| == |b.accounts[w].offered| + |lines|
                  && LinesOf(b'.accounts[w].offered) == LinesOf(b.accounts[w].offered) + lines)
  {
    if lines != [] {
      var init, line := lines[..|lines| - 1], lines[|lines| - 1];
      BookLinesAccounts(maxLines, b, init, w);
      BookLineAccounts(maxLines, BookLines(maxLines, b, init), line, w);
      assert lines == init + [line];
    }
  }

  /** The ledger over any sequence of calls on a job. */
  lemma {:induction false} LedgerBalances(maxLines: nat, ops: seq<Op>)
    ensures BooksAfter(maxLines, ops).entry == EntryAfter(maxLines, ops)
    ensures Balanced(maxLines, BooksAfter(maxLines, ops))
  {
    if ops != [] {
      LedgerBalances(maxLines, ops[..|ops| - 1]);
      BooksFollowHub(maxLines, BooksAfter(maxLines, ops[..|ops| - 1]), ops[|ops| - 1]);
      BooksStayBalanced(maxLines, BooksAfter(maxLines, ops[..|ops| - 1]), ops[|ops| - 1]);
    }
  }

  /** Everything accepted since the first `start` lines was offered to `sub`, and the result too if it came later. */
  ghost predicate OfferedSince(b: Books, sub: nat, start: nat, early: bool) {
    && b.entry.Some? && sub in b.accounts && start <= |b.appended|
    && LinesOf(b.accounts[sub].offered) == b.appended[start..]
    && |b.accounts[sub].offered| == |b.appended| - start + (if early && b.entry.value.terminal.Some? then 1 else 0)
    && (!early ==> b.entry.value.terminal.Some?)
  }

  lemma DropConcat<T>(a: seq<T>, b: seq<T>, k: nat)
    requires k <= |a|
    ensures (a + b)[k..] == a[k..] + b
  {
  }

  lemma AppendOffers(maxLines: nat, b: Books, lines: seq<Line>, sub: nat, start: nat, early: bool)
    requires b.entry.Some? && b.entry.value.subs.Keys == b.accounts.Keys && OfferedSince(b, sub, start, early)
    ensures OfferedSince(BooksNext(maxLines, b, Append(lines)), sub, start, early)
  {
    if lines != [] && b.entry.value.terminal.None? {
      BookLinesAccounts(maxLines, b, ClipAll(lines), sub);
      BookLinesFollow(maxLines, b, ClipAll(lines));
      DropConcat(b.appended, ClipAll(lines), start);
      assert b.(entry := Some(Opened(b.entry))) == b;
    }
  }

  lemma FinishOffers(maxLines: nat, b: Books, result: JobResult, sub: nat, start: nat, early: bool)
    requires b.entry.Some? && b.entry.value.subs.Keys == b.accounts.Keys && OfferedSince(b, sub, start, early)
    ensures OfferedSince(BooksNext(maxLines, b, Finish(result)), sub, start, early)
  {
    LinesOfSnoc(b.accounts[sub].offered, Result(result));
  }

  lemma CallOffers(maxLines: nat, b: Books, op: Op, sub: nat, start: nat, early: bool)
    requires Balanced(maxLines, b) && OfferedSince(b, sub, start, early)
    requires op != Subscribe(sub) && op != Unsubscribe(sub)
    ensures OfferedSince(BooksNext(maxLines, b, op), sub, start, early)
  {
    match op
    case Append(lines) => AppendOffers(maxLines, b, lines, sub, start, early);
    case Finish(result) => FinishOffers(maxLines, b, result, sub, start, early);
    case Unsubscribe(other) => assert sub in b.entry.value.subs - {other};
    case _ =>
  }

  /** `ops[m]` subscribed `sub`, and it has been subscribed ever since. */
  ghost predicate SubscribedSince(ops: seq<Op>, m: nat, sub: nat) {
    && m < |ops| && ops[m] == Subscribe(sub)
    && forall i :: m < i < |ops| ==> ops[i] != Subscribe(sub) && ops[i] != Unsubscribe(sub)
  }

  lemma {:induction false} OfferedWhileSubscribed(maxLines: nat, ops: seq<Op>, m: nat, sub: nat)
    requires SubscribedSince(ops, m, sub)
    ensures var before := BooksAfter(maxLines, ops[..m]);
            OfferedSince(BooksAfter(maxLines, ops), sub, |before.appended|, Opened(before.entry).terminal.None?)
  {
    var n := |ops| - 1;
    LedgerBalances(maxLines, ops[..n]);
    if m < n {
      assert ops[..n][..m] == ops[..m];
      OfferedWhileSubscribed(maxLines, ops[..n], m, sub);
      var before := BooksAfter(maxLines, ops[..m]);
      CallOffers(maxLines, BooksAfter(maxLines, ops[..n]), ops[n], sub, |before.appended|, Opened(before.entry).terminal.None?);
    }
  }

  /**
   The mailbox ledger: what a subscriber took, what waits for it and what it
   lost add up to the lines accepted while it was subscribed, plus the result
   if that came while it was.
   */
  lemma MailboxLedger(maxLines: nat, ops: seq<Op>, m: nat, sub: nat)
    requires SubscribedSince(ops, m, sub)
    ensures var before, now := BooksAfter(maxLines, ops[..m]), BooksAfter(maxLines, ops);
            && now.entry.Some? && sub in now.entry.value.subs && sub in now.accounts
            && |before.appended| <= |now.appended|
            && |now.accounts[sub].received| + |now.entry.value.subs[sub].ch| + now.entry.value.subs[sub].dropped
               == |now.appended| - |before.appended|
                  + if Opened(before.entry).terminal.None? && now.entry.value.terminal.Some? then 1 else 0
  {
    OfferedWhileSubscribed(maxLines, ops, m, sub);
    LedgerBalances(maxLines, ops);
    var now := BooksAfter(maxLines, ops);
    assert AccountBalances(now.entry.value, now.entry.value.subs[sub], now.accounts[sub]);
  }
}
