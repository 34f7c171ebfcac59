/**
 LineBuffer and TaskLogStreamer._chunks (worker/logstream.py): raw writes into
 complete lines, lines into batches.
 */
module LogStream {

  const MAX_BATCH: nat := 256

  // ---- splitting text at newlines --------------------------------------------

  /** Position of the first newline, or the length. */
  function Newline(s: string): (i: nat)
    ensures i <= |s|
    ensures forall j :: 0 <= j < i ==> s[j] != '\n'
    ensures i < |s| ==> s[i] == '\n'
  {
    if s == [] || s[0] == '\n' then 0 else 1 + Newline(s[1..])
  }

  /** The complete lines of a text. */
  function Lines(s: string): seq<string> {
    var i := Newline(s);
    if i == |s| then [] else [s[..i]] + Lines(s[i + 1..])
  }

  /** What follows its last newline. */
  function Rest(s: string): string {
    var i := Newline(s);
    if i == |s| then s else Rest(s[i + 1..])
  }

  /** Every line with its newline, then the rest. */
  function Unsplit(lines: seq<string>, rest: string): string {
    if lines == [] then rest else lines[0] + ['\n'] + Unsplit(lines[1..], rest)
  }

  ghost predicate OneLine(s: string) {
    '\n' !in s
  }

  lemma FirstLine(s: string)
    requires Newline(s) < |s|
    ensures Lines(s) != [] && Lines(s)[0] == s[..Newline(s)]
    ensures Lines(s)[1..] == Lines(s[Newline(s) + 1..])
    ensures Rest(s) == Rest(s[Newline(s) + 1..])
  {
  }

  lemma TakeOne<T>(a: seq<T>, b: seq<T>)
    requires b != []
    ensures a + b == (a + [b[0]]) + b[1..]
  {
  }

  lemma NewlineIn(line: string, tail: string)
    requires OneLine(line)
    ensures Newline(line + ['\n'] + tail) == |line|
  {
    var s := line + ['\n'] + tail;
    assert s[|line|] == '\n';
    assert forall j :: 0 <= j < |line| ==> s[j] == line[j];
  }

  /** Splitting loses nothing and leaves no newline inside a line. */
  lemma {:induction false} SplitRoundTrip(s: string)
    ensures Unsplit(Lines(s), Rest(s)) == s
    ensures OneLine(Rest(s)) && forall i :: 0 <= i < |Lines(s)| ==> OneLine(Lines(s)[i])
    decreases |s|
  {
    var i := Newline(s);
    if i < |s| {
      SplitRoundTrip(s[i + 1..]);
      assert s == s[..i] + ['\n'] + s[i + 1..];
      assert Lines(s)[1..] == Lines(s[i + 1..]);
    }
  }

  lemma SplitFirst(line: string, tail: string)
    requires OneLine(line)
    ensures Lines(line + ['\n'] + tail) == [line] + Lines(tail)
    ensures Rest(line + ['\n'] + tail) == Rest(tail)
  {
    var s := line + ['\n'] + tail;
    NewlineIn(line, tail);
    assert s[..|line|] == line && s[|line| + 1..] == tail;
  }

  /** And it is the only way to cut the text into newline-free lines and a rest. */
  lemma {:induction false} SplitUnique(lines: seq<string>, rest: string)
    requires OneLine(rest) && forall i :: 0 <= i < |lines| ==> OneLine(lines[i])
    ensures Lines(Unsplit(lines, rest)) == lines && Rest(Unsplit(lines, rest)) == rest
  {
    if lines == [] {
      assert Newline(rest) == |rest|;
    } else {
      SplitUnique(lines[1..], rest);
      SplitFirst(lines[0], Unsplit(lines[1..], rest));
      assert lines == [lines[0]] + lines[1..];
    }
  }

  lemma {:induction false} UnsplitConcat(a: seq<string>, b: seq<string>, rest: string)
    ensures Unsplit(a + b, rest) == Unsplit(a, Unsplit(b, rest))
  {
    if a == [] {
      assert a + b == b;
    } else {
      assert (a + b)[1..] == a[1..] + b;
      UnsplitConcat(a[1..], b, rest);
    }
  }

  lemma {:induction false} UnsplitTail(lines: seq<string>, rest: string, more: string)
    ensures Unsplit(lines, rest) + more == Unsplit(lines, rest + more)
  {
    if lines != [] {
      UnsplitTail(lines[1..], rest, more);
      assert lines[0] + ['\n'] + (Unsplit(lines[1..], rest) + more) == (lines[0] + ['\n'] + Unsplit(lines[1..], rest)) + more;
    }
  }

  /** More text continues where the rest left off. */
  lemma SplitContinues(a: string, b: string)
    ensures Lines(a + b) == Lines(a) + Lines(Rest(a) + b)
    ensures Rest(a + b) == Rest(Rest(a) + b)
  {
    var c := Rest(a) + b;
    SplitRoundTrip(a);
    SplitRoundTrip(c);
    UnsplitTail(Lines(a), Rest(a), b);
    UnsplitConcat(Lines(a), Lines(c), Rest(c));
    SplitUnique(Lines(a) + Lines(c), Rest(c));
  }

  function Concat(chunks: seq<string>): string {
    if chunks == [] then "" else Concat(chunks[..|chunks| - 1]) + chunks[|chunks| - 1]
  }

  // ---- LineBuffer ------------------------------------------------------------

  class LineBuffer {
    var buf: string
    var emitted: seq<string>       // what went to the emit callback

    constructor ()
      ensures buf == "" && emitted == []
    {
      buf, emitted := "", [];
    }

    method Write(s: string)
      modifies this
      ensures emitted == old(emitted) + Lines(old(buf) + s)
      ensures buf == Rest(old(buf) + s)
    {
      buf := buf + s;
      while Newline(buf) < |buf|
        invariant emitted + Lines(buf) == old(emitted) + Lines(old(buf) + s)
        invariant Rest(buf) == Rest(old(buf) + s)
        decreases |buf|
      {
        var i := Newline(buf);
        FirstLine(buf);
        TakeOne(emitted, Lines(buf));
        emitted := emitted + [buf[..i]];
        buf := buf[i + 1..];
      }
    }

    method FlushPartial()
      modifies this
      ensures buf == ""
      ensures emitted == old(emitted) + if old(buf) != "" then [old(buf)] else []
    {
      if buf != "" {
        emitted := emitted + [buf];
        buf := "";
      }
    }

    /** A whole stream, in whatever pieces it was written, then closed. */
    method WriteAll(chunks: seq<string>)
      requires buf == "" && emitted == []
      modifies this
      ensures emitted == Lines(Concat(chunks)) + if Rest(Concat(chunks)) != "" then [Rest(Concat(chunks))] else []
    {
      for i := 0 to |chunks|
        invariant emitted == Lines(Concat(chunks[..i])) && buf == Rest(Concat(chunks[..i]))
      {
        assert chunks[..i + 1][..i] == chunks[..i];
        SplitContinues(Concat(chunks[..i]), chunks[i]);
        Write(chunks[i]);
      }
      assert chunks[..|chunks|] == chunks;
      FlushPartial();
    }
  }

  // ---- batching --------------------------------------------------------------

  datatype Item<T> = Entry(line: T) | Close

  /** The lines queued before the first Close. */
  function Queued<T>(q: seq<Item<T>>): seq<T> {
    if q == [] || q[0].Close? then [] else [q[0].line] + Queued(q[1..])
  }

  function Flatten<T>(batches: seq<seq<T>>): seq<T> {
    if batches == [] then [] else Flatten(batches[..|batches| - 1]) + batches[|batches| - 1]
  }

  /** One batch: the line already taken, then whatever get_nowait hands out; it may come up empty at any time. */
  method FillBatch<T>(first: T, q: seq<Item<T>>) returns (lines: seq<T>, rest: seq<Item<T>>, closing: bool)
    ensures 1 <= |lines| <= MAX_BATCH
    ensures |rest| <= |q|
    ensures [first] + Queued(q) == lines + if closing then [] else Queued(rest)
  {
    lines, rest, closing := [first], q, false;
    while |lines| < MAX_BATCH
      invariant 1 <= |lines| <= MAX_BATCH && |rest| <= |q|
      invariant [first] + Queued(q) == lines + Queued(rest)
      decreases |rest|
    {
      var empty: bool := *;
      if empty || rest == [] {
        return;
      }
      var next := rest[0];
      if next.Close? {
        closing := true;
        rest := rest[1..];
        return;
      }
      TakeOne(lines, Queued(rest));
      lines, rest := lines + [next.line], rest[1..];
    }
  }

  lemma FlattenSnoc<T>(batches: seq<seq<T>>, lines: seq<T>, rest: seq<T>)
    ensures Flatten(batches) + (lines + rest) == Flatten(batches + [lines]) + rest
  {
    assert (batches + [lines])[..|batches|] == batches;
  }

  /** All batches until Close (or until the queue runs dry, where get would block). */
  method Chunks<T>(q: seq<Item<T>>) returns (batches: seq<seq<T>>)
    ensures Flatten(batches) == Queued(q)
    ensures forall i :: 0 <= i < |batches| ==> 1 <= |batches[i]| <= MAX_BATCH
  {
    batches := [];
    var rest := q;
    while rest != []
      invariant Flatten(batches) + Queued(rest) == Queued(q)
      invariant forall i :: 0 <= i < |batches| ==> 1 <= |batches[i]| <= MAX_BATCH
      decreases |rest|
    {
      var item := rest[0];
      if item.Close? {
        return;
      }
      var lines, rest', closing := FillBatch(item.line, rest[1..]);
      FlattenSnoc(batches, lines, if closing then [] else Queued(rest'));
      batches := batches + [lines];
      if closing {
        return;
      }
      rest := rest';
    }
  }
}
