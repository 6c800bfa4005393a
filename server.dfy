/**
 * The scan server: the stdout capture that turns the pipeline's printed output into log
 * messages, the order in which the pipeline thread queues its messages, the server-sent-event
 * frames the scan endpoint writes for them, and the export endpoint.
 */
module Server {
  import opened Wrappers
  import opened Text
  import opened Json
  import opened EventStream

  /** A message on the scan's queue: `("log", line)`, `("result", profiles)`, `("error", text)`, `("done", None)`. */
  datatype Message =
    | Log(line: string)
    | Result(profiles: seq<Json>)
    | Error(message: string)
    | Done

  /** The log messages of `lines`, in order. */
  function Logs(lines: seq<string>): (r: seq<Message>)
    ensures |r| == |lines|
    ensures forall k :: 0 <= k < |lines| ==> r[k] == Log(lines[k])
  {
    if lines == [] then [] else [Log(lines[0])] + Logs(lines[1..])
  }

  lemma {:induction false} LogsAppend(a: seq<string>, b: seq<string>)
    ensures Logs(a + b) == Logs(a) + Logs(b)
  {
    if a == [] {
      assert a + b == b;
    } else {
      assert (a + b)[1..] == a[1..] + b;
      LogsAppend(a[1..], b);
    }
  }

  lemma AppendAssoc<T>(a: seq<T>, b: seq<T>, c: seq<T>)
    ensures a + (b + c) == (a + b) + c
  {
  }

  /** A log line as it is queued: stripped and not empty. */
  predicate QueuedLine(line: string) {
    line != [] && !IsSpace(line[0]) && !IsSpace(line[|line| - 1])
  }

  /** The lines that are queued for `lines`: each stripped, the blank ones dropped. */
  function Emitted(lines: seq<string>): (r: seq<string>)
    ensures |r| <= |lines|
    ensures forall k :: 0 <= k < |r| ==> QueuedLine(r[k])
  {
    if lines == [] then [] else EmittedLine(lines[0]) + Emitted(lines[1..])
  }

  /** One line as queued: stripped, or nothing when it is blank. */
  function EmittedLine(line: string): (r: seq<string>)
    ensures |r| <= 1
    ensures forall k :: 0 <= k < |r| ==> QueuedLine(r[k])
  {
    if Strip(line) != [] then [Strip(line)] else []
  }

  lemma {:induction false} EmittedAppend(a: seq<string>, b: seq<string>)
    ensures Emitted(a + b) == Emitted(a) + Emitted(b)
  {
    if a == [] {
      assert a + b == b;
    } else {
      assert (a + b)[0] == a[0];
      assert (a + b)[1..] == a[1..] + b;
      EmittedAppend(a[1..], b);
    }
  }

  /** The lines one `write(text)` queues, given what was buffered before. */
  function WriteLines(buffer: string, text: string): seq<string> {
    if text == [] then [] else Emitted(CompleteLines(buffer + text))
  }

  /** What one `write(text)` leaves buffered: the text after the last line feed. */
  function WriteBuffer(buffer: string, text: string): string {
    if text == [] then buffer else Tail(buffer + text)
  }

  /** The line `flush()` queues: the stripped buffer, unless it is blank. */
  function FlushLines(buffer: string): seq<string> {
    if Strip(buffer) != [] then [Strip(buffer)] else []
  }

  /** What `flush()` leaves buffered: nothing, or the blank buffer it did not queue. */
  function FlushBuffer(buffer: string): string {
    if Strip(buffer) != [] then "" else buffer
  }

  /**
   * Writing `x` and then `y` queues the same lines and leaves the same buffer as writing
   * `x + y` at once: the log lines do not depend on how the output was cut into writes.
   */
  lemma TwoWritesAreOne(buffer: string, x: string, y: string)
    ensures WriteLines(buffer, x) + WriteLines(WriteBuffer(buffer, x), y) == WriteLines(buffer, x + y)
    ensures WriteBuffer(WriteBuffer(buffer, x), y) == WriteBuffer(buffer, x + y)
  {
    if x == [] {
      assert x + y == y;
    } else if y == [] {
      assert x + y == x;
    } else {
      assert buffer + (x + y) == (buffer + x) + y;
      CompleteLinesAppend(buffer + x, y);
      TailAppend(buffer + x, y);
      EmittedAppend(CompleteLines(buffer + x), CompleteLines(Tail(buffer + x) + y));
    }
  }

  /** Taking the first line off a text that holds a line feed. */
  lemma FirstLineSplit(s: string)
    requires '\n' in s
    ensures var i := IndexOf(s, '\n');
      && Emitted(CompleteLines(s)) == EmittedLine(s[..i]) + Emitted(CompleteLines(s[i + 1..]))
      && Tail(s) == Tail(s[i + 1..])
  {
    FirstLine(s);
    EmittedCons(s[..IndexOf(s, '\n')], CompleteLines(s[IndexOf(s, '\n') + 1..]));
  }

  lemma EmittedCons(line: string, rest: seq<string>)
    ensures Emitted([line] + rest) == EmittedLine(line) + Emitted(rest)
  {
    assert ([line] + rest)[0] == line;
    assert ([line] + rest)[1..] == rest;
  }

  /** The stream that replaces stdout while the pipeline runs. */
  class LogCapture {
    var buffer: string
    /** The messages this capture has put on the queue, in order. */
    var queue: seq<Message>

    /** No complete line waits in the buffer. */
    predicate Valid()
      reads this
    {
      '\n' !in buffer
    }

    constructor()
      ensures Valid() && buffer == [] && queue == []
    {
      buffer := [];
      queue := [];
    }

    /**
     * `write(text)`: every complete line of the buffered text is stripped and queued unless
     * blank; the rest stays buffered. Returns the length of `text` (0 for the empty text,
     * which changes nothing).
     */
    method Write(text: string) returns (n: nat)
      requires Valid()
      modifies this
      ensures Valid()
      ensures n == |text|
      ensures queue == old(queue) + Logs(WriteLines(old(buffer), text))
      ensures buffer == WriteBuffer(old(buffer), text)
    {
      if text == [] {
        return 0;
      }
      buffer := buffer + text;
      TakeLines();
      return |text|;
    }

    /** The loop of `write`: complete lines are taken off the front of the buffer until none is left. */
    method TakeLines()
      modifies this
      ensures '\n' !in buffer && buffer == Tail(old(buffer))
      ensures queue == old(queue) + Logs(Emitted(CompleteLines(old(buffer))))
    {
      ghost var whole := buffer;
      ghost var queued: seq<string> := [];
      while '\n' in buffer
        invariant queue == old(queue) + Logs(queued)
        invariant queued + Emitted(CompleteLines(buffer)) == Emitted(CompleteLines(whole))
        invariant Tail(buffer) == Tail(whole)
        decreases |buffer|
      {
        ghost var first := EmitFirstLine();
        AppendAssoc(queued, first, Emitted(CompleteLines(buffer)));
        LogsAppend(queued, first);
        AppendAssoc(old(queue), Logs(queued), Logs(first));
        queued := queued + first;
      }
      assert CompleteLines(buffer) == [] && Emitted([]) == [];
      assert queued == Emitted(CompleteLines(whole));
    }

    /** One turn of the loop in `write`: the first line is taken off the buffer and queued unless blank. */
    method EmitFirstLine() returns (ghost first: seq<string>)
      requires '\n' in buffer
      modifies this
      ensures Emitted(CompleteLines(old(buffer))) == first + Emitted(CompleteLines(buffer))
      ensures Tail(old(buffer)) == Tail(buffer) && |buffer| < |old(buffer)|
      ensures queue == old(queue) + Logs(first)
    {
      var i := IndexOf(buffer, '\n');
      FirstLineSplit(buffer);
      var line := Strip(buffer[..i]);
      first := EmittedLine(buffer[..i]);
      buffer := buffer[i + 1..];
      if line != [] {
        assert Logs(first) == [Log(line)];
        queue := queue + [Log(line)];
      } else {
        assert Logs(first) == [];
      }
    }

    /** `flush()`: a buffer that is not blank is queued stripped and emptied; a blank one stays. */
    method Flush()
      requires Valid()
      modifies this
      ensures Valid()
      ensures queue == old(queue) + Logs(FlushLines(old(buffer)))
      ensures buffer == FlushBuffer(old(buffer))
    {
      var line := Strip(buffer);
      if line != [] {
        queue := queue + [Log(line)];
        buffer := "";
      }
    }
  }

  /** How the scrape-and-analyse run ended: its profiles, or the text of its exception. */
  datatype Outcome = Succeeded(profiles: seq<Json>) | Failed(message: string)

  /** The lines a run queues for everything it printed, flushed at the end. */
  function PrintedLines(printed: seq<string>): seq<string> {
    var text := Concat(printed);
    WriteLines("", text) + FlushLines(WriteBuffer("", text))
  }

  /** The messages of one run: its log lines, then the result or the error, then "done". */
  function RunMessages(printed: seq<string>, outcome: Outcome): seq<Message> {
    Logs(PrintedLines(printed))
      + [if outcome.Succeeded? then Result(outcome.profiles) else Error(outcome.message), Done]
  }

  /** Log lines, then exactly one result or error, then "done", and nothing after it. */
  predicate WellFormedRun(q: seq<Message>) {
    && |q| >= 2
    && q[|q| - 1] == Done
    && (q[|q| - 2].Result? || q[|q| - 2].Error?)
    && forall k :: 0 <= k < |q| - 2 ==> q[k].Log? && QueuedLine(q[k].line)
  }

  /** Every run, whatever it printed and however it ended, queues a well-formed sequence. */
  lemma RunIsWellFormed(printed: seq<string>, outcome: Outcome)
    ensures WellFormedRun(RunMessages(printed, outcome))
  {
    var text := Concat(printed);
    var written := WriteLines("", text);
    var flushed := FlushLines(WriteBuffer("", text));
    var lines := PrintedLines(printed);
    assert lines == written + flushed;
    forall k | 0 <= k < |lines|
      ensures QueuedLine(lines[k])
    {
      if k < |written| {
        assert lines[k] == written[k];
      } else {
        assert lines[k] == flushed[k - |written|];
      }
    }
  }

  /**
   * `run_pipeline_thread`: the pipeline's output, written to the capture in the chunks it was
   * printed in (`printed`), ends as the log lines of its concatenation; on either outcome the
   * capture is flushed before the result or the error, and "done" comes last.
   */
  method RunPipeline(printed: seq<string>, outcome: Outcome) returns (queue: seq<Message>)
    ensures queue == RunMessages(printed, outcome)
    ensures WellFormedRun(queue)
  {
    RunIsWellFormed(printed, outcome);
    var capture := new LogCapture();
    PrintAll(capture, printed);
    capture.Flush();
    LogsAppend(WriteLines("", Concat(printed)), FlushLines(WriteBuffer("", Concat(printed))));
    var final := if outcome.Succeeded? then Result(outcome.profiles) else Error(outcome.message);
    queue := capture.queue + [final, Done];
  }

  /** Writing one more chunk continues the lines and the buffer of the chunks before it. */
  lemma WriteStep(printed: seq<string>, i: nat)
    requires i < |printed|
    ensures var text := Concat(printed[..i]);
      && Logs(WriteLines("", Concat(printed[..i + 1])))
        == Logs(WriteLines("", text)) + Logs(WriteLines(WriteBuffer("", text), printed[i]))
      && WriteBuffer("", Concat(printed[..i + 1])) == WriteBuffer(WriteBuffer("", text), printed[i])
  {
    var text := Concat(printed[..i]);
    assert printed[..i + 1] == printed[..i] + [printed[i]];
    ConcatSnoc(printed[..i], printed[i]);
    TwoWritesAreOne("", text, printed[i]);
    LogsAppend(WriteLines("", text), WriteLines(WriteBuffer("", text), printed[i]));
  }

  /** The pipeline's printing while stdout is the capture: each chunk is one `write`. */
  method PrintAll(capture: LogCapture, printed: seq<string>)
    requires capture.Valid() && capture.buffer == [] && capture.queue == []
    modifies capture
    ensures capture.Valid()
    ensures capture.queue == Logs(WriteLines("", Concat(printed)))
    ensures capture.buffer == WriteBuffer("", Concat(printed))
  {
    for i := 0 to |printed|
      invariant capture.Valid()
      invariant capture.queue == Logs(WriteLines("", Concat(printed[..i])))
      invariant capture.buffer == WriteBuffer("", Concat(printed[..i]))
    {
      WriteStep(printed, i);
      var _ := capture.Write(printed[i]);
    }
    assert printed[..|printed|] == printed;
  }

  // ---------------------------------------------------------------------------------------
  // The event stream

  /** The event type of a message's frame. */
  function Kind(m: Message): string {
    match m
    case Log(_) => "log"
    case Result(_) => "result"
    case Error(_) => "error"
    case Done => "done"
  }

  const MessageKey: string := "message"
  const ProfilesKey: string := "profiles"
  const ErrorKey: string := "error"
  const StatusKey: string := "status"
  const Complete: string := "complete"

  /** The JSON object a message's frame carries. */
  function Payload(m: Message): Json {
    match m
    case Log(line) => JObj([(MessageKey, JStr(line))])
    case Result(profiles) => JObj([(ProfilesKey, JArr(profiles))])
    case Error(message) => JObj([(ErrorKey, JStr(message))])
    case Done => JObj([(StatusKey, JStr(Complete))])
  }

  /** A frame: an "event" line, a "data" line, and the blank line that ends the event. */
  function FrameText(kind: string, data: string): string {
    "event: " + kind + "\ndata: " + data + "\n\n"
  }

  function Frame(m: Message): string {
    FrameText(Kind(m), Dumps(Payload(m)))
  }

  /** The frames of `ms`, in order. */
  function Frames(ms: seq<Message>): (r: seq<string>)
    ensures |r| == |ms|
  {
    if ms == [] then [] else [Frame(ms[0])] + Frames(ms[1..])
  }

  lemma {:induction false} FramesSnoc(ms: seq<Message>, m: Message)
    ensures Frames(ms + [m]) == Frames(ms) + [Frame(m)]
  {
    if ms != [] {
      assert (ms + [m])[1..] == ms[1..] + [m];
      FramesSnoc(ms[1..], m);
    }
  }

  /** The index of the first "done", or the length when there is none. */
  function DoneIndex(q: seq<Message>): (r: nat)
    ensures r <= |q| && forall k :: 0 <= k < r ==> q[k] != Done
    ensures r < |q| ==> q[r] == Done
  {
    if q == [] then 0
    else if q[0] == Done then 0
    else
      var r := DoneIndex(q[1..]);
      assert forall k :: 1 <= k < r + 1 ==> q[k] == q[1..][k - 1];
      1 + r
  }

  /** The messages the stream reads: up to and including the first "done". */
  function UpToDone(q: seq<Message>): (r: seq<Message>)
    ensures |r| <= |q| && r == q[..|r|]
    ensures Done in q ==> |r| == DoneIndex(q) + 1 && r[|r| - 1] == Done
  {
    if DoneIndex(q) < |q| then q[..DoneIndex(q) + 1] else q
  }

  /** The profiles of the last result among `ms`, or `previous` when there is none. */
  function LastResults(ms: seq<Message>, previous: seq<Json>): seq<Json>
    decreases |ms|
  {
    if ms == [] then previous
    else if ms[|ms| - 1].Result? then ms[|ms| - 1].profiles
    else LastResults(ms[..|ms| - 1], previous)
  }

  lemma LastResultsSnoc(ms: seq<Message>, m: Message, previous: seq<Json>)
    ensures LastResults(ms + [m], previous) == if m.Result? then m.profiles else LastResults(ms, previous)
  {
    assert (ms + [m])[..|ms|] == ms;
  }

  /** One more message read: one more frame, and the remembered profiles follow a result. */
  lemma StreamStep(queue: seq<Message>, i: nat, previous: seq<Json>)
    requires i < |queue|
    ensures Frames(queue[..i + 1]) == Frames(queue[..i]) + [Frame(queue[i])]
    ensures LastResults(queue[..i + 1], previous)
      == if queue[i].Result? then queue[i].profiles else LastResults(queue[..i], previous)
  {
    assert queue[..i + 1] == queue[..i] + [queue[i]];
    FramesSnoc(queue[..i], queue[i]);
    LastResultsSnoc(queue[..i], queue[i], previous);
  }

  /** The stream stops at the first "done". */
  lemma UpToDoneAt(queue: seq<Message>, i: nat)
    requires i < |queue| && queue[i].Done? && forall k :: 0 <= k < i ==> queue[k] != Done
    ensures UpToDone(queue) == queue[..i + 1]
  {
    DoneIndexIs(queue, i);
  }

  /** Without a "done", the stream reads every message. */
  lemma UpToDoneAll(queue: seq<Message>)
    requires forall k :: 0 <= k < |queue| ==> queue[k] != Done
    ensures UpToDone(queue) == queue
  {
  }

  /** A "done" with none before it is the first one. */
  lemma DoneIndexIs(q: seq<Message>, i: nat)
    requires i < |q| && q[i] == Done && forall k :: 0 <= k < i ==> q[k] != Done
    ensures DoneIndex(q) == i
  {
  }

  /** A run's messages are all read: its only "done" is its last message. */
  lemma {:induction false} RunIsReadToTheEnd(printed: seq<string>, outcome: Outcome)
    ensures UpToDone(RunMessages(printed, outcome)) == RunMessages(printed, outcome)
  {
    var q := RunMessages(printed, outcome);
    RunIsWellFormed(printed, outcome);
    assert Done !in q[..|q| - 1] by {
      forall k | 0 <= k < |q| - 1
        ensures q[k] != Done
      {
        if k < |q| - 2 {
          assert q[k].Log?;
        }
      }
    }
    assert DoneIndex(q) == |q| - 1;
  }

  /**
   * After the stream has read a run, the remembered profiles are the run's profiles when it
   * succeeded, and the previous ones when it failed.
   */
  lemma {:induction false} RunSetsLastResults(printed: seq<string>, outcome: Outcome, previous: seq<Json>)
    ensures LastResults(RunMessages(printed, outcome), previous)
      == (if outcome.Succeeded? then outcome.profiles else previous)
  {
    var q := RunMessages(printed, outcome);
    var logs := Logs(PrintedLines(printed));
    var final := if outcome.Succeeded? then Result(outcome.profiles) else Error(outcome.message);
    assert q == (logs + [final]) + [Done];
    assert q[..|q| - 1] == logs + [final];
    assert LastResults(q, previous) == LastResults(logs + [final], previous);
    if outcome.Failed? {
      assert (logs + [final])[..|logs|] == logs;
      assert LastResults(logs + [final], previous) == LastResults(logs, previous);
      LogsLeaveResults(PrintedLines(printed), previous);
    }
  }

  lemma {:induction false} LogsLeaveResults(lines: seq<string>, previous: seq<Json>)
    ensures LastResults(Logs(lines), previous) == previous
    decreases |lines|
  {
    if lines != [] {
      var init := lines[..|lines| - 1];
      assert lines == init + [lines[|lines| - 1]];
      LogsAppend(init, [lines[|lines| - 1]]);
      assert Logs(lines)[..|lines| - 1] == Logs(init);
      LogsLeaveResults(init, previous);
    }
  }

  // ---------------------------------------------------------------------------------------
  // What a client decodes

  /** The events a client should see for `ms`: each message's type and its JSON text. */
  function Expected(ms: seq<Message>): (r: seq<Event>)
    ensures |r| == |ms|
  {
    if ms == [] then [] else [EventOf(ms[0])] + Expected(ms[1..])
  }

  /** The event a message's frame should decode to: the message's type and its JSON text. */
  function EventOf(m: Message): Event {
    Event(Kind(m), Dumps(Payload(m)))
  }

  /** Every message's event can be framed: a non-empty word as type, printable JSON as data. */
  lemma EventOfFramable(m: Message)
    ensures EventOf(m).kind != [] && '\n' !in EventOf(m).kind && '\n' !in EventOf(m).data
  {
    var data := Dumps(Payload(m));
    assert Printable(data);
    PrintableHasNoBreak(data);
    KindFramable(m);
  }

  lemma KindFramable(m: Message)
    ensures Kind(m) != [] && '\n' !in Kind(m)
  {
    match m
    case Log(_) => assert Kind(m) == "log";
    case Result(_) => assert Kind(m) == "result";
    case Error(_) => assert Kind(m) == "error";
    case Done => assert Kind(m) == "done";
  }

  /** A field line `name: value` is read back as `(name, value)`. */
  lemma FieldOfLine(name: string, value: string)
    requires ':' !in name
    ensures Field(name + ": " + value) == (name, value)
  {
    var s := name + ": " + value;
    assert s[|name|] == ':';
    assert s[..|name|] == name;
    var i := IndexOf(s, ':');
    assert s[i + 1..] == " " + value;
  }

  /** A frame is three lines: the event line, the data line, and a blank line. */
  lemma FrameLines(kind: string, data: string, rest: string)
    requires '\n' !in kind && '\n' !in data
    ensures CompleteLines(FrameText(kind, data) + rest)
      == ["event: " + kind, "data: " + data, ""] + CompleteLines(rest)
  {
    var l1 := "event: " + kind;
    var l2 := "data: " + data;
    assert '\n' !in l1 && '\n' !in l2;
    var tail := "" + "\n" + rest;
    assert FrameText(kind, data) + rest == l1 + "\n" + (l2 + "\n" + tail);
    CompleteLinesCons("", rest);
    CompleteLinesCons(l2, tail);
    CompleteLinesCons(l1, l2 + "\n" + tail);
  }

  lemma EventLine(d: Decoder, kind: string)
    ensures ProcessLine(d, "event: " + kind) == d.(eventType := kind)
  {
    FieldOfLine("event", kind);
    assert "event: " + kind == "event" + ": " + kind;
  }

  lemma DataLine(d: Decoder, data: string)
    ensures ProcessLine(d, "data: " + data) == d.(data := d.data + data + "\n")
  {
    FieldOfLine("data", data);
    assert "data: " + data == "data" + ": " + data;
  }

  lemma BlankLine(kind: string, data: string, events: seq<Event>)
    requires kind != []
    ensures ProcessLine(Decoder(kind, data + "\n", events), "") == Decoder([], [], events + [Event(kind, data)])
  {
    assert (data + "\n")[..|data|] == data;
  }

  /** The three lines of a frame dispatch exactly its event and leave the buffers empty. */
  lemma FrameDecodes(kind: string, data: string, events: seq<Event>, rest: string)
    requires kind != [] && '\n' !in kind && '\n' !in data
    ensures ProcessLines(Decoder([], [], events), CompleteLines(FrameText(kind, data) + rest))
      == ProcessLines(Decoder([], [], events + [Event(kind, data)]), CompleteLines(rest))
  {
    var more := CompleteLines(rest);
    FrameLines(kind, data, rest);
    assert ["event: " + kind, "data: " + data, ""] + more
      == ["event: " + kind] + (["data: " + data] + ([""] + more));
    AfterEventLine(events, kind, ["data: " + data] + ([""] + more));
    AfterDataLine(kind, data, events, [""] + more);
    AfterBlankLine(kind, data, events, more);
  }

  lemma AfterEventLine(events: seq<Event>, kind: string, more: seq<string>)
    ensures ProcessLines(Decoder([], [], events), ["event: " + kind] + more)
      == ProcessLines(Decoder(kind, [], events), more)
  {
    ProcessLinesCons(Decoder([], [], events), "event: " + kind, more);
    EventLine(Decoder([], [], events), kind);
  }

  lemma AfterDataLine(kind: string, data: string, events: seq<Event>, more: seq<string>)
    ensures ProcessLines(Decoder(kind, [], events), ["data: " + data] + more)
      == ProcessLines(Decoder(kind, data + "\n", events), more)
  {
    ProcessLinesCons(Decoder(kind, [], events), "data: " + data, more);
    DataLine(Decoder(kind, [], events), data);
    assert [] + data + "\n" == data + "\n";
  }

  lemma AfterBlankLine(kind: string, data: string, events: seq<Event>, more: seq<string>)
    requires kind != []
    ensures ProcessLines(Decoder(kind, data + "\n", events), [""] + more)
      == ProcessLines(Decoder([], [], events + [Event(kind, data)]), more)
  {
    ProcessLinesCons(Decoder(kind, data + "\n", events), "", more);
    BlankLine(kind, data, events);
  }

  /** The frames of a sequence of events, written one after the other. */
  function FrameStream(evs: seq<Event>): string {
    if evs == [] then "" else FrameText(evs[0].kind, evs[0].data) + FrameStream(evs[1..])
  }

  /** Events a frame can carry: a non-empty type, and no line feed in the type or the data. */
  predicate Framable(evs: seq<Event>) {
    forall k :: 0 <= k < |evs| ==> evs[k].kind != [] && '\n' !in evs[k].kind && '\n' !in evs[k].data
  }

  lemma {:induction false} FrameStreamDecodes(evs: seq<Event>, events: seq<Event>)
    requires Framable(evs)
    ensures ProcessLines(Decoder([], [], events), CompleteLines(FrameStream(evs)))
      == Decoder([], [], events + evs)
  {
    if evs == [] {
      assert events + [] == events;
    } else {
      var e := evs[0];
      FrameDecodes(e.kind, e.data, events, FrameStream(evs[1..]));
      assert Framable(evs[1..]) by {
        forall k | 0 <= k < |evs| - 1
          ensures evs[1..][k] == evs[k + 1]
        {
        }
      }
      FrameStreamDecodes(evs[1..], events + [e]);
      assert evs == [e] + evs[1..];
      AppendAssoc(events, [e], evs[1..]);
    }
  }

  /** The server's frames are the frames of the expected events. */
  lemma {:induction false} FramesAreFrameStream(ms: seq<Message>)
    ensures Concat(Frames(ms)) == FrameStream(Expected(ms))
  {
    if ms != [] {
      FramesAreFrameStream(ms[1..]);
      assert Frames(ms)[1..] == Frames(ms[1..]);
      assert Expected(ms)[1..] == Expected(ms[1..]);
    }
  }

  /** Every message's event can be framed: its type is a non-empty word and its JSON text is printable. */
  lemma {:induction false} ExpectedFramable(ms: seq<Message>)
    ensures Framable(Expected(ms))
  {
    if ms != [] {
      EventOfFramable(ms[0]);
      ExpectedFramable(ms[1..]);
      forall k | 1 <= k < |ms|
        ensures Expected(ms)[k] == Expected(ms[1..])[k - 1]
      {
      }
    }
  }

  /**
   * The stream round-trips: a client decoding the frames of `ms` with the standard's
   * event-stream algorithm receives, in order, one event per message, carrying the message's
   * type and the JSON text of its payload.
   */
  lemma StreamRoundTrip(ms: seq<Message>)
    ensures Decode(Concat(Frames(ms))) == Expected(ms)
  {
    FramesAreFrameStream(ms);
    ExpectedFramable(ms);
    FrameStreamDecodes(Expected(ms), []);
    assert [] + Expected(ms) == Expected(ms);
  }

  /** The first query of a scan request, or "design" when there is none. */
  function ScanKeyword(queries: seq<string>): (r: string)
    ensures queries != [] ==> r == queries[0]
    ensures queries == [] ==> r == "design"
  {
    if queries != [] then queries[0] else "design"
  }

  // ---------------------------------------------------------------------------------------
  // The export endpoint

  /** What `/api/export` answers. `Failed500` stands for a profile whose shape makes a row raise. */
  datatype Export =
    | NotFound
    | CsvTable(rows: seq<seq<Json>>)
    | JsonList(items: seq<Json>)
    | Failed500

  const ExportHeader: seq<string> :=
    ["Username", "Name", "Location", "Followers", "Score", "Decision", "Skills", "Profile URL"]

  function HeaderRow(): (r: seq<Json>)
    ensures |r| == |ExportHeader|
  {
    seq(|ExportHeader|, k requires 0 <= k < |ExportHeader| => JStr(ExportHeader[k]))
  }

  /**
   * `", ".join(value)`: the strings of a list, the characters of a string, the keys of a dict;
   * `None` for anything else and for a list holding a non-string (the join raises).
   */
  function SkillsCell(value: Json): (r: Option<string>)
    ensures value.JArr? ==> (r.Some? <==> forall k :: 0 <= k < |value.items| ==> value.items[k].JStr?)
    ensures r.Some? ==> value.JArr? || value.JStr? || value.JObj?
  {
    match value
    case JArr(items) =>
      (match Strings(items)
       case None => None
       case Some(parts) => Some(Join(parts, ", ")))
    case JStr(s) => Some(Join(seq(|s|, k requires 0 <= k < |s| => [s[k]]), ", "))
    case JObj(ms) => Some(Join(seq(|ms|, k requires 0 <= k < |ms| => ms[k].0), ", "))
    case _ => None
  }

  /**
   * The CSV row of one profile, from its "original_data", its "final_analysis" and that
   * analysis's "recommendation" (each `{}` when missing). `None` when the profile or one of
   * those three is not a dict, or the skills cannot be joined.
   */
  function ExportRow(p: Json): (r: Option<seq<Json>>)
    ensures r.Some? ==> p.JObj? && |r.value| == |ExportHeader|
  {
    if !p.JObj? then None
    else
      var od := Get(p, "original_data", JObj([])).value;
      var fa := Get(p, "final_analysis", JObj([])).value;
      if !od.JObj? || !fa.JObj? then None
      else
        var rec := Get(fa, "recommendation", JObj([])).value;
        if !rec.JObj? then None
        else
          match SkillsCell(Get(od, "specializations", JArr([])).value)
          case None => None
          case Some(skills) =>
            Some([
              Get(od, "username", JStr("")).value,
              Get(od, "name", JStr("")).value,
              Get(od, "location", JStr("")).value,
              Get(od, "followers_count", JStr("")).value,
              Get(fa, "overall_score", JStr("")).value,
              Get(rec, "decision", JStr("")).value,
              JStr(skills),
              Get(od, "profile_url", JStr("")).value])
  }

  /**
   * A row raises exactly when the profile, its "original_data", its "final_analysis" or that
   * analysis's "recommendation" is not a dict, or the skills cannot be joined; otherwise the
   * username comes first and the score fifth, as in the header.
   */
  lemma ExportRowRaises(p: Json)
    ensures ExportRow(p).Some? <==>
      && p.JObj?
      && Get(p, "original_data", JObj([])).value.JObj?
      && Get(p, "final_analysis", JObj([])).value.JObj?
      && Get(Get(p, "final_analysis", JObj([])).value, "recommendation", JObj([])).value.JObj?
      && SkillsCell(Get(Get(p, "original_data", JObj([])).value, "specializations", JArr([])).value).Some?
    ensures ExportRow(p).Some? ==>
      && ExportRow(p).value[0] == Get(Get(p, "original_data", JObj([])).value, "username", JStr("")).value
      && ExportRow(p).value[4] == Get(Get(p, "final_analysis", JObj([])).value, "overall_score", JStr("")).value
      && ExportRow(p).value[6].JStr?
  {
  }

  /** `rows` is the header followed by the rows of the first `n` profiles, none of which raised. */
  ghost predicate RowsUpTo(rows: seq<seq<Json>>, ps: seq<Json>, n: nat)
    requires n <= |ps|
  {
    && |rows| == n + 1 && rows[0] == HeaderRow()
    && forall k :: 0 <= k < n ==> ExportRow(ps[k]).Some? && rows[k + 1] == ExportRow(ps[k]).value
  }

  lemma RowsStep(rows: seq<seq<Json>>, ps: seq<Json>, n: nat)
    requires n < |ps| && RowsUpTo(rows, ps, n) && ExportRow(ps[n]).Some?
    ensures RowsUpTo(rows + [ExportRow(ps[n]).value], ps, n + 1)
  {
  }

  /** The process-wide server state: the profiles of the last completed scan. */
  class ScanServer {
    var lastResults: seq<Json>

    constructor()
      ensures lastResults == []
    {
      lastResults := [];
    }

    /**
     * `event_stream()`: each message is written as its frame, up to and including the first
     * "done"; each result replaces the remembered profiles.
     */
    method StreamEvents(queue: seq<Message>) returns (frames: seq<string>)
      modifies this
      ensures frames == Frames(UpToDone(queue))
      ensures lastResults == LastResults(UpToDone(queue), old(lastResults))
    {
      frames := [];
      var i := 0;
      while i < |queue|
        invariant 0 <= i <= |queue|
        invariant forall k :: 0 <= k < i ==> queue[k] != Done
        invariant frames == Frames(queue[..i])
        invariant lastResults == LastResults(queue[..i], old(lastResults))
      {
        StreamStep(queue, i, old(lastResults));
        var m := queue[i];
        frames := frames + [Frame(m)];
        if m.Result? {
          lastResults := m.profiles;
        }
        if m.Done? {
          UpToDoneAt(queue, i);
          return;
        }
        i := i + 1;
      }
      UpToDoneAll(queue);
    }

    /**
     * `export_results(format)`: 404 with no results; for "csv" the header and one row per
     * profile; for any other format the profiles themselves.
     */
    method ExportResults(format: string) returns (r: Export)
      ensures lastResults == [] ==> r == NotFound
      ensures lastResults != [] && format != "csv" ==> r == JsonList(lastResults)
      ensures lastResults != [] && format == "csv" ==>
        (r == Failed500 <==> exists k :: 0 <= k < |lastResults| && ExportRow(lastResults[k]).None?)
      ensures lastResults != [] && format == "csv" && r != Failed500 ==> r.CsvTable?
      ensures r.CsvTable? ==>
        && |r.rows| == |lastResults| + 1
        && r.rows[0] == HeaderRow()
        && forall k :: 0 <= k < |lastResults| ==> r.rows[k + 1] == ExportRow(lastResults[k]).value
    {
      if lastResults == [] {
        return NotFound;
      }
      if format != "csv" {
        return JsonList(lastResults);
      }
      var rows := [HeaderRow()];
      for i := 0 to |lastResults|
        invariant RowsUpTo(rows, lastResults, i)
      {
        var row := ExportRow(lastResults[i]);
        if row.None? {
          return Failed500;
        }
        RowsStep(rows, lastResults, i);
        rows := rows + [row.value];
      }
      return CsvTable(rows);
    }
  }
}
