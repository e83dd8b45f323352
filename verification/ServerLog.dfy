/** The server log: producers, the worker thread, the bounded buffer and its readers. */
module ServerLog {
  const LOG_BUFFER_MAX := 500

  datatype LogEntry = LogEntry(timestamp: int, level: int, message: string)

  // ----- what a reader sees -----

  predicate Contains(message: string, text: string) {
    text <= message || (message != [] && Contains(message[1..], text))
  }

  predicate Wanted(e: LogEntry, minLevel: int, text: string) {
    e.level >= minLevel && (text == "" || Contains(e.message, text))
  }

  function Filter(s: seq<LogEntry>, minLevel: int, text: string): seq<LogEntry> {
    if s == [] then []
    else (if Wanted(s[0], minLevel, text) then [s[0]] else []) + Filter(s[1..], minLevel, text)
  }

  lemma PartIsShorter(message: string, text: string)
    ensures (exists before, after :: message == before + text + after) ==> |text| <= |message|
  {
  }

  /** The text filter: the message has the text somewhere in it. */
  lemma {:induction false} ContainsIff(message: string, text: string)
    ensures Contains(message, text) <==> exists before, after :: message == before + text + after
    decreases |message|
  {
    if text <= message {
      assert message == "" + text + message[|text|..];
    } else if message != "" {
      ContainsIff(message[1..], text);
      if Contains(message, text) {
        var before, after :| message[1..] == before + text + after;
        assert message == ([message[0]] + before) + text + after;
      }
      forall before, after | message == before + text + after ensures Contains(message[1..], text) {
        assert before == [] ==> text <= message;
        assert message[1..] == before[1..] + text + after;
      }
    } else {
      PartIsShorter(message, text);
    }
  }

  /** Filtering keeps exactly the entries of at least that level that have the text in their message, each as
      often as it was there; their order is the one they had (`FilterAppend`). */
  lemma {:induction false} FilterExact(s: seq<LogEntry>, minLevel: int, text: string, e: LogEntry)
    ensures multiset(Filter(s, minLevel, text))[e]
         == if e.level >= minLevel && exists before, after :: e.message == before + text + after then multiset(s)[e] else 0
    decreases |s|
  {
    ContainsIff(e.message, text);
    if text == "" { assert e.message == "" + text + e.message; }
    if s != [] {
      FilterExact(s[1..], minLevel, text, e);
      FilterHead(s, minLevel, text);
      assert s == [s[0]] + s[1..];
    }
  }

  function Last<T>(s: seq<T>, n: nat): seq<T> {
    if |s| <= n then s else s[|s| - n..]
  }

  lemma FilterHead(s: seq<LogEntry>, minLevel: int, text: string)
    requires s != []
    ensures Filter(s, minLevel, text) == (if Wanted(s[0], minLevel, text) then [s[0]] else []) + Filter(s[1..], minLevel, text)
  {
  }

  lemma {:induction false} FilterAppend(a: seq<LogEntry>, b: seq<LogEntry>, minLevel: int, text: string)
    ensures Filter(a + b, minLevel, text) == Filter(a, minLevel, text) + Filter(b, minLevel, text)
    decreases |a|
  {
    if a == [] {
      assert a + b == b;
    } else {
      assert (a + b)[1..] == a[1..] + b && (a + b)[0] == a[0];
      FilterAppend(a[1..], b, minLevel, text);
      FilterHead(a, minLevel, text);
      FilterHead(a + b, minLevel, text);
    }
  }

  lemma LastAppend<T>(s: seq<T>, x: T, n: nat)
    ensures Last(s + [x], n) == Last(Last(s, n) + [x], n)
  {
  }

  lemma LastOfFront<T>(a: seq<T>, b: seq<T>, n: nat)
    requires |b| == n || (a == [] && |b| <= n)
    ensures Last(a + b, n) == b
  {
  }

  // ----- the shared state and its steps -----

  /** Where the worker stands: at the outer test, waiting, in the inner loop, storing an entry it has
      already popped, or finished. */
  datatype Pc = AtTest | Waiting | Draining | Storing(entry: LogEntry) | Done

  datatype LogState = LogState(queue: seq<LogEntry>, buffer: seq<LogEntry>, file: seq<LogEntry>, pc: Pc, running: bool,
                     logged: seq<LogEntry>, drained: seq<LogEntry>)

  datatype Step = Enqueue(entry: LogEntry) | Work | Stop

  /** push_back, then pop_front if there are more than 500. */
  function Pushed(buffer: seq<LogEntry>, e: LogEntry): seq<LogEntry> {
    if |buffer| < LOG_BUFFER_MAX then buffer + [e] else (buffer + [e])[1..]
  }

  function Stored(l: LogState, e: LogEntry, fileLevel: int): LogState {
    l.(buffer := Pushed(l.buffer, e), drained := l.drained + [e],
       file := if e.level >= fileLevel then l.file + [e] else l.file, pc := Draining)
  }

  /** One step of a producer, of the worker, or of the stopping thread. */
  function Apply(l: LogState, st: Step, fileLevel: int): LogState {
    match st
    case Enqueue(e) => l.(queue := l.queue + [e], logged := l.logged + [e])
    case Stop => l.(running := false)
    case Work =>
      match l.pc
      case AtTest => l.(pc := if l.running then Waiting else Done)
      case Waiting => if l.queue != [] || !l.running then l.(pc := Draining) else l
      case Draining => if l.queue == [] then l.(pc := AtTest) else l.(queue := l.queue[1..], pc := Storing(l.queue[0]))
      case Storing(e) => Stored(l, e, fileLevel)
      case Done => l
  }

  function Start(): LogState {
    LogState([], [], [], AtTest, true, [], [])
  }

  function Run(l: LogState, steps: seq<Step>, fileLevel: int): LogState
    decreases |steps|
  {
    if steps == [] then l else Run(Apply(l, steps[0], fileLevel), steps[1..], fileLevel)
  }

  function Held(pc: Pc): seq<LogEntry> {
    if pc.Storing? then [pc.entry] else []
  }

  /** Nothing is lost, doubled or reordered between the producers and the buffer. */
  ghost predicate Inv(l: LogState, fileLevel: int) {
    && l.logged == l.drained + (Held(l.pc) + l.queue)
    && l.buffer == Last(l.drained, LOG_BUFFER_MAX)
    && l.file == Filter(l.drained, fileLevel, "")
  }

  lemma StepInv(l: LogState, st: Step, fileLevel: int)
    requires Inv(l, fileLevel)
    ensures Inv(Apply(l, st, fileLevel), fileLevel)
  {
    var l1 := Apply(l, st, fileLevel);
    match st
    case Enqueue(e) =>
      assert Held(l.pc) + (l.queue + [e]) == Held(l.pc) + l.queue + [e];
      assert l1.logged == l.drained + (Held(l.pc) + l.queue + [e]);
    case Work =>
      if l.pc.Storing? {
        StoreInv(l, fileLevel);
      } else if l.pc.Draining? && l.queue != [] {
        assert Held(l1.pc) + l1.queue == l.queue == Held(l.pc) + l.queue;
      }
    case Stop =>
  }

  lemma StoreInv(l: LogState, fileLevel: int)
    requires Inv(l, fileLevel) && l.pc.Storing?
    ensures Inv(Stored(l, l.pc.entry, fileLevel), fileLevel)
  {
    var e, l1 := l.pc.entry, Stored(l, l.pc.entry, fileLevel);
    LastAppend(l.drained, e, LOG_BUFFER_MAX);
    FilterAppend(l.drained, [e], fileLevel, "");
    assert l.drained + ([e] + l.queue) == l.drained + [e] + l.queue;
    assert Held(l1.pc) + l1.queue == l.queue;
  }

  /** Over every interleaving of producers, worker and stop: what was stored, then what the worker
      holds, then what is queued is the order in which entries were logged; the buffer is the last
      500 stored entries and the file every stored entry of its level. */
  lemma {:induction false} RunsKeepHistory(l: LogState, steps: seq<Step>, fileLevel: int)
    requires Inv(l, fileLevel)
    ensures Inv(Run(l, steps, fileLevel), fileLevel)
    decreases |steps|
  {
    if steps != [] {
      StepInv(l, steps[0], fileLevel);
      RunsKeepHistory(Apply(l, steps[0], fileLevel), steps[1..], fileLevel);
    }
  }

  // ----- the worker gets there -----

  /** How many steps of the worker alone store everything that is queued. */
  function WorkLeft(l: LogState): nat {
    match l.pc
    case AtTest => 2 * |l.queue| + 2
    case Waiting => 2 * |l.queue| + 1
    case Draining => 2 * |l.queue|
    case Storing(_) => 2 * |l.queue| + 1
    case Done => 0
  }

  /** A running worker left alone stores everything that was logged, in order. */
  lemma {:induction false} WorkerDrains(l: LogState, fileLevel: int)
    requires Inv(l, fileLevel) && l.running && !l.pc.Done? && l.queue + Held(l.pc) != []
    ensures var l1 := Run(l, seq(WorkLeft(l), _ => Work), fileLevel); l1.drained == l.logged && l1.logged == l.logged
    decreases WorkLeft(l)
  {
    var steps, l1 := seq(WorkLeft(l), _ => Work), Apply(l, Work, fileLevel);
    StepInv(l, Work, fileLevel);
    assert steps[0] == Work && steps[1..] == seq(WorkLeft(l) - 1, _ => Work);
    assert WorkLeft(l1) == WorkLeft(l) - 1 && l1.logged == l.logged;
    if l1.queue + Held(l1.pc) != [] {
      WorkerDrains(l1, fileLevel);
    } else {
      assert l1.pc == Draining && steps[1..] == [];
      assert l1.drained + (Held(l1.pc) + l1.queue) == l1.drained;
    }
  }

  // ----- stopping -----

  predicate MustDrain(pc: Pc) {
    pc.Waiting? || pc.Draining? || pc.Storing?
  }

  /** After a stop: everything logged before it is stored, or the worker still has to empty the queue. */
  ghost predicate DrainsFirst(l: LogState, n: nat) {
    |l.drained| >= n || MustDrain(l.pc)
  }

  lemma {:induction false} StopDrains(l: LogState, steps: seq<Step>, n: nat, fileLevel: int)
    requires Inv(l, fileLevel) && DrainsFirst(l, n) && n <= |l.logged|
    ensures DrainsFirst(Run(l, steps, fileLevel), n)
    decreases |steps|
  {
    if steps != [] {
      StepInv(l, steps[0], fileLevel);
      StopDrains(Apply(l, steps[0], fileLevel), steps[1..], n, fileLevel);
    }
  }

  lemma {:induction false} StoppedAtTest(l: LogState, steps: seq<Step>, fileLevel: int)
    requires !l.running && (l.pc.AtTest? || l.pc.Done?)
    ensures Run(l, steps, fileLevel).drained == l.drained
    decreases |steps|
  {
    if steps != [] {
      StoppedAtTest(Apply(l, steps[0], fileLevel), steps[1..], fileLevel);
    }
  }

  /** When the worker has finished after a stop, everything logged before the stop was stored exactly
      if the stop did not meet a worker at its outer test with entries still queued. */
  lemma StopKeepsIff(l: LogState, steps: seq<Step>, fileLevel: int)
    requires Inv(l, fileLevel) && Run(Apply(l, Stop, fileLevel), steps, fileLevel).pc == Done
    ensures l.logged <= Run(Apply(l, Stop, fileLevel), steps, fileLevel).drained <==> MustDrain(l.pc) || l.queue == []
  {
    var l1 := Apply(l, Stop, fileLevel);
    var l2 := Run(l1, steps, fileLevel);
    StepInv(l, Stop, fileLevel);
    RunsKeepHistory(l1, steps, fileLevel);
    LoggedGrows(l1, steps, fileLevel);
    if MustDrain(l.pc) {
      StopDrains(l1, steps, |l.logged|, fileLevel);
    } else {
      StoppedAtTest(l1, steps, fileLevel);
      assert Held(l.pc) + l.queue == l.queue;
    }
  }

  /** It does happen: an entry logged before the worker's first test, and a stop before it too. */
  lemma StopLoses(e: LogEntry, fileLevel: int)
    ensures var l := Run(Start(), [Enqueue(e), Stop, Work], fileLevel);
      l.pc == Done && l.logged == [e] && l.drained == []
  {
    var l := Apply(Start(), Enqueue(e), fileLevel);
    assert [Enqueue(e), Stop, Work][1..] == [Stop, Work] && [Stop, Work][1..] == [Work];
    assert Run(Apply(l, Stop, fileLevel), [Work], fileLevel).pc == Done;
  }

  lemma {:induction false} LoggedGrows(l: LogState, steps: seq<Step>, fileLevel: int)
    ensures l.logged <= Run(l, steps, fileLevel).logged
    decreases |steps|
  {
    if steps != [] {
      LoggedGrows(Apply(l, steps[0], fileLevel), steps[1..], fileLevel);
    }
  }

  // ----- the log object -----

  function Reversed(s: seq<LogEntry>): (r: seq<LogEntry>)
    ensures |r| == |s|
  {
    if s == [] then [] else Reversed(s[1..]) + [s[0]]
  }

  lemma {:induction false} ReversedAppend(s: seq<LogEntry>, e: LogEntry)
    ensures Reversed(s + [e]) == [e] + Reversed(s)
    decreases |s|
  {
    if s == [] {
      assert [e][1..] == [];
    } else {
      assert (s + [e])[1..] == s[1..] + [e];
      ReversedAppend(s[1..], e);
      assert [e] + Reversed(s[1..]) + [s[0]] == [e] + (Reversed(s[1..]) + [s[0]]);
    }
  }

  class Logger {
    const fileLevel: int
    var log_queue: seq<LogEntry>
    var log_buffer: seq<LogEntry>
    var log_file: seq<LogEntry>
    var worker: Pc
    var log_thread_running: bool
    ghost var logged: seq<LogEntry>
    ghost var drained: seq<LogEntry>

    ghost function Value(): LogState
      reads this
    {
      LogState(log_queue, log_buffer, log_file, worker, log_thread_running, logged, drained)
    }

    constructor (fileLevel: int)
      ensures Value() == Start() && this.fileLevel == fileLevel && Inv(Value(), fileLevel)
    {
      this.fileLevel := fileLevel;
      log_queue, log_buffer, log_file, logged, drained := [], [], [], [], [];
      worker, log_thread_running := AtTest, true;
    }

    method Log(timestamp: int, level: int, msg: string)
      modifies this
      ensures Value() == Apply(old(Value()), Enqueue(LogEntry(timestamp, level, msg)), fileLevel)
    {
      var entry := LogEntry(timestamp, level, msg);
      log_queue := log_queue + [entry];
      logged := logged + [entry];
    }

    /** The worker up to its next release of a lock. */
    method LogWorkerStep()
      modifies this
      ensures Value() == Apply(old(Value()), Work, fileLevel)
    {
      match worker
      case AtTest =>
        worker := if log_thread_running then Waiting else Done;
      case Waiting =>
        if log_queue != [] || !log_thread_running { worker := Draining; }
      case Draining =>
        if log_queue == [] {
          worker := AtTest;
        } else {
          log_queue, worker := log_queue[1..], Storing(log_queue[0]);
        }
      case Storing(entry) =>
        Store(entry);
        worker := Draining;
      case Done =>
    }

    method Store(entry: LogEntry)
      modifies this`log_buffer, this`log_file, this`drained
      ensures log_buffer == Pushed(old(log_buffer), entry)
      ensures drained == old(drained) + [entry]
      ensures log_file == if entry.level >= fileLevel then old(log_file) + [entry] else old(log_file)
    {
      log_buffer := log_buffer + [entry];
      if |log_buffer| > LOG_BUFFER_MAX { log_buffer := log_buffer[1..]; }
      if entry.level >= fileLevel { log_file := log_file + [entry]; }
      drained := drained + [entry];
    }

    method StopLogThread()
      modifies this`log_thread_running
      ensures Value() == Apply(old(Value()), Stop, fileLevel)
    {
      log_thread_running := false;
    }

    /** Newest first until there are enough, then turned around: the last `max_count` entries of the
        filtered buffer, in the order in which they were logged. */
    method GetRecentLogs(max_count: nat, min_level: int, text_filter: string) returns (result: seq<LogEntry>)
      requires Inv(Value(), fileLevel)
      ensures result == Last(Filter(Last(drained, LOG_BUFFER_MAX), min_level, text_filter), max_count)
    {
      var found: seq<LogEntry> := [];
      var i := |log_buffer|;
      while i > 0 && |found| < max_count
        invariant 0 <= i <= |log_buffer| && |found| <= max_count
        invariant Reversed(found) == Filter(log_buffer[i..], min_level, text_filter)
      {
        i := i - 1;
        assert log_buffer[i..][0] == log_buffer[i] && log_buffer[i..][1..] == log_buffer[i + 1..];
        if Wanted(log_buffer[i], min_level, text_filter) {
          ReversedAppend(found, log_buffer[i]);
          found := found + [log_buffer[i]];
        }
      }
      assert log_buffer == log_buffer[..i] + log_buffer[i..];
      FilterAppend(log_buffer[..i], log_buffer[i..], min_level, text_filter);
      LastOfFront(Filter(log_buffer[..i], min_level, text_filter), Reversed(found), max_count);
      result := Reverse(found);
    }

    method Reverse(s: seq<LogEntry>) returns (r: seq<LogEntry>)
      ensures r == Reversed(s)
    {
      r := [];
      assert s[..0] == [];
      for i := 0 to |s|
        invariant r == Reversed(s[..i])
      {
        assert s[..i + 1] == s[..i] + [s[i]];
        ReversedAppend(s[..i], s[i]);
        r := [s[i]] + r;
      }
      assert s[..|s|] == s;
    }
  }
}
