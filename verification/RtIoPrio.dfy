/** The real-time I/O priority helper: decimal conversion of the thread id and the
handling of the control group's descriptor. */
module RtIoPrio {
  import opened Options

  type int32 = n: int | -0x8000_0000 <= n < 0x8000_0000

  // ---------- Decimal numerals ----------

  function Digit(d: nat): char
    requires d < 10
  {
    '0' + (d as char)
  }

  function Value(c: char): int { c as int - '0' as int }

  predicate IsDigit(c: char) { '0' <= c <= '9' }

  /** The numeral of a positive number, nothing for other numbers. */
  function Decimal(n: int): (s: string)
    ensures s == "" <==> n <= 0
    decreases n
  {
    if n <= 0 then "" else Decimal(n / 10) + [Digit(n % 10)]
  }

  function Parse(s: string): int {
    if s == "" then 0 else Parse(s[..|s| - 1]) * 10 + Value(s[|s| - 1])
  }

  /** Decimal digits without a leading zero. */
  predicate IsNumeral(s: string) {
    (forall i | 0 <= i < |s| :: IsDigit(s[i])) && (s != "" ==> s[0] != '0')
  }

  lemma {:induction false} DecimalParses(n: nat)
    ensures Parse(Decimal(n)) == n && IsNumeral(Decimal(n))
    decreases n
  {
    if n > 0 {
      DecimalParses(n / 10);
      var s := Decimal(n);
      assert s[..|s| - 1] == Decimal(n / 10);
    }
  }

  lemma {:induction false} ParsePositive(s: string)
    requires IsNumeral(s)
    ensures Parse(s) >= 0 && (s != "" ==> Parse(s) > 0)
  {
    if s != "" {
      var t := s[..|s| - 1];
      if t != "" { assert t[0] == s[0]; }
      ParsePositive(t);
    }
  }

  lemma DecimalOfAppended(n: nat, c: char)
    requires IsDigit(c) && n * 10 + Value(c) > 0
    ensures Decimal(n * 10 + Value(c)) == Decimal(n) + [c]
  {
    var v := n * 10 + Value(c);
    assert v / 10 == n && v % 10 == Value(c);
  }

  lemma NothingParsed()
    ensures Decimal(Parse("")) == ""
  {
  }

  lemma ParseAppended(s: string)
    requires s != ""
    ensures Parse(s) == Parse(s[..|s| - 1]) * 10 + Value(s[|s| - 1])
  {
  }

  /** A numeral is determined by its value. */
  lemma {:induction false} NumeralUnique(s: string)
    requires IsNumeral(s)
    ensures Decimal(Parse(s)) == s
    decreases |s|
  {
    hide Parse, Decimal, Value;
    if s == "" {
      NothingParsed();
    } else {
      var t := s[..|s| - 1];
      if t != "" { assert t[0] == s[0]; }
      NumeralUnique(t);
      ParsePositive(t);
      ParsePositive(s);
      ParseAppended(s);
      DecimalOfAppended(Parse(t), s[|s| - 1]);
      assert s == t + [s[|s| - 1]];
    }
  }

  function Pow10(k: nat): nat { if k == 0 then 1 else 10 * Pow10(k - 1) }

  lemma {:induction false} DecimalLength(n: int, k: nat)
    requires n < Pow10(k)
    ensures |Decimal(n)| <= k
    decreases k
  {
    if n > 0 { DecimalLength(n / 10, k - 1); }
  }

  lemma Int32Length(n: int32)
    ensures |Decimal(n)| <= 10
  {
    assert Pow10(5) == 100000 by { assert Pow10(2) == 100 && Pow10(4) == 10000; }
    assert Pow10(7) == 10000000;
    assert Pow10(9) == 1000000000;
    assert Pow10(10) == 10000000000;
    DecimalLength(n, 10);
  }

  // ---------- The world outside ----------

  datatype Path = Tasks | RtDisplayTasks

  datatype Event = Open(path: Path, fd: int) | Write(fd: int, text: string) | Close(fd: int)

  /** The outcomes of the system calls during one call. */
  datatype World = World(tasksWritable: bool, rtTasksWritable: bool, openResult: int,
                         writeResult: int, errnoIsEsrch: bool, gettid: Option<int32>)

  // ---------- Specification of one call ----------

  function Probe(w: World): int { if w.tasksWritable || w.rtTasksWritable then 1 else 0 }

  /** `gettid` is consulted only where the platform has it. */
  function ThreadId(tid: int32, w: World): int32 {
    if w.gettid.Some? && tid == 0 then w.gettid.value else tid
  }

  function Events(supported: int, tid: int32, rt: bool, w: World): seq<Event> {
    if supported != 1 then []
    else
      var start := Open(if rt then RtDisplayTasks else Tasks, w.openResult);
      if w.openResult < 0 then [start]
      else [start, Write(w.openResult, Decimal(ThreadId(tid, w))), Close(w.openResult)]
  }

  function Result(supported: int, w: World): int {
    if supported != 1 || w.openResult < 0 then -1
    else if w.writeResult < 0 && w.errnoIsEsrch then 0
    else w.writeResult
  }

  class RtIoPrio {
    var supported: int    // __rtio_cgroup_supported
    var initialized: bool // state of the pthread_once control
    ghost var log: seq<Event>

    constructor ()
      ensures supported == -1 && !initialized && log == []
    {
      supported, initialized, log := -1, false, [];
    }

    /** `pthread_once(&__rtio_init_once, __initialize_rtio)`. */
    method InitializeOnce(w: World)
      modifies this`supported, this`initialized
      ensures initialized
      ensures supported == if old(initialized) then old(supported) else Probe(w)
    {
      if !initialized {
        initialized := true;
        if w.tasksWritable || w.rtTasksWritable {
          supported := 1;
        } else {
          supported := 0;
        }
      }
    }

    /** The backwards conversion: `text[ptr..21]` becomes the numeral. */
    method Itoa(tid0: int32, text: array<char>) returns (ptr: nat)
      requires text.Length == 22
      modifies text
      ensures 11 <= ptr <= 21 && text[21] == '\0'
      ensures text[ptr..21] == Decimal(tid0)
      ensures text[..ptr] == old(text[..ptr])
    {
      Int32Length(tid0);
      var tid: int := tid0;
      ptr := 21;
      text[ptr] := '\0';
      while tid > 0
        invariant 0 <= ptr <= 21 && text[21] == '\0'
        invariant Decimal(tid) + text[ptr..21] == Decimal(tid0)
        invariant text[..ptr] == old(text[..ptr])
        decreases tid
      {
        assert Decimal(tid) == Decimal(tid / 10) + [Digit(tid % 10)];
        ghost var tail := text[ptr..21];
        ptr := ptr - 1;
        text[ptr] := Digit(tid % 10);
        assert text[ptr..21] == [Digit(tid % 10)] + tail;
        tid := tid / 10;
      }
    }

    method SetRtIoPrio(tid: int32, rt: bool, w: World) returns (rc: int)
      modifies this
      ensures initialized
      ensures supported == if old(initialized) then old(supported) else Probe(w)
      ensures log == old(log) + Events(supported, tid, rt, w)
      ensures rc == Result(supported, w)
    {
      rc := -1;
      InitializeOnce(w);
      if supported != 1 {
        return -1;
      }
      var fd := w.openResult;
      if rt {
        log := log + [Open(RtDisplayTasks, fd)];
      } else {
        log := log + [Open(Tasks, fd)];
      }
      if fd < 0 {
        return -1;
      }
      var id := tid;
      if w.gettid.Some? && id == 0 {
        id := w.gettid.value;
      }
      var text := new char[22];
      var ptr := Itoa(id, text);
      log := log + [Write(fd, text[ptr..21])];
      rc := w.writeResult;
      if rc < 0 {
        if w.errnoIsEsrch {
          rc := 0;
        }
      }
      log := log + [Close(fd)];
    }

    /** A process that calls the helper over and over: the probe of the first call
        decides for all of them, and the log is that of `RunEvents`. */
    method RunCalls(calls: seq<Call>) returns (rcs: seq<int>)
      modifies this
      ensures calls != [] ==> initialized
      ensures supported == ProbedFlag(old(initialized), old(supported), calls)
      ensures log == old(log) + RunEvents(supported, calls)
      ensures |rcs| == |calls| && forall i | 0 <= i < |calls| :: rcs[i] == Result(supported, calls[i].w)
      ensures OpenFds(log) == OpenFds(old(log)) && (Disciplined(old(log)) ==> Disciplined(log))
    {
      rcs := [];
      for i := 0 to |calls|
        invariant i > 0 ==> initialized
        invariant i == 0 ==> initialized == old(initialized) && supported == old(supported)
        invariant i > 0 ==> supported == ProbedFlag(old(initialized), old(supported), calls)
        invariant log == old(log) + RunEvents(supported, calls[..i])
        invariant |rcs| == i && forall k | 0 <= k < i :: rcs[k] == Result(supported, calls[k].w)
      {
        var c := calls[i];
        var rc := SetRtIoPrio(c.tid, c.rt, c.w);
        rcs := rcs + [rc];
        assert calls[..i + 1][..i] == calls[..i];
      }
      assert calls[..|calls|] == calls;
      RunKeepsBalance(old(log), supported, calls);
    }
  }

  // ---------- Whole runs ----------

  datatype Call = Call(tid: int32, rt: bool, w: World)

  /** The support flag that a run of calls is judged by: that of an earlier probe,
      otherwise the outcome of the probe in the first call. */
  function ProbedFlag(initialized: bool, supported: int, calls: seq<Call>): int {
    if initialized || calls == [] then supported else Probe(calls[0].w)
  }

  /** The events of a run of calls, all judged by one probe. */
  function RunEvents(supported: int, calls: seq<Call>): seq<Event> {
    if calls == [] then []
    else
      var c := calls[|calls| - 1];
      RunEvents(supported, calls[..|calls| - 1]) + Events(supported, c.tid, c.rt, c.w)
  }

  function AfterEvent(fds: multiset<int>, e: Event): multiset<int> {
    if e.Open? then (if e.fd >= 0 then fds + multiset{e.fd} else fds)
    else if e.Close? then fds - multiset{e.fd}
    else fds
  }

  /** The descriptors open after a log, with multiplicity. */
  function OpenFds(log: seq<Event>): multiset<int> {
    if log == [] then multiset{} else AfterEvent(OpenFds(log[..|log| - 1]), log[|log| - 1])
  }

  /** A log that only ever writes to and closes descriptors that are open. */
  predicate Disciplined(log: seq<Event>) {
    if log == [] then true
    else
      var before, e := log[..|log| - 1], log[|log| - 1];
      Disciplined(before) && (e.Open? || e.fd in OpenFds(before))
  }

  lemma AppendEvent(log: seq<Event>, e: Event)
    ensures OpenFds(log + [e]) == AfterEvent(OpenFds(log), e)
    ensures Disciplined(log + [e]) <==> Disciplined(log) && (e.Open? || e.fd in OpenFds(log))
  {
    assert (log + [e])[..|log|] == log;
  }

  lemma CallBalances(log: seq<Event>, supported: int, tid: int32, rt: bool, w: World)
    ensures Disciplined(log) ==> Disciplined(log + Events(supported, tid, rt, w))
    ensures OpenFds(log + Events(supported, tid, rt, w)) == OpenFds(log)
  {
    hide Decimal, OpenFds, Disciplined;
    var e := Events(supported, tid, rt, w);
    if e == [] {
      assert log + e == log;
    } else {
      AppendEvent(log, e[0]);
      if |e| == 1 {
        assert log + e == log + [e[0]];
      } else {
        AppendEvent(log + [e[0]], e[1]);
        AppendEvent(log + [e[0]] + [e[1]], e[2]);
        assert log + e == log + [e[0]] + [e[1]] + [e[2]];
      }
    }
  }

  /** Over any run every descriptor that was opened has been closed, exactly once,
      and nothing was written to or closed that was not open. */
  lemma RunBalances(supported: int, calls: seq<Call>)
    ensures Disciplined(RunEvents(supported, calls)) && OpenFds(RunEvents(supported, calls)) == multiset{}
  {
    RunKeepsBalance([], supported, calls);
    assert [] + RunEvents(supported, calls) == RunEvents(supported, calls);
  }

  /** The same behind any log: a run leaves exactly the descriptors open that
      were open before it. */
  lemma {:induction false} RunKeepsBalance(log: seq<Event>, supported: int, calls: seq<Call>)
    ensures OpenFds(log + RunEvents(supported, calls)) == OpenFds(log)
    ensures Disciplined(log) ==> Disciplined(log + RunEvents(supported, calls))
  {
    hide Disciplined, OpenFds, Events;
    if calls == [] {
      assert log + RunEvents(supported, calls) == log;
    } else {
      var c := calls[|calls| - 1];
      var front := RunEvents(supported, calls[..|calls| - 1]);
      RunKeepsBalance(log, supported, calls[..|calls| - 1]);
      CallBalances(log + front, supported, c.tid, c.rt, c.w);
      assert log + RunEvents(supported, calls) == (log + front) + Events(supported, c.tid, c.rt, c.w);
    }
  }

  lemma DigitNumerals(d: nat)
    requires d < 10
    ensures Digit(d) == "0123456789"[d] && Value("0123456789"[d]) == d && IsDigit("0123456789"[d])
  {
  }

  /** What one call does, step by step.  Without support it does nothing and
      fails.  Otherwise it opens the list of the chosen group; failing that
      it fails.  Otherwise it writes the id (the caller's own thread id for 0,
      where the platform can tell it) to the descriptor just opened, closes it,
      and returns the result of the write, but 0 when the thread is gone. */
  lemma CallOutcome(supported: int, tid: int32, rt: bool, w: World)
    ensures var e, rc := Events(supported, tid, rt, w), Result(supported, w);
            if supported != 1 then e == [] && rc == -1
            else
              && |e| > 0 && e[0] == Open(if rt then RtDisplayTasks else Tasks, w.openResult)
              && if w.openResult < 0 then |e| == 1 && rc == -1
                 else
                   && |e| == 3 && e[1].Write? && e[1].fd == w.openResult && e[2] == Close(w.openResult)
                   && (tid != 0 || w.gettid.None? ==> e[1].text == Decimal(tid))
                   && (tid == 0 && w.gettid.Some? ==> e[1].text == Decimal(w.gettid.value))
                   && (w.writeResult >= 0 || !w.errnoIsEsrch ==> rc == w.writeResult)
                   && (w.writeResult < 0 && w.errnoIsEsrch ==> rc == 0)
    ensures Probe(w) == 1 <==> w.tasksWritable || w.rtTasksWritable
    ensures Probe(w) != 1 ==> Probe(w) == 0
  {
  }

  /** The text written for any thread id: empty exactly when the id is not
      positive, otherwise the only numeral without leading zeros of that value. */
  lemma WrittenText(tid: int32, s: string)
    ensures Decimal(tid) == "" <==> tid <= 0
    ensures tid > 0 ==> (s == Decimal(tid) <==> IsNumeral(s) && Parse(s) == tid)
  {
    if tid > 0 {
      DecimalParses(tid);
      if IsNumeral(s) { NumeralUnique(s); }
    }
  }
}
