/** Process matching (`Processes`) and the child process supervisor
    (`Nanny`). The /proc file system, `subprocess`, signals, threads and
    timers are replaced by values and explicit events: a directory listing,
    whether spawning succeeds, a chunk read by a reader thread, a reader
    thread's exit. */
module Proc {
  import opened Common

  // ---------------------------------------------------------------------
  // Processes.list / Processes.find

  /** One directory under /proc, with what reading it gives: the contents of
      `cmdline` (None when it cannot be read) and the target of `exe` (None
      when it cannot be read). */
  datatype DirEntry = DirEntry(name: string, isDir: bool, cmdline: Option<string>, exe: Option<string>)

  /** A listed process: pid, command name, executable path. */
  datatype ProcInfo = ProcInfo(pid: nat, name: string, exe: Option<string>)

  /** A directory name `int()` accepts: a non-empty run of digits. */
  predicate IsPidName(s: string)
  {
    s != [] && IsDigits(s)
  }

  /** The command name: `cmdline` up to its first NUL. */
  function CommandName(cmdline: string): (name: string)
    ensures '\0' !in name
    ensures |name| <= |cmdline| && cmdline[..|name|] == name
    ensures |name| < |cmdline| ==> cmdline[|name|] == '\0'
  {
    var parts := Split(cmdline, '\0');
    JoinPrefix(parts, '\0');
    parts[0]
  }

  lemma JoinPrefix<T>(parts: seq<seq<T>>, sep: T)
    requires |parts| >= 1
    ensures var j := Join(parts, sep);
      |parts[0]| <= |j| && j[..|parts[0]|] == parts[0] &&
      (|parts| > 1 ==> |parts[0]| < |j| && j[|parts[0]|] == sep)
  {
    if |parts| > 1 {
      assert Join(parts, sep) == parts[0] + [sep] + Join(parts[1..], sep);
    }
  }

  /** What `list` yields for one directory, if anything. */
  function Listed(e: DirEntry): (r: Option<ProcInfo>)
    ensures r.Some? <==> e.isDir && IsPidName(e.name) && e.cmdline.Some?
    ensures r.Some? ==> r.value.name == CommandName(e.cmdline.value) && r.value.exe == e.exe
  {
    if !e.isDir || !IsPidName(e.name) || e.cmdline.None? then None
    else Some(ProcInfo(ParseDigits(e.name), CommandName(e.cmdline.value), e.exe))
  }

  /** The directory of process `n` lists it under pid `n`. */
  lemma ListedPid(n: nat, cmdline: string, exe: Option<string>)
    ensures Listed(DirEntry(NatToString(n), true, Some(cmdline), exe)) == Some(ProcInfo(n, CommandName(cmdline), exe))
  {
    ParseNatToString(n);
  }

  /** `Processes.list`: the processes of a directory listing, in order. */
  function List(entries: seq<DirEntry>): (procs: seq<ProcInfo>)
    ensures |procs| <= |entries|
    ensures forall p :: p in procs ==> exists e :: e in entries && Listed(e) == Some(p)
    ensures forall e :: e in entries && Listed(e).Some? ==> Listed(e).value in procs
  {
    if entries == [] then []
    else
      var rest := List(entries[1..]);
      assert forall e :: e in entries[1..] ==> e in entries;
      assert forall e :: e in entries ==> e == entries[0] || e in entries[1..];
      match Listed(entries[0])
      case Some(p) => [p] + rest
      case None => rest
  }

  /** The match test of `find`: with a '/' in the query, the name or the
      executable must equal it; otherwise the base name of a non-empty
      name or executable must. */
  predicate Matches(p: ProcInfo, query: string)
  {
    if '/' in query then p.name == query || p.exe == Some(query)
    else (p.name != [] && Basename(p.name) == query) || (p.exe.Some? && p.exe.value != [] && Basename(p.exe.value) == query)
  }

  /** `Processes.find`: the matching processes, in list order. */
  function Find(procs: seq<ProcInfo>, query: string): (r: seq<ProcInfo>)
    ensures forall p :: p in r <==> p in procs && Matches(p, query)
    ensures |r| <= |procs|
  {
    if procs == [] then []
    else
      var rest := Find(procs[1..], query);
      assert forall p :: p in procs <==> p == procs[0] || p in procs[1..];
      if Matches(procs[0], query) then [procs[0]] + rest else rest
  }

  /** `find` is a filter: it works entry by entry, keeping order. */
  lemma {:induction false} FindAppend(a: seq<ProcInfo>, b: seq<ProcInfo>, query: string)
    ensures Find(a + b, query) == Find(a, query) + Find(b, query)
  {
    if a != [] {
      assert (a + b)[1..] == a[1..] + b;
      FindAppend(a[1..], b, query);
    } else {
      assert a + b == b;
    }
  }

  /** A bare command name finds the process started under exactly that
      name, and also one started by a path ending in it. */
  lemma BareNameMatches(p: ProcInfo, query: string, dir: string)
    requires '/' !in query && query != []
    requires p.name == query || p.name == dir + "/" + query
    ensures Matches(p, query)
  {
    BasenameOfPlainName(query);
    if p.name == dir + "/" + query {
      BasenameAfterSlash(dir, query);
    }
  }

  /** A query holding '/' matches only the exact name or executable path. */
  lemma PathQueryIsExact(p: ProcInfo, query: string)
    requires '/' in query
    ensures Matches(p, query) <==> p.name == query || p.exe == Some(query)
  {
  }

  // ---------------------------------------------------------------------
  // Output of the child

  datatype Stream = Stdout | Stderr

  /** Python logging levels. */
  const INFO: int := 20
  const WARNING: int := 30

  /** `rstrip(b"\r")`: drop every trailing carriage return. */
  function StripCR(line: seq<byte>): (r: seq<byte>)
    ensures |r| <= |line| && line[..|r|] == r
    ensures r == [] || r[|r| - 1] != CARRIAGE_RETURN
    ensures forall i :: |r| <= i < |line| ==> line[i] == CARRIAGE_RETURN
    decreases |line|
  {
    if line != [] && line[|line| - 1] == CARRIAGE_RETURN then StripCR(line[..|line| - 1]) else line
  }

  /** `_log_output`: the lines one chunk logs. Each call starts with a
      fresh buffer, so the text after the chunk's last newline is lost. */
  function LogLines(data: seq<byte>): (lines: seq<seq<byte>>)
    ensures |lines| == |CompleteLines(data, NEWLINE)|
    ensures forall i :: 0 <= i < |lines| ==> lines[i] == StripCR(CompleteLines(data, NEWLINE)[i])
  {
    var complete := CompleteLines(data, NEWLINE);
    seq(|complete|, i requires 0 <= i < |complete| => StripCR(complete[i]))
  }

  /** A chunk without a newline logs nothing. */
  lemma PartialChunkLogsNothing(data: seq<byte>)
    requires NEWLINE !in data
    ensures LogLines(data) == []
  {
    FramingIsExact(data, NEWLINE);
  }

  /** The lost partial line: a line that arrives in two chunks is logged
      only from its second part. */
  lemma SplitLineLosesHead()
    ensures LogLines([97, 98]) == []
    ensures LogLines([99, NEWLINE]) == [[99]]
    ensures LogLines([97, 98, 99, NEWLINE]) == [[97, 98, 99]]
  {
    PartialChunkLogsNothing([97, 98]);
    SplitAfterPiece([99], NEWLINE, []);
    SplitAfterPiece([97, 98, 99], NEWLINE, []);
    assert [99] + [NEWLINE] + [] == [99, NEWLINE];
    assert [97, 98, 99] + [NEWLINE] + [] == [97, 98, 99, NEWLINE];
    assert StripCR([99]) == [99];
    assert StripCR([97, 98, 99]) == [97, 98, 99];
  }

  /** Chunks cut at line ends lose nothing: the lines of the whole are the
      lines of the parts. */
  lemma LogLinesAtLineEnd(a: seq<byte>, b: seq<byte>)
    requires a != [] && a[|a| - 1] == NEWLINE
    ensures LogLines(a + b) == LogLines(a) + LogLines(b)
  {
    CompleteLinesAtLineEnd(a, b);
  }

  lemma CompleteLinesAtLineEnd(a: seq<byte>, b: seq<byte>)
    requires a != [] && a[|a| - 1] == NEWLINE
    ensures CompleteLines(a + b, NEWLINE) == CompleteLines(a, NEWLINE) + CompleteLines(b, NEWLINE)
  {
    var a' := a[..|a| - 1];
    assert a == a' + [NEWLINE] + [];
    assert a + b == a' + [NEWLINE] + b;
    SplitConcat(a', NEWLINE, []);
    SplitConcat(a', NEWLINE, b);
    var pa := Split(a', NEWLINE);
    var pb := Split(b, NEWLINE);
    assert (pa + pb)[..|pa + pb| - 1] == pa + pb[..|pb| - 1];
    assert (pa + [[]])[..|pa|] == pa;
  }

  // ---------------------------------------------------------------------
  // Nanny

  /** Everything a nanny holds apart from the text written to its child:
      handles, the flag, the running readers and the recorded effects. */
  datatype NannyState = NannyState(
    child: Option<nat>, stdoutReader: Option<nat>, stderrReader: Option<nat>,
    shouldBeRunning: bool, readers: map<nat, Stream>, nextHandle: nat,
    callbacks: seq<bool>, restartsScheduled: nat, killed: seq<string>,
    terminated: seq<nat>, logged: seq<(int, seq<byte>)>, delivered: seq<seq<byte>>)

  /** What `write` does. */
  datatype WriteOutcome =
    | NoChild      // nothing is running: nothing written
    | PipeMissing  // the child's stdin is not a pipe: AttributeError
    | Written

  /** Handles are allocated below `next`, and the current reader handles
      belong to running readers of the right stream. */
  ghost predicate Handles(child: Option<nat>, out: Option<nat>, err: Option<nat>, readers: map<nat, Stream>, next: nat)
  {
    (child.Some? ==> child.value < next) &&
    (forall t :: t in readers ==> t < next) &&
    (out.Some? ==> out.value in readers && readers[out.value] == Stdout) &&
    (err.Some? ==> err.value in readers && readers[err.value] == Stderr)
  }

  /** A spawn takes three fresh handles: the child and its two readers. */
  lemma SpawnKeepsHandles(readers: map<nat, Stream>, next: nat)
    requires Handles(None, None, None, readers, next)
    ensures next + 1 !in readers && next + 2 !in readers
    ensures Handles(Some(next), Some(next + 1), Some(next + 2), readers[next + 1 := Stdout][next + 2 := Stderr], next + 3)
  {
  }

  /** A reader's exit, clearing its handle, keeps the handles consistent. */
  lemma ExitKeepsHandles(child: Option<nat>, out: Option<nat>, err: Option<nat>, readers: map<nat, Stream>, next: nat, t: nat)
    requires Handles(child, out, err, readers, next)
    ensures Handles(child, if out == Some(t) then None else out,
      if out != Some(t) && err == Some(t) then None else err, readers - {t}, next)
  {
  }

  class Nanny {
    /** `input_pipe`, `kill_list`, and whether `callback` /
        `stdout_callback` are set. */
    const inputPipe: bool
    const killList: seq<string>
    const hasCallback: bool
    const hasStdoutCallback: bool

    /** `_child`, `_stdout_thread`, `_stderr_thread` as handles. */
    var child: Option<nat>
    var stdoutReader: Option<nat>
    var stderrReader: Option<nat>
    /** `_should_be_running`. */
    var shouldBeRunning: bool

    /** The reader threads still running, and what they read. */
    var readers: map<nat, Stream>
    /** The next unused handle. */
    var nextHandle: nat

    /** Effects: `callback(...)` calls, `restart_if_needed` timers added,
        the names passed to `killall`, children terminated, text written to
        the child, lines logged, chunks given to `stdout_callback`. */
    var callbacks: seq<bool>
    var restartsScheduled: nat
    var killed: seq<string>
    var terminated: seq<nat>
    var written: seq<string>
    var logged: seq<(int, seq<byte>)>
    var delivered: seq<seq<byte>>

    ghost predicate Valid()
      reads this
    {
      Handles(child, stdoutReader, stderrReader, readers, nextHandle)
    }

    /** The nanny's state apart from `written`. */
    ghost function Others(): NannyState
      reads this
    {
      NannyState(child, stdoutReader, stderrReader, shouldBeRunning, readers, nextHandle,
        callbacks, restartsScheduled, killed, terminated, logged, delivered)
    }

    /** `is_started`: a child or a reader thread is there. */
    predicate IsStarted()
      reads this
    {
      child.Some? || stdoutReader.Some? || stderrReader.Some?
    }

    /** The constructor's `killall` of the kill list is recorded. */
    constructor (inputPipe: bool, killList: seq<string>, hasCallback: bool, hasStdoutCallback: bool)
      ensures Valid() && !IsStarted() && !shouldBeRunning
      ensures this.inputPipe == inputPipe && this.killList == killList
      ensures this.hasCallback == hasCallback && this.hasStdoutCallback == hasStdoutCallback
      ensures readers == map[] && killed == killList
      ensures callbacks == [] && restartsScheduled == 0 && terminated == [] && written == [] && logged == [] && delivered == []
    {
      this.inputPipe := inputPipe;
      this.killList := killList;
      this.hasCallback := hasCallback;
      this.hasStdoutCallback := hasStdoutCallback;
      child := None;
      stdoutReader := None;
      stderrReader := None;
      shouldBeRunning := false;
      readers := map[];
      nextHandle := 0;
      callbacks := [];
      restartsScheduled := 0;
      killed := killList;
      terminated := [];
      written := [];
      logged := [];
      delivered := [];
    }

    /** `start`: nothing while a child or a reader is there. Otherwise kill
        the processes of the kill list and spawn (`spawnOk` is whether that
        succeeds); on success start both readers, set the flag and report
        `callback(True)`. */
    method Start(spawnOk: bool)
      requires Valid()
      modifies this
      ensures Valid()
      ensures old(IsStarted()) ==> (child == old(child) && stdoutReader == old(stdoutReader) && stderrReader == old(stderrReader) &&
        shouldBeRunning == old(shouldBeRunning) && readers == old(readers) && callbacks == old(callbacks) && killed == old(killed))
      ensures !old(IsStarted()) ==> killed == old(killed) + killList
      ensures !old(IsStarted()) && !spawnOk ==> (!IsStarted() && shouldBeRunning == old(shouldBeRunning) &&
        readers == old(readers) && callbacks == old(callbacks))
      ensures !old(IsStarted()) && spawnOk ==> (IsStarted() && child.Some? && shouldBeRunning &&
        stdoutReader.Some? && stderrReader.Some? && stdoutReader.value !in old(readers) && stderrReader.value !in old(readers) &&
        readers == old(readers)[stdoutReader.value := Stdout][stderrReader.value := Stderr] &&
        callbacks == old(callbacks) + (if hasCallback then [true] else []))
      ensures restartsScheduled == old(restartsScheduled) && terminated == old(terminated) && written == old(written)
      ensures logged == old(logged) && delivered == old(delivered)
    {
      if stdoutReader.Some? || stderrReader.Some? || child.Some? {
        return;
      }
      killed := killed + killList;
      if !spawnOk {
        return;
      }
      Spawn();
    }

    /** A successful spawn: the child and both readers start, the flag is
        set and `callback(True)` is reported. */
    method Spawn()
      requires Valid() && !IsStarted()
      modifies this
      ensures Valid() && IsStarted() && child.Some? && shouldBeRunning
      ensures stdoutReader.Some? && stderrReader.Some? && stdoutReader.value !in old(readers) && stderrReader.value !in old(readers)
      ensures readers == old(readers)[stdoutReader.value := Stdout][stderrReader.value := Stderr]
      ensures callbacks == old(callbacks) + (if hasCallback then [true] else [])
      ensures restartsScheduled == old(restartsScheduled) && terminated == old(terminated) && written == old(written)
      ensures logged == old(logged) && delivered == old(delivered) && killed == old(killed)
    {
      SpawnKeepsHandles(readers, nextHandle);
      var n := nextHandle;
      var reported := callbacks + (if hasCallback then [true] else []);
      child, stdoutReader, stderrReader := Some(n), Some(n + 1), Some(n + 2);
      readers, nextHandle := readers[n + 1 := Stdout][n + 2 := Stderr], n + 3;
      shouldBeRunning, callbacks := true, reported;
      assert Handles(child, stdoutReader, stderrReader, readers, nextHandle);
    }

    /** `let_it_stop`: only the flag is cleared. */
    method LetItStop()
      modifies this
      ensures !shouldBeRunning
      ensures child == old(child) && stdoutReader == old(stdoutReader) && stderrReader == old(stderrReader)
      ensures readers == old(readers) && nextHandle == old(nextHandle) && callbacks == old(callbacks)
      ensures restartsScheduled == old(restartsScheduled) && killed == old(killed) && terminated == old(terminated)
      ensures written == old(written) && logged == old(logged) && delivered == old(delivered)
    {
      shouldBeRunning := false;
    }

    /** `stop`: clear the flag, terminate the child, kill the kill list,
        wait for the readers and forget them. A reader that outlives the
        wait keeps running. */
    method Stop()
      requires Valid()
      modifies this
      ensures Valid()
      ensures !shouldBeRunning && !IsStarted()
      ensures terminated == old(terminated) + (if old(child).Some? then [old(child).value] else [])
      ensures killed == old(killed) + killList
      ensures readers == old(readers) && nextHandle == old(nextHandle) && callbacks == old(callbacks)
      ensures restartsScheduled == old(restartsScheduled) && written == old(written)
      ensures logged == old(logged) && delivered == old(delivered)
    {
      shouldBeRunning := false;
      if child.Some? {
        terminated := terminated + [child.value];
        child := None;
      }
      killed := killed + killList;
      stdoutReader := None;
      stderrReader := None;
      assert Handles(child, stdoutReader, stderrReader, readers, nextHandle);
    }

    /** `write`: nothing without a child; without an input pipe the child
        has no stdin and writing raises. */
    method Write(data: string) returns (r: WriteOutcome)
      modifies this
      ensures old(child).None? ==> r == NoChild && written == old(written)
      ensures old(child).Some? && !inputPipe ==> r == PipeMissing && written == old(written)
      ensures old(child).Some? && inputPipe ==> r == Written && written == old(written) + [data]
      ensures child == old(child) && stdoutReader == old(stdoutReader) && stderrReader == old(stderrReader)
      ensures shouldBeRunning == old(shouldBeRunning) && readers == old(readers) && nextHandle == old(nextHandle)
      ensures callbacks == old(callbacks) && restartsScheduled == old(restartsScheduled) && killed == old(killed)
      ensures terminated == old(terminated) && logged == old(logged) && delivered == old(delivered)
    {
      if child.None? {
        return NoChild;
      }
      if !inputPipe {
        return PipeMissing;
      }
      written := written + [data];
      return Written;
    }

    /** A reader thread read a chunk: standard output goes to
        `stdout_callback` when there is one, everything else is logged line
        by line (INFO for standard output, WARNING for standard error). */
    method ReaderOutput(t: nat, data: seq<byte>)
      requires Valid() && t in readers && |data| > 0
      modifies this
      ensures Valid()
      ensures old(readers)[t] == Stdout && hasStdoutCallback ==> delivered == old(delivered) + [data] && logged == old(logged)
      ensures !(old(readers)[t] == Stdout && hasStdoutCallback) ==> (delivered == old(delivered) &&
        logged == old(logged) + Tagged(if old(readers)[t] == Stdout then INFO else WARNING, LogLines(data)))
      ensures child == old(child) && stdoutReader == old(stdoutReader) && stderrReader == old(stderrReader)
      ensures shouldBeRunning == old(shouldBeRunning) && readers == old(readers) && nextHandle == old(nextHandle)
      ensures callbacks == old(callbacks) && restartsScheduled == old(restartsScheduled) && killed == old(killed)
      ensures terminated == old(terminated) && written == old(written)
    {
      if readers[t] == Stdout && hasStdoutCallback {
        delivered := delivered + [data];
      } else {
        logged := logged + Tagged(if readers[t] == Stdout then INFO else WARNING, LogLines(data));
      }
    }

    /** A reader thread ends (end of its stream, after waiting for its
        child): it clears its own handle if it is still the current one;
        the first to find a child clears it, reports `callback(False)`
        and, if the child should be running, schedules
        `restart_if_needed`. */
    method ReaderExit(t: nat)
      requires Valid() && t in readers
      modifies this
      ensures Valid()
      ensures readers == old(readers) - {t}
      ensures stdoutReader == (if old(stdoutReader) == Some(t) then None else old(stdoutReader))
      ensures stderrReader == (if old(stdoutReader) != Some(t) && old(stderrReader) == Some(t) then None else old(stderrReader))
      ensures child.None?
      ensures old(child).None? ==> callbacks == old(callbacks) && restartsScheduled == old(restartsScheduled)
      ensures old(child).Some? ==> (callbacks == old(callbacks) + (if hasCallback then [false] else []) &&
        restartsScheduled == old(restartsScheduled) + (if shouldBeRunning then 1 else 0))
      ensures shouldBeRunning == old(shouldBeRunning) && nextHandle == old(nextHandle) && killed == old(killed)
      ensures terminated == old(terminated) && written == old(written) && logged == old(logged) && delivered == old(delivered)
    {
      ClearThread(t);
      ChildExited();
    }

    /** The exiting reader clears its own handle if it is still current,
        and is no longer running. */
    method ClearThread(t: nat)
      requires Valid() && t in readers
      modifies this
      ensures Valid()
      ensures readers == old(readers) - {t}
      ensures stdoutReader == (if old(stdoutReader) == Some(t) then None else old(stdoutReader))
      ensures stderrReader == (if old(stdoutReader) != Some(t) && old(stderrReader) == Some(t) then None else old(stderrReader))
      ensures child == old(child) && callbacks == old(callbacks) && restartsScheduled == old(restartsScheduled)
      ensures shouldBeRunning == old(shouldBeRunning) && nextHandle == old(nextHandle) && killed == old(killed)
      ensures terminated == old(terminated) && written == old(written) && logged == old(logged) && delivered == old(delivered)
    {
      ExitKeepsHandles(child, stdoutReader, stderrReader, readers, nextHandle, t);
      var out := if stdoutReader == Some(t) then None else stdoutReader;
      var err := if stdoutReader != Some(t) && stderrReader == Some(t) then None else stderrReader;
      readers, stdoutReader, stderrReader := readers - {t}, out, err;
      assert Handles(child, stdoutReader, stderrReader, readers, nextHandle);
    }

    /** The first reader to find the child clears it, reports
        `callback(False)` and, if it should be running, schedules
        `restart_if_needed`; a later one finds nothing to do. */
    method ChildExited()
      requires Valid()
      modifies this
      ensures Valid() && child.None?
      ensures old(child).None? ==> callbacks == old(callbacks) && restartsScheduled == old(restartsScheduled)
      ensures old(child).Some? ==> (callbacks == old(callbacks) + (if hasCallback then [false] else []) &&
        restartsScheduled == old(restartsScheduled) + (if shouldBeRunning then 1 else 0))
      ensures readers == old(readers) && stdoutReader == old(stdoutReader) && stderrReader == old(stderrReader)
      ensures shouldBeRunning == old(shouldBeRunning) && nextHandle == old(nextHandle) && killed == old(killed)
      ensures terminated == old(terminated) && written == old(written) && logged == old(logged) && delivered == old(delivered)
    {
      if child.None? {
        return;
      }
      child := None;
      if hasCallback {
        callbacks := callbacks + [false];
      }
      if shouldBeRunning {
        restartsScheduled := restartsScheduled + 1;
      }
    }

    /** `restart_if_needed`: start again only when the child should be
        running and is not. */
    method RestartIfNeeded(spawnOk: bool)
      requires Valid()
      modifies this
      ensures Valid()
      ensures !(old(shouldBeRunning) && old(child).None?) || old(IsStarted()) ==>
        child == old(child) && stdoutReader == old(stdoutReader) && stderrReader == old(stderrReader) &&
        readers == old(readers) && callbacks == old(callbacks) && killed == old(killed)
      ensures old(shouldBeRunning) && old(child).None? && !old(IsStarted()) ==> killed == old(killed) + killList
      ensures old(shouldBeRunning) && old(child).None? && !old(IsStarted()) && !spawnOk ==>
        !IsStarted() && readers == old(readers) && callbacks == old(callbacks)
      ensures old(shouldBeRunning) && old(child).None? && !old(IsStarted()) && spawnOk ==>
        IsStarted() && child.Some? && stdoutReader.Some? && stderrReader.Some? &&
        stdoutReader.value !in old(readers) && stderrReader.value !in old(readers) &&
        readers == old(readers)[stdoutReader.value := Stdout][stderrReader.value := Stderr] &&
        callbacks == old(callbacks) + (if hasCallback then [true] else [])
      ensures shouldBeRunning == old(shouldBeRunning)
      ensures restartsScheduled == old(restartsScheduled) && terminated == old(terminated) && written == old(written)
      ensures logged == old(logged) && delivered == old(delivered)
    {
      if shouldBeRunning && child.None? {
        Start(spawnOk);
      }
    }

    /** `restart`: stop if started, then start. */
    method Restart(spawnOk: bool)
      requires Valid()
      modifies this
      ensures Valid()
      ensures spawnOk ==> IsStarted() && shouldBeRunning
      ensures !spawnOk ==> !IsStarted()
      ensures !spawnOk ==> shouldBeRunning == (old(shouldBeRunning) && !old(IsStarted()))
      ensures killed == old(killed) + (if old(IsStarted()) then killList else []) + killList
      ensures callbacks == old(callbacks) + (if hasCallback && spawnOk then [true] else [])
      ensures terminated == old(terminated) + (if old(child).Some? then [old(child).value] else [])
      ensures restartsScheduled == old(restartsScheduled) && written == old(written)
      ensures logged == old(logged) && delivered == old(delivered)
    {
      if IsStarted() {
        Stop();
      }
      Start(spawnOk);
    }
  }

  /** Log lines with their level. */
  function Tagged(level: int, lines: seq<seq<byte>>): (r: seq<(int, seq<byte>)>)
    ensures |r| == |lines|
    ensures forall i :: 0 <= i < |r| ==> r[i] == (level, lines[i])
  {
    seq(|lines|, i requires 0 <= i < |lines| => (level, lines[i]))
  }

  /** When both readers of a running child exit, in either order,
      `callback(False)` is reported once, one restart is scheduled if the
      child should be running, and the nanny is no longer started. */
  method BothReadersExit(n: Nanny, first: nat, second: nat)
    requires n.Valid() && n.child.Some? && n.stdoutReader.Some? && n.stderrReader.Some?
    requires {first, second} == {n.stdoutReader.value, n.stderrReader.value}
    modifies n
    ensures n.Valid() && !n.IsStarted()
    ensures n.readers == old(n.readers) - {first, second}
    ensures n.callbacks == old(n.callbacks) + (if n.hasCallback then [false] else [])
    ensures n.restartsScheduled == old(n.restartsScheduled) + (if n.shouldBeRunning then 1 else 0)
    ensures n.shouldBeRunning == old(n.shouldBeRunning) && n.terminated == old(n.terminated)
  {
    n.ReaderExit(first);
    n.ReaderExit(second);
  }

  /** A reader of a stopped child that outlives `stop` and ends after a new
      start clears the new child: the nanny reports the child gone while it
      runs, and `restart_if_needed` then does not start another. */
  method StaleReaderClearsNewChild() returns (callbacks: seq<bool>, hasChild: bool, started: bool)
    ensures callbacks == [true, true, false] && !hasChild && started
  {
    var n := new Nanny(false, [], true, false);
    n.Start(true);
    var old1 := n.stdoutReader.value;
    n.Stop();
    n.Start(true);
    n.ReaderExit(old1);
    var before := n.callbacks;
    n.RestartIfNeeded(true);
    assert n.callbacks == before;
    return n.callbacks, n.child.Some?, n.IsStarted();
  }
}
