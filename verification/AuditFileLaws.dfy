/** What the audit log's files keep, whatever fails. */
module AuditFileLaws {
  import opened JsonValue
  import opened AuditFiles

  // ---- the bound on the disk -----------------------------------------------------------

  ghost predicate FileInBounds(file: File, max: nat) {
    |Content(file)| <= max
  }

  /** Room for the newline that would end a torn line. */
  ghost predicate Mendable(file: File, max: nat) {
    |Content(file)| == max ==> Settled(Content(file))
  }

  ghost predicate DiskInBounds(files: map<nat, File>, limits: Limits) {
    forall n: nat | n <= limits.keptFiles :: FileInBounds(FileAt(files, n), limits.maxFileBytes)
  }

  ghost predicate Measured(log: Log) {
    log.open ==> 0 in log.files && log.size == |Content(log.files[0])| && Settled(Content(log.files[0]))
  }

  ghost predicate Bounded(log: Log, limits: Limits) {
    && DiskInBounds(log.files, limits)
    && Mendable(FileAt(log.files, 0), limits.maxFileBytes)
    && Measured(log)
  }

  lemma ContentAppend(file: File, w: Write)
    ensures Content(file + [w]) == Content(file) + BytesOf(w)
  {
    assert (file + [w])[..|file|] == file;
  }

  lemma OpenBounded(log: Log, limits: Limits, fault: OpenFault)
    requires Bounded(log, limits) && !log.open
    ensures Bounded(Open(log, fault).0, limits)
    ensures Open(log, fault).1 <==> Open(log, fault).0.open
  {
    var after := Open(log, fault).0;
    ContentAppend(FileAt(log.files, 0), Mend);
    forall n: nat | n <= limits.keptFiles ensures FileInBounds(FileAt(after.files, n), limits.maxFileBytes) {
      assert FileInBounds(FileAt(log.files, n), limits.maxFileBytes);
    }
  }

  lemma {:induction false} ShiftBounded(files: map<nat, File>, n: nat, fails: Option<nat>, limits: Limits)
    requires DiskInBounds(files, limits) && n < limits.keptFiles
    ensures DiskInBounds(Shift(files, n, fails).0, limits)
    ensures FileAt(Shift(files, n, fails).0, 0) == FileAt(files, 0)
    ensures 0 in Shift(files, n, fails).0 <==> 0 in files
    decreases n
  {
    if n != 0 && fails != Some(n) {
      RenameBounded(files, n, limits);
      ShiftBounded(Rename(files, n, n + 1), n - 1, fails, limits);
    }
  }

  lemma RenameBounded(files: map<nat, File>, n: nat, limits: Limits)
    requires DiskInBounds(files, limits) && n < limits.keptFiles
    ensures DiskInBounds(Rename(files, n, n + 1), limits)
  {
    var renamed := Rename(files, n, n + 1);
    forall m: nat | m <= limits.keptFiles ensures FileInBounds(FileAt(renamed, m), limits.maxFileBytes) {
      assert FileInBounds(FileAt(files, m), limits.maxFileBytes) && FileInBounds(FileAt(files, n), limits.maxFileBytes);
    }
  }

  lemma RotateBounded(log: Log, limits: Limits, fails: Option<nat>, reopen: OpenFault)
    requires Bounded(log, limits)
    ensures var (after, ok) := Rotate(log, limits.keptFiles, fails, reopen);
            && Bounded(after, limits) && (ok <==> after.open)
            && (ok ==> after.size == 0)
  {
    var kept := limits.keptFiles;
    if kept != 0 {
      ShiftBounded(log.files, kept - 1, fails, limits);
    }
    var (shifted, ok) := Shift(log.files, if kept == 0 then 0 else kept - 1, fails);
    if ok && fails != Some(0) && (kept != 0 || 0 in shifted) {
      var cleared := if kept == 0 then shifted - {0} else Rename(shifted, 0, 1);
      if kept != 0 {
        RenameBounded(shifted, 0, limits);
      }
      assert DiskInBounds(cleared, limits) by {
        forall n: nat | n <= kept ensures FileInBounds(FileAt(cleared, n), limits.maxFileBytes) {
          assert FileInBounds(FileAt(shifted, n), limits.maxFileBytes);
        }
      }
      OpenBounded(log.(files := cleared, open := false), limits, reopen);
    }
  }

  lemma FirstReplaced(files: map<nat, File>, file: File, limits: Limits)
    requires DiskInBounds(files, limits) && FileInBounds(file, limits.maxFileBytes)
    ensures DiskInBounds(files[0 := file], limits)
  {
    var after := files[0 := file];
    forall n: nat | n <= limits.keptFiles ensures FileInBounds(FileAt(after, n), limits.maxFileBytes) {
      assert FileInBounds(FileAt(files, n), limits.maxFileBytes);
    }
  }

  lemma PutBounded(log: Log, limits: Limits, line: Bytes, cut: Option<nat>)
    requires Bounded(log, limits) && log.open && log.size + |line| + 1 <= limits.maxFileBytes
    ensures var (after, ok) := Put(log, line, cut);
            Bounded(if ok then after else after.(open := false), limits)
  {
    var file := log.files[0];
    if cut.None? {
      EventSettles(file, line);
      FirstReplaced(log.files, file + [Event(line)], limits);
    } else {
      var part := line[..if cut.value < |line| then cut.value else |line|];
      TornFits(file, line, part);
      FirstReplaced(log.files, file + [Torn(part)], limits);
    }
  }

  lemma EventSettles(file: File, line: Bytes)
    ensures |Content(file + [Event(line)])| == |Content(file)| + |line| + 1 && Settled(Content(file + [Event(line)]))
  {
    ContentAppend(file, Event(line));
    var all := Content(file) + (line + [NEWLINE]);
    assert all[|all| - 1] == NEWLINE;
  }

  lemma TornFits(file: File, line: Bytes, part: Bytes)
    requires |part| <= |line|
    ensures |Content(file + [Torn(part)])| < |Content(file)| + |line| + 1
  {
    ContentAppend(file, Torn(part));
  }

  lemma HandleBounded(log: Log, limits: Limits, line: Bytes, f: Faults)
    requires Bounded(log, limits)
    ensures Bounded(Handle(log, limits, line, f).0, limits)
  {
    if |line| + 1 <= limits.maxFileBytes {
      if !log.open {
        OpenBounded(log, limits, f.open);
      }
      var (held, reached) := if log.open then (log, true) else Open(log, f.open);
      if reached && held.size + |line| + 1 > limits.maxFileBytes {
        RotateBounded(held, limits, f.shift, f.reopen);
      }
      var (ready, ok) := Ready(log, limits, |line| + 1, f);
      if ok && ready.open {
        PutBounded(ready, limits, line, f.cut);
      }
    }
  }

  lemma {:induction false} UnfailingShift(files: map<nat, File>, n: nat)
    ensures Shift(files, n, None).1
    decreases n
  {
    if n != 0 {
      UnfailingShift(Rename(files, n, n + 1), n - 1);
    }
  }

  /** Without a fault every line that fits a file is written, rotating when it must, and the
      file stays open; a longer line is refused whatever happens. */
  lemma FaultlessLineIsWritten(log: Log, limits: Limits, line: Bytes)
    requires Bounded(log, limits)
    ensures var (after, ok) := Handle(log, limits, line, Faults(NoFault, None, NoFault, None));
            (ok <==> |line| + 1 <= limits.maxFileBytes) && (ok ==> after.open)
  {
    if |line| + 1 <= limits.maxFileBytes {
      var held := if log.open then log else Open(log, NoFault).0;
      assert held.open && 0 in held.files;
      FaultlessRotation(held, limits.keptFiles);
    }
  }

  lemma FaultlessRotation(log: Log, kept: nat)
    requires 0 in log.files
    ensures var (after, ok) := Rotate(log, kept, None, NoFault); ok && after.open
  {
    UnfailingShift(log.files, if kept == 0 then 0 else kept - 1);
  }

  lemma {:induction false} UnfailingShiftMoves(files: map<nat, File>, n: nat, at: nat)
    requires 0 < at <= n
    ensures FileAt(Shift(files, n, None).0, at + 1) == if at == n && n !in files then FileAt(files, n + 1)
                                                       else FileAt(files, at)
    ensures FileAt(Shift(files, n, None).0, 1) == []
    decreases n
  {
    var renamed := Rename(files, n, n + 1);
    if at == n {
      ShiftLeavesAbove(renamed, n - 1, n + 1);
    } else {
      UnfailingShiftMoves(renamed, n - 1, at);
    }
    if n > 1 {
      UnfailingShiftMoves(renamed, n - 1, 1);
    }
  }

  lemma {:induction false} ShiftLeavesAbove(files: map<nat, File>, n: nat, at: nat)
    requires n + 1 < at
    ensures FileAt(Shift(files, n, None).0, at) == FileAt(files, at)
    decreases n
  {
    if n != 0 {
      ShiftLeavesAbove(Rename(files, n, n + 1), n - 1, at);
    }
  }

  /** The file `audit.log` is open, and as long as the writer thinks. */
  ghost predicate Writing(log: Log) {
    log.open && 0 in log.files && log.size == |Content(log.files[0])|
  }

  /** Without a fault an event goes to the end of `audit.log`, and no other file is touched, if and
      only if it fits there; otherwise it begins a new `audit.log`, and every file moves up by one
      name, over the oldest when there is a file to move onto it. */
  lemma FaultlessLineLands(log: Log, limits: Limits, line: Bytes, n: nat)
    requires Writing(log) && |line| + 1 <= limits.maxFileBytes && n <= limits.keptFiles
    ensures var after := Handle(log, limits, line, Faults(NoFault, None, NoFault, None)).0;
            if |Content(log.files[0])| + |line| + 1 <= limits.maxFileBytes
            then FileAt(after.files, n) == FileAt(log.files, n) + if n == 0 then [Event(line)] else []
            else if n == 0 then FileAt(after.files, 0) == [Event(line)]
            else FileAt(after.files, n) ==
                 if n == limits.keptFiles && n - 1 !in log.files then FileAt(log.files, n) else FileAt(log.files, n - 1)
    ensures Content([Event(line)]) == line + [10]
  {
    assert [Event(line)][..0] == [] && [] + (line + [10]) == line + [10];
    if |Content(log.files[0])| + |line| + 1 > limits.maxFileBytes {
      FaultlessRotation(log, limits.keptFiles);
      RotationMoves(log, limits.keptFiles, n);
      assert [] + [Event(line)] == [Event(line)];
    } else {
      assert FileAt(log.files, n) + [] == FileAt(log.files, n);
    }
  }

  lemma RotationMoves(log: Log, kept: nat, n: nat)
    requires 0 in log.files && n <= kept
    ensures var after := Rotate(log, kept, None, NoFault).0;
            FileAt(after.files, n) == if n == 0 then []
                                      else if n == kept && n - 1 !in log.files then FileAt(log.files, n)
                                      else FileAt(log.files, n - 1)
  {
    var top := if kept == 0 then 0 else kept - 1;
    UnfailingShift(log.files, top);
    ShiftLeavesFirst(log.files, top, None);
    if n > 1 {
      UnfailingShiftMoves(log.files, top, n - 1);
    }
  }

  lemma {:induction false} RunBounded(log: Log, limits: Limits, inbox: seq<Message>)
    requires Bounded(log, limits)
    ensures Bounded(Run(log, limits, inbox), limits)
  {
    if inbox != [] {
      var last := inbox[|inbox| - 1];
      RunBounded(log, limits, inbox[..|inbox| - 1]);
      HandleBounded(Run(log, limits, inbox[..|inbox| - 1]), limits, last.line, last.faults);
    }
  }

  function Total(files: map<nat, File>, oldest: nat): nat {
    |Content(FileAt(files, oldest))| + if oldest == 0 then 0 else Total(files, oldest - 1)
  }

  lemma {:induction false} TotalBounded(files: map<nat, File>, oldest: nat, limits: Limits)
    requires DiskInBounds(files, limits) && oldest <= limits.keptFiles
    ensures Total(files, oldest) <= (oldest + 1) * limits.maxFileBytes
  {
    assert FileInBounds(FileAt(files, oldest), limits.maxFileBytes);
    if oldest != 0 {
      TotalBounded(files, oldest - 1, limits);
    }
  }

  /** From a directory within bounds whose `audit.log` has room to mend a torn line,
      whatever fails: every file stays within its limit, the log within
      `(kept + 1) * max`, and `size` is the length of the open file. */
  lemma DiskStaysBounded(log: Log, limits: Limits, inbox: seq<Message>)
    requires !log.open && DiskInBounds(log.files, limits) && Mendable(FileAt(log.files, 0), limits.maxFileBytes)
    ensures var end := Run(log, limits, inbox);
            && DiskInBounds(end.files, limits)
            && Total(end.files, limits.keptFiles) <= (limits.keptFiles + 1) * limits.maxFileBytes
            && (end.open ==> 0 in end.files && end.size == |Content(end.files[0])|)
  {
    RunBounded(log, limits, inbox);
    TotalBounded(Run(log, limits, inbox).files, limits.keptFiles, limits);
  }

  /** An event whose rotation fails at the first file. */
  function Blocked(line: Bytes): Message {
    Message(line, Faults(NoFault, Some(0), NoFault, None))
  }

  lemma {:induction false} ShiftLeavesFirst(files: map<nat, File>, n: nat, fails: Option<nat>)
    ensures FileAt(Shift(files, n, fails).0, 0) == FileAt(files, 0)
    ensures 0 in Shift(files, n, fails).0 <==> 0 in files
    decreases n
  {
    if n != 0 && fails != Some(n) {
      ShiftLeavesFirst(Rename(files, n, n + 1), n - 1, fails);
    }
  }

  lemma BlockedKeepsFirst(log: Log, kept: nat)
    ensures var (after, ok) := Rotate(log, kept, Some(0), NoFault);
            !ok && FileAt(after.files, 0) == FileAt(log.files, 0)
  {
    ShiftLeavesFirst(log.files, if kept == 0 then 0 else kept - 1, Some(0));
  }

  lemma MendedOverflows(log: Log, limits: Limits)
    requires !log.open && !Mendable(FileAt(log.files, 0), limits.maxFileBytes)
    ensures var (mended, ok) := Open(log, NoFault);
            ok && mended.size == |Content(FileAt(mended.files, 0))| == limits.maxFileBytes + 1
  {
    ContentAppend(FileAt(log.files, 0), Mend);
  }

  /** An `audit.log` that is full and torn is mended past its limit by any event that fits a file. */
  lemma TornFullFileOverflows(log: Log, limits: Limits, line: Bytes)
    requires !log.open && !Mendable(FileAt(log.files, 0), limits.maxFileBytes) && |line| + 1 <= limits.maxFileBytes
    ensures |Content(FileAt(Run(log, limits, [Blocked(line)]).files, 0))| == limits.maxFileBytes + 1
  {
    MendedOverflows(log, limits);
    BlockedKeepsFirst(Open(log, NoFault).0, limits.keptFiles);
    assert [Blocked(line)][..0] == [];
    assert Run(log, limits, []) == log;
  }

  lemma BadRun(log: Log, limits: Limits) returns (inbox: seq<Message>)
    requires !log.open && !(DiskInBounds(log.files, limits) && Mendable(FileAt(log.files, 0), limits.maxFileBytes))
    ensures !DiskInBounds(Run(log, limits, inbox).files, limits)
  {
    if !DiskInBounds(log.files, limits) {
      inbox := [];
      assert Run(log, limits, inbox) == log;
    } else {
      var longest: Bytes := seq(limits.maxFileBytes - 1, _ => 0);
      inbox := [Blocked(longest)];
      TornFullFileOverflows(log, limits, longest);
      assert !FileInBounds(FileAt(Run(log, limits, inbox).files, 0), limits.maxFileBytes);
    }
  }

  /** The directories from which every run keeps the bound are exactly those within it
      whose `audit.log` is not both full and torn. */
  lemma BoundHoldsExactly(log: Log, limits: Limits)
    requires !log.open
    ensures (forall inbox :: DiskInBounds(Run(log, limits, inbox).files, limits)) <==>
            DiskInBounds(log.files, limits) && Mendable(FileAt(log.files, 0), limits.maxFileBytes)
  {
    if DiskInBounds(log.files, limits) && Mendable(FileAt(log.files, 0), limits.maxFileBytes) {
      forall inbox ensures DiskInBounds(Run(log, limits, inbox).files, limits) {
        RunBounded(log, limits, inbox);
      }
    } else {
      var inbox := BadRun(log, limits);
    }
  }
}
