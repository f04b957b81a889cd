/** Which events the audit log still holds, and how they stand in its files. */
module AuditRetention {
  import opened JsonValue
  import opened AuditFiles
  import opened AuditFileLaws

  // ---- what is retained is a suffix of what was ever written -----------------------------

  ghost predicate Suffix(a: File, b: File) {
    exists dropped: File :: b == dropped + a
  }

  lemma SuffixSelf(a: File)
    ensures Suffix(a, a)
  {
    assert a == [] + a;
  }

  lemma SuffixSuffix(a: File, b: File, c: File)
    requires Suffix(a, b) && Suffix(b, c)
    ensures Suffix(a, c)
  {
    var p: File :| b == p + a;
    var q: File :| c == q + b;
    assert c == (q + p) + a;
  }

  lemma {:induction false} RetainedSame(files: map<nat, File>, other: map<nat, File>, oldest: nat)
    requires forall n: nat | n <= oldest :: FileAt(files, n) == FileAt(other, n)
    ensures Retained(files, oldest) == Retained(other, oldest)
  {
    if oldest != 0 {
      RetainedSame(files, other, oldest - 1);
    }
  }

  /** What is retained below file `n`. */
  function Below(files: map<nat, File>, n: nat): File {
    if n == 0 then [] else Retained(files, n - 1)
  }

  lemma TopTwo(files: map<nat, File>, n: nat)
    ensures Retained(files, n + 1) == FileAt(files, n + 1) + (FileAt(files, n) + Below(files, n))
  {
  }

  lemma RenamedAt(files: map<nat, File>, n: nat)
    requires n + 1 !in files
    ensures var renamed := Rename(files, n, n + 1);
            && FileAt(renamed, n + 1) == FileAt(files, n) && FileAt(renamed, n) == [] == FileAt(files, n + 1)
            && forall m: nat | m != n && m != n + 1 :: FileAt(renamed, m) == FileAt(files, m)
  {
  }

  lemma RenameTopTwo(files: map<nat, File>, n: nat)
    requires n + 1 !in files
    ensures Retained(Rename(files, n, n + 1), n + 1) == Retained(files, n + 1)
  {
    var renamed := Rename(files, n, n + 1);
    RenamedAt(files, n);
    if n > 0 {
      RetainedSame(renamed, files, n - 1);
    }
    TopTwo(files, n);
    TopTwo(renamed, n);
    Slide(FileAt(files, n), Below(files, n));
  }

  lemma Slide(moved: File, rest: File)
    ensures moved + ([] + rest) == [] + (moved + rest)
  {
    assert [] + rest == rest && [] + (moved + rest) == moved + rest;
  }

  /** A rename into a free slot moves nothing in the reading order. */
  lemma {:induction false} RenameIntoFree(files: map<nat, File>, n: nat, oldest: nat)
    requires n < oldest && n + 1 !in files
    ensures Retained(Rename(files, n, n + 1), oldest) == Retained(files, oldest)
  {
    if oldest == n + 1 {
      RenameTopTwo(files, n);
    } else {
      RenameIntoFree(files, n, oldest - 1);
      RenamedAt(files, n);
    }
  }

  /** Nothing left the log, or the oldest file did. */
  ghost predicate Sheds(before: map<nat, File>, after: map<nat, File>, kept: nat) {
    || Retained(before, kept) == Retained(after, kept)
    || Retained(before, kept) == FileAt(before, kept) + Retained(after, kept)
  }

  lemma WithoutOldest(files: map<nat, File>, kept: nat)
    requires 0 < kept
    ensures Retained(files - {kept}, kept) == Retained(files, kept - 1)
  {
    var without := files - {kept};
    assert forall n: nat | n <= kept - 1 :: FileAt(without, n) == FileAt(files, n);
    RetainedSame(without, files, kept - 1);
    var rest := Retained(files, kept - 1);
    assert Retained(without, kept) == [] + rest;
  }

  lemma OntoOldestDrops(files: map<nat, File>, kept: nat)
    requires 0 < kept && kept - 1 in files
    ensures Retained(files, kept) == FileAt(files, kept) + Retained(Rename(files, kept - 1, kept), kept)
  {
    var without := files - {kept};
    assert Rename(files, kept - 1, kept) == Rename(without, kept - 1, kept);
    RenameIntoFree(without, kept - 1, kept);
    WithoutOldest(files, kept);
  }

  /** A rename onto the oldest file drops that file and moves nothing else. */
  lemma RenameOntoOldest(files: map<nat, File>, kept: nat)
    requires 0 < kept
    ensures Sheds(files, Rename(files, kept - 1, kept), kept)
  {
    if kept - 1 in files {
      OntoOldestDrops(files, kept);
    }
  }

  /** A shift drops the oldest file at most, however far it gets and however many failed
      ones went before: each rename goes into the slot the one before it left. */
  lemma {:induction false} ShiftSheds(files: map<nat, File>, n: nat, fails: Option<nat>, kept: nat)
    requires n < kept && (n + 1 == kept || n + 1 !in files)
    ensures Sheds(files, Shift(files, n, fails).0, kept)
    ensures n + 1 !in files ==> Retained(Shift(files, n, fails).0, kept) == Retained(files, kept)
    ensures Shift(files, n, fails).1 && kept != 1 && (0 < n || 1 !in files) ==> 1 !in Shift(files, n, fails).0
    ensures n == 0 ==> Shift(files, n, fails).0 == files
    decreases n
  {
    if n != 0 && fails != Some(n) {
      var renamed := Rename(files, n, n + 1);
      if n + 1 in files {
        RenameOntoOldest(files, kept);
      } else {
        RenameIntoFree(files, n, kept);
      }
      assert n !in renamed;
      ShiftSheds(renamed, n - 1, fails, kept);
    }
  }

  // ---- rotations that do not finish ------------------------------------------------------

  /** The numbered files there are. */
  function Archives(files: map<nat, File>, kept: nat): set<nat> {
    set n | n in files && 1 <= n <= kept
  }

  lemma RenameMoves(files: map<nat, File>, n: nat, kept: nat)
    requires 1 <= n < kept
    ensures var after := Archives(Rename(files, n, n + 1), kept);
            if n in files && n + 1 in files then |after| == |Archives(files, kept)| - 1 && after != {}
            else |after| == |Archives(files, kept)|
  {
    var before, after := Archives(files, kept), Archives(Rename(files, n, n + 1), kept);
    if n in files {
      assert |before - {n}| == |before| - 1;
      if n + 1 in files {
        assert n + 1 in after && after == before - {n};
      } else {
        assert after == before - {n} + {n + 1};
      }
    } else {
      assert after == before;
    }
  }

  /** A shift keeps the number of files, or drops the oldest one and keeps the others. */
  lemma {:induction false} ShiftCounts(files: map<nat, File>, n: nat, fails: Option<nat>, kept: nat)
    requires n < kept && (n + 1 == kept || n + 1 !in files)
    ensures var after := Shift(files, n, fails).0;
            || (|Archives(after, kept)| == |Archives(files, kept)| && Retained(files, kept) == Retained(after, kept))
            || (|Archives(after, kept)| == |Archives(files, kept)| - 1 && Archives(after, kept) != {}
                && Retained(files, kept) == FileAt(files, kept) + Retained(after, kept))
    ensures n + 1 !in files ==> |Archives(Shift(files, n, fails).0, kept)| == |Archives(files, kept)|
    decreases n
  {
    if n != 0 && fails != Some(n) {
      var renamed := Rename(files, n, n + 1);
      RenameMoves(files, n, kept);
      if n in files && n + 1 in files {
        OntoOldestDrops(files, kept);
      } else {
        RenameKeeps(files, n, kept);
      }
      assert n !in renamed;
      ShiftCounts(renamed, n - 1, fails, kept);
      ShiftSheds(renamed, n - 1, fails, kept);
    }
  }

  lemma RenameKeeps(files: map<nat, File>, n: nat, kept: nat)
    requires n < kept && (n !in files || n + 1 !in files)
    ensures Retained(Rename(files, n, n + 1), kept) == Retained(files, kept)
  {
    if n in files {
      RenameIntoFree(files, n, kept);
    }
  }

  /** The files after rotations that each stop at one of their renames. */
  function Unfinished(files: map<nat, File>, kept: nat, stops: seq<nat>): map<nat, File>
    requires 0 < kept
  {
    if stops == [] then files
    else Shift(Unfinished(files, kept, stops[..|stops| - 1]), kept - 1, Some(stops[|stops| - 1])).0
  }

  function Joined(lost: seq<File>): File {
    if lost == [] then [] else Joined(lost[..|lost| - 1]) + lost[|lost| - 1]
  }

  /** However many rotations stop half way, and wherever they stop, they lose from the old end
      and at most one file less than may be kept. */
  lemma UnfinishedLoseFew(files: map<nat, File>, kept: nat, stops: seq<nat>) returns (lost: seq<File>)
    requires 0 < kept
    ensures var after := Unfinished(files, kept, stops);
            && Retained(files, kept) == Joined(lost) + Retained(after, kept)
            && |lost| == |Archives(files, kept)| - |Archives(after, kept)|
            && |lost| < kept
  {
    lost := LostFiles(files, kept, stops);
    ArchivesBounded(files, kept);
  }

  lemma LoseOne(lost: seq<File>, oldest: File, rest: File)
    ensures Joined(lost + [oldest]) + rest == Joined(lost) + (oldest + rest)
  {
    assert (lost + [oldest])[..|lost|] == lost;
  }

  /** `lost`, oldest first, is what `after` lacks of `before`, one file for each slot given up. */
  ghost predicate Loses(before: map<nat, File>, after: map<nat, File>, kept: nat, lost: seq<File>) {
    && Retained(before, kept) == Joined(lost) + Retained(after, kept)
    && |lost| == |Archives(before, kept)| - |Archives(after, kept)|
    && (lost != [] ==> Archives(after, kept) != {})
  }

  /** One more rotation that stops: it loses nothing, or the oldest file. */
  lemma LosesNext(files: map<nat, File>, before: map<nat, File>, kept: nat, stop: nat, lost: seq<File>)
    returns (more: seq<File>)
    requires 0 < kept && Loses(files, before, kept, lost)
    ensures Loses(files, Shift(before, kept - 1, Some(stop)).0, kept, more)
  {
    var after := Shift(before, kept - 1, Some(stop)).0;
    ShiftCounts(before, kept - 1, Some(stop), kept);
    more := lost;
    if |Archives(after, kept)| != |Archives(before, kept)| {
      LoseOne(lost, FileAt(before, kept), Retained(after, kept));
      more := lost + [FileAt(before, kept)];
    }
  }

  lemma {:induction false} LostFiles(files: map<nat, File>, kept: nat, stops: seq<nat>) returns (lost: seq<File>)
    requires 0 < kept
    ensures Loses(files, Unfinished(files, kept, stops), kept, lost)
  {
    if stops == [] {
      lost := [];
      assert Joined(lost) + Retained(files, kept) == Retained(files, kept);
    } else {
      var n := |stops| - 1;
      lost := LostFiles(files, kept, stops[..n]);
      lost := LosesNext(files, Unfinished(files, kept, stops[..n]), kept, stops[n], lost);
    }
  }

  lemma ArchivesBounded(files: map<nat, File>, kept: nat)
    ensures |Archives(files, kept)| <= kept
  {
    SlotCount(Archives(files, kept), kept);
  }

  lemma {:induction false} SlotCount(slots: set<nat>, kept: nat)
    requires forall n | n in slots :: 1 <= n <= kept
    ensures |slots| <= kept
  {
    if kept == 0 {
      assert slots == {};
    } else {
      SlotCount(slots - {kept}, kept - 1);
    }
  }

  // ---- every rotation ----------------------------------------------------------------------

  /** A rotation, finished or not, drops the oldest file at most. */
  lemma RotateSheds(log: Log, kept: nat, fails: Option<nat>, reopen: OpenFault)
    ensures Sheds(log.files, Rotate(log, kept, fails, reopen).0.files, kept)
    ensures Rotate(log, kept, fails, reopen).0.history == log.history
  {
    var (shifted, ok) := Shift(log.files, if kept == 0 then 0 else kept - 1, fails);
    if kept != 0 {
      ShiftSheds(log.files, kept - 1, fails, kept);
    }
    if ok && fails != Some(0) && (kept != 0 || 0 in shifted) {
      var cleared := if kept == 0 then shifted - {0} else Rename(shifted, 0, 1);
      if kept == 0 {
        assert Retained(shifted, 0) == FileAt(shifted, 0) + Retained(cleared, 0);
      } else if kept == 1 {
        RenameOntoOldest(shifted, 1);
      } else {
        RenameIntoFree(shifted, 0, kept);
      }
      var after := Open(log.(files := cleared, open := false), reopen).0;
      assert FileAt(cleared, 0) == [];
      RetainedSame(after.files, cleared, kept);
    }
  }

  lemma {:induction false} RetainedEnds(files: map<nat, File>, oldest: nat, w: Write)
    ensures Retained(files[0 := FileAt(files, 0) + [w]], oldest) == Retained(files, oldest) + [w]
  {
    var grown := files[0 := FileAt(files, 0) + [w]];
    if oldest != 0 {
      RetainedEnds(files, oldest - 1, w);
      assert FileAt(files, oldest) + (Retained(files, oldest - 1) + [w]) ==
          FileAt(files, oldest) + Retained(files, oldest - 1) + [w];
    } else {
      assert Retained(grown, 0) == FileAt(files, 0) + [w] + [];
      assert Retained(files, 0) == FileAt(files, 0) + [];
    }
  }

  ghost predicate Faithful(log: Log, kept: nat) {
    Suffix(Retained(log.files, kept), log.history)
  }

  lemma AppendFaithful(log: Log, kept: nat, w: Write)
    requires Faithful(log, kept)
    ensures Faithful(Append(log, w), kept)
  {
    RetainedEnds(log.files, kept, w);
    var dropped: File :| log.history == dropped + Retained(log.files, kept);
    assert log.history + [w] == dropped + (Retained(log.files, kept) + [w]);
  }

  lemma OpenFaithful(log: Log, kept: nat, fault: OpenFault)
    requires Faithful(log, kept)
    ensures Faithful(Open(log, fault).0, kept)
  {
    if !fault.Unreached? {
      var found := log.(files := log.files[0 := FileAt(log.files, 0)]);
      RetainedSame(found.files, log.files, kept);
      AppendFaithful(found, kept, Mend);
    }
  }

  lemma RotateFaithful(log: Log, kept: nat, fails: Option<nat>, reopen: OpenFault)
    requires Faithful(log, kept)
    ensures Faithful(Rotate(log, kept, fails, reopen).0, kept)
  {
    RotateSheds(log, kept, fails, reopen);
    var after := Retained(Rotate(log, kept, fails, reopen).0.files, kept);
    SuffixSelf(after);
    SuffixSuffix(after, Retained(log.files, kept), log.history);
  }

  lemma HandleFaithful(log: Log, limits: Limits, line: Bytes, f: Faults)
    requires Faithful(log, limits.keptFiles)
    ensures Faithful(Handle(log, limits, line, f).0, limits.keptFiles)
  {
    var kept := limits.keptFiles;
    OpenFaithful(log, kept, f.open);
    var (held, reached) := if log.open then (log, true) else Open(log, f.open);
    RotateFaithful(held, kept, f.shift, f.reopen);
    var ready := Ready(log, limits, |line| + 1, f).0;
    AppendFaithful(ready, kept, Event(line));
    if f.cut.Some? {
      AppendFaithful(ready, kept, Torn(line[..if f.cut.value < |line| then f.cut.value else |line|]));
    }
  }

  /** Whatever failed, half-done rotations included, the retained files read oldest to
      newest are a suffix of everything that was ever in the log. */
  lemma {:induction false} RetainedIsSuffix(log: Log, limits: Limits, inbox: seq<Message>)
    requires Starting(log, limits)
    ensures Suffix(Retained(Run(log, limits, inbox).files, limits.keptFiles), Run(log, limits, inbox).history)
  {
    if inbox == [] {
      SuffixSelf(log.history);
    } else {
      var last := inbox[|inbox| - 1];
      RetainedIsSuffix(log, limits, inbox[..|inbox| - 1]);
      HandleFaithful(Run(log, limits, inbox[..|inbox| - 1]), limits, last.line, last.faults);
    }
  }

  // ---- events stand on lines of their own -------------------------------------------------

  /** Each whole event of the file starts where a line starts. */
  ghost predicate Aligned(file: File) {
    file == [] ||
    (Aligned(file[..|file| - 1]) && (file[|file| - 1].Event? ==> Settled(Content(file[..|file| - 1]))))
  }

  ghost predicate AllAligned(files: map<nat, File>) {
    forall n | n in files :: Aligned(files[n])
  }

  lemma AppendAligned(log: Log, w: Write)
    requires AllAligned(log.files) && (w.Event? ==> Settled(Content(FileAt(log.files, 0))))
    ensures AllAligned(Append(log, w).files)
  {
    var file := FileAt(log.files, 0);
    assert (file + [w])[..|file|] == file;
  }

  lemma {:induction false} ShiftAligned(files: map<nat, File>, n: nat, fails: Option<nat>)
    requires AllAligned(files)
    ensures AllAligned(Shift(files, n, fails).0)
    decreases n
  {
    if n != 0 && fails != Some(n) {
      ShiftAligned(Rename(files, n, n + 1), n - 1, fails);
    }
  }

  lemma OpenAligned(log: Log, fault: OpenFault)
    requires AllAligned(log.files)
    ensures AllAligned(Open(log, fault).0.files)
  {
    var found := log.(files := log.files[0 := FileAt(log.files, 0)]);
    AppendAligned(found, Mend);
  }

  lemma RotateAligned(log: Log, kept: nat, fails: Option<nat>, reopen: OpenFault)
    requires AllAligned(log.files)
    ensures AllAligned(Rotate(log, kept, fails, reopen).0.files)
  {
    var (shifted, ok) := Shift(log.files, if kept == 0 then 0 else kept - 1, fails);
    ShiftAligned(log.files, if kept == 0 then 0 else kept - 1, fails);
    var cleared := if kept == 0 then shifted - {0} else Rename(shifted, 0, 1);
    OpenAligned(log.(files := cleared, open := false), reopen);
  }

  lemma OpenMeasured(log: Log, fault: OpenFault)
    requires Measured(log)
    ensures Measured(Open(log, fault).0)
  {
    ContentAppend(FileAt(log.files, 0), Mend);
  }

  lemma ReadyAligned(log: Log, limits: Limits, bytes: nat, f: Faults)
    requires AllAligned(log.files) && Measured(log)
    ensures var ready := Ready(log, limits, bytes, f).0; AllAligned(ready.files) && Measured(ready)
  {
    OpenAligned(log, f.open);
    OpenMeasured(log, f.open);
    var held := if log.open then log else Open(log, f.open).0;
    RotateAligned(held, limits.keptFiles, f.shift, f.reopen);
    var kept := limits.keptFiles;
    var shifted := Shift(held.files, if kept == 0 then 0 else kept - 1, f.shift).0;
    var cleared := if kept == 0 then shifted - {0} else Rename(shifted, 0, 1);
    OpenMeasured(held.(files := cleared, open := false), f.reopen);
  }

  lemma HandleAligned(log: Log, limits: Limits, line: Bytes, f: Faults)
    requires AllAligned(log.files) && Measured(log)
    ensures var after := Handle(log, limits, line, f).0; AllAligned(after.files) && Measured(after)
  {
    ReadyAligned(log, limits, |line| + 1, f);
    var (ready, ok) := Ready(log, limits, |line| + 1, f);
    if ok && ready.open {
      AppendAligned(ready, Event(line));
      EventSettles(ready.files[0], line);
      if f.cut.Some? {
        AppendAligned(ready, Torn(line[..if f.cut.value < |line| then f.cut.value else |line|]));
      }
    }
  }

  lemma {:induction false} FoundIsAligned(file: File)
    requires forall i | 0 <= i < |file| :: file[i].Found?
    ensures Aligned(file)
  {
    if file != [] {
      FoundIsAligned(file[..|file| - 1]);
    }
  }

  lemma {:induction false} RunAligned(log: Log, limits: Limits, inbox: seq<Message>)
    requires Starting(log, limits)
    ensures AllAligned(Run(log, limits, inbox).files) && Measured(Run(log, limits, inbox))
  {
    if inbox == [] {
      forall n | n in log.files ensures Aligned(log.files[n]) {
        FoundIsAligned(log.files[n]);
      }
    } else {
      var last, prefix := inbox[|inbox| - 1], inbox[..|inbox| - 1];
      RunAligned(log, limits, prefix);
      HandleAligned(Run(log, limits, prefix), limits, last.line, last.faults);
    }
  }

  /** `line` stands at `from` as one line: it starts the bytes or follows a newline, a
      newline follows it, and none is inside it. */
  ghost predicate IsLine(bytes: Bytes, from: nat, line: Bytes) {
    && from + |line| < |bytes|
    && Settled(bytes[..from]) && bytes[from..from + |line|] == line && bytes[from + |line|] == NEWLINE
    && NEWLINE !in line
  }

  lemma LinePersists(bytes: Bytes, more: Bytes, from: nat, line: Bytes)
    requires IsLine(bytes, from, line)
    ensures IsLine(bytes + more, from, line)
  {
    assert (bytes + more)[..from] == bytes[..from];
    assert (bytes + more)[from..from + |line|] == bytes[from..from + |line|];
  }

  lemma NewLine(before: Bytes, line: Bytes)
    requires Settled(before) && NEWLINE !in line
    ensures IsLine(before + (line + [NEWLINE]), |before|, line)
  {
    var all := before + (line + [NEWLINE]);
    assert all[..|before|] == before;
    assert all[|before|..|before| + |line|] == line;
  }

  lemma {:induction false} AlignedIsLine(file: File, i: nat)
    requires Aligned(file) && i < |file| && file[i].Event? && NEWLINE !in file[i].line
    ensures IsLine(Content(file), |Content(file[..i])|, file[i].line)
  {
    var n := |file| - 1;
    var front := file[..n];
    if i == n {
      NewLine(Content(front), file[n].line);
    } else {
      assert front[..i] == file[..i];
      AlignedIsLine(front, i);
      LinePersists(Content(front), BytesOf(file[n]), |Content(file[..i])|, file[i].line);
    }
  }

  /** Whatever failed, every retained event whose write succeeded is one line of its file. */
  lemma RetainedEventsAreLines(log: Log, limits: Limits, inbox: seq<Message>, n: nat, i: nat)
    requires Starting(log, limits)
    requires n in Run(log, limits, inbox).files && i < |Run(log, limits, inbox).files[n]|
    requires var w := Run(log, limits, inbox).files[n][i]; w.Event? && NEWLINE !in w.line
    ensures var file := Run(log, limits, inbox).files[n];
            IsLine(Content(file), |Content(file[..i])|, file[i].line)
  {
    RunAligned(log, limits, inbox);
    AlignedIsLine(Run(log, limits, inbox).files[n], i);
  }

  // ---- the counters --------------------------------------------------------------------

  function Events(file: File): nat {
    if file == [] then 0 else Events(file[..|file| - 1]) + if file[|file| - 1].Event? then 1 else 0
  }

  lemma EventsAppend(file: File, w: Write)
    ensures Events(file + [w]) == Events(file) + if w.Event? then 1 else 0
  {
    assert (file + [w])[..|file|] == file;
  }

  lemma ReadyReports(log: Log, limits: Limits, bytes: nat, f: Faults)
    ensures Events(Ready(log, limits, bytes, f).0.history) == Events(log.history)
  {
    EventsAppend(log.history, Mend);
    var held := if log.open then log else Open(log, f.open).0;
    RotateSheds(held, limits.keptFiles, f.shift, f.reopen);
  }

  lemma PutReports(ready: Log, line: Bytes, cut: Option<nat>)
    ensures var (after, ok) := Put(ready, line, cut);
            && Events(after.history) == Events(ready.history) + (if ok then 1 else 0)
            && (ok ==> after.history != [] && after.history[|after.history| - 1] == Event(line))
  {
    if cut.None? {
      EventsAppend(ready.history, Event(line));
    } else {
      EventsAppend(ready.history, Torn(line[..if cut.value < |line| then cut.value else |line|]));
    }
  }

  lemma PutIfReadyReports(ready: (Log, bool), line: Bytes, cut: Option<nat>)
    ensures var (after, ok) := PutIfReady(ready, line, cut);
            && Events(after.history) == Events(ready.0.history) + (if ok then 1 else 0)
            && (ok ==> after.history != [] && after.history[|after.history| - 1] == Event(line))
  {
    PutReports(ready.0, line, cut);
  }

  /** Each message the writer reports written put exactly its own event at the end of the
      log; each it reports failed put none there. */
  lemma HandleReports(log: Log, limits: Limits, line: Bytes, f: Faults)
    ensures var (after, ok) := Handle(log, limits, line, f);
            && Events(after.history) == Events(log.history) + (if ok then 1 else 0)
            && (ok ==> after.history != [] && after.history[|after.history| - 1] == Event(line))
  {
    ReadyReports(log, limits, |line| + 1, f);
    PutIfReadyReports(Ready(log, limits, |line| + 1, f), line, f.cut);
  }
}
