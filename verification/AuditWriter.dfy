/** The audit log's writer thread (`audit.rs` `Writer`), updating its file and the
    directory in place. What each call does is `AuditFiles`; what every run keeps is
    `AuditFileLaws` and `AuditRetention`. */
module AuditWriter {
  import opened JsonValue
  import opened AuditFiles
  import AuditRetention

  class Writer {
    const limits: Limits
    var files: map<nat, File>
    var open: bool
    var size: nat
    ghost var history: File

    ghost function State(): Log
      reads this
    {
      Log(files, open, size, history)
    }

    /** A writer over a directory it has not opened yet. */
    constructor (limits: Limits, directory: map<nat, File>)
      requires forall n, i | n in directory && 0 <= i < |directory[n]| :: directory[n][i].Found?
      ensures this.limits == limits && files == directory && Starting(State(), limits)
    {
      this.limits := limits;
      files, open, size := directory, false, 0;
      history := Retained(directory, limits.keptFiles);
    }

    method OpenFile(fault: OpenFault) returns (ok: bool)
      modifies this
      ensures (State(), ok) == Open(old(State()), fault)
    {
      if fault.Unreached? {
        return false;
      }
      files := files[0 := FileAt(files, 0)];
      if fault.Uninspected? {
        return false;
      }
      var length := |Content(files[0])|;
      if length > 0 && Content(files[0])[length - 1] != NEWLINE {
        if fault.Unmended? {
          return false;
        }
        files, history := files[0 := files[0] + [Mend]], history + [Mend];
        length := length + 1;
      }
      open, size := true, length;
      return true;
    }

    method RotateFiles(fails: Option<nat>, reopen: OpenFault) returns (ok: bool)
      modifies this
      ensures (State(), ok) == Rotate(old(State()), limits.keptFiles, fails, reopen)
    {
      open := false;
      ghost var before, top := files, if limits.keptFiles == 0 then 0 else limits.keptFiles - 1;
      var n: nat := if limits.keptFiles == 0 then 0 else limits.keptFiles - 1;
      while n > 0
        invariant Shift(files, n, fails) == Shift(before, top, fails)
        invariant State() == old(State()).(files := files, open := false)
      {
        if fails == Some(n) {
          return false;
        }
        files := Rename(files, n, n + 1);
        n := n - 1;
      }
      if fails == Some(0) || (limits.keptFiles == 0 && 0 !in files) {
        return false;
      }
      files := if limits.keptFiles == 0 then files - {0} else Rename(files, 0, 1);
      ok := OpenFile(reopen);
    }

    method WriteLine(line: Bytes, f: Faults) returns (ok: bool)
      modifies this
      ensures (State(), ok) == Attempt(old(State()), limits, line, f)
    {
      var bytes := |line| + 1;
      if bytes > limits.maxFileBytes {
        return false;
      }
      ok := true;
      if !open {
        ok := OpenFile(f.open);
        if !ok {
          return;
        }
      }
      if size + bytes > limits.maxFileBytes {
        ok := RotateFiles(f.shift, f.reopen);
      }
      if !ok || !open {
        return false;
      }
      match f.cut {
        case None =>
          files, history := files[0 := FileAt(files, 0) + [Event(line)]], history + [Event(line)];
          size := size + bytes;
          return true;
        case Some(k) =>
          var part := line[..if k < |line| then k else |line|];
          files, history := files[0 := FileAt(files, 0) + [Torn(part)]], history + [Torn(part)];
          return false;
      }
    }

    /** The writer's loop over the lines of its inbox: each line is written or counted as
        failed, and the counters tell how many events reached the log. */
    method Serve(inbox: seq<Message>) returns (written: nat, failures: nat)
      modifies this
      ensures State() == Run(old(State()), limits, inbox)
      ensures written + failures == |inbox|
      ensures AuditRetention.Events(history) == AuditRetention.Events(old(history)) + written
    {
      written, failures := 0, 0;
      assert inbox[..0] == [];
      for i := 0 to |inbox|
        invariant State() == Run(old(State()), limits, inbox[..i])
        invariant written + failures == i
        invariant AuditRetention.Events(history) == AuditRetention.Events(old(history)) + written
      {
        assert inbox[..i + 1][..i] == inbox[..i];
        AuditRetention.HandleReports(State(), limits, inbox[i].line, inbox[i].faults);
        var ok := WriteLine(inbox[i].line, inbox[i].faults);
        if ok {
          written := written + 1;
        } else {
          open := false;
          failures := failures + 1;
        }
      }
      assert inbox[..|inbox|] == inbox;
    }
  }
}
