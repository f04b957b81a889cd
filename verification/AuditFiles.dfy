/** The audit log's files (`audit.rs` `Writer`): opening, mending a torn line, rotating and
    appending, with a failure possible at every call to the file system. */
module AuditFiles {
  import opened JsonValue

  newtype Byte = x: int | 0 <= x < 256

  type Bytes = seq<Byte>

  const NEWLINE: Byte := 10

  /** One piece of a file: what stood there at the start, a whole event, the part of an
      event a failed write left, or the newline that ends such a part. */
  datatype Write =
    | Found(bytes: Bytes)
    | Event(line: Bytes)
    | Torn(part: Bytes)
    | Mend

  function BytesOf(w: Write): Bytes {
    match w
    case Found(bytes) => bytes
    case Event(line) => line + [NEWLINE]
    case Torn(part) => part
    case Mend => [NEWLINE]
  }

  /** A file, as the pieces written to it. */
  type File = seq<Write>

  function Content(file: File): Bytes {
    if file == [] then [] else Content(file[..|file| - 1]) + BytesOf(file[|file| - 1])
  }

  /** Empty, or ended by a newline: what comes next starts a line. */
  predicate Settled(bytes: Bytes) {
    bytes == [] || bytes[|bytes| - 1] == NEWLINE
  }

  datatype Limits = Limits(maxFileBytes: nat, keptFiles: nat)

  /** `files` holds `audit.log` under 0 and `audit.log.n` under n; `open` and `size` are the
      writer's own. `history` is everything that was ever in the log, oldest first. */
  datatype Log = Log(files: map<nat, File>, open: bool, size: nat, history: File)

  function FileAt(files: map<nat, File>, n: nat): File {
    if n in files then files[n] else []
  }

  function Append(log: Log, w: Write): Log {
    log.(files := log.files[0 := FileAt(log.files, 0) + [w]], history := log.history + [w])
  }

  // ---- opening ---------------------------------------------------------------------

  /** How far `open` gets: not to the file; to the file but not to its last byte; or, when
      a line is torn, not through mending it. */
  datatype OpenFault = NoFault | Unreached | Uninspected | Unmended

  function Open(log: Log, fault: OpenFault): (Log, bool) {
    if fault.Unreached? then (log, false)
    else
      var found := log.(files := log.files[0 := FileAt(log.files, 0)]);
      if fault.Uninspected? then (found, false)
      else if Settled(Content(found.files[0])) then
        (found.(open := true, size := |Content(found.files[0])|), true)
      else if fault.Unmended? then (found, false)
      else (Append(found, Mend).(open := true, size := |Content(found.files[0])| + 1), true)
  }

  // ---- rotating --------------------------------------------------------------------

  function Rename(files: map<nat, File>, from: nat, to: nat): map<nat, File> {
    if from in files then (files - {from})[to := files[from]] else files
  }

  /** The renames n to n + 1, ..., 1 to 2, as far as the one that fails. */
  function Shift(files: map<nat, File>, n: nat, fails: Option<nat>): (map<nat, File>, bool)
    decreases n
  {
    if n == 0 then (files, true)
    else if fails == Some(n) then (files, false)
    else Shift(Rename(files, n, n + 1), n - 1, fails)
  }

  function Rotate(log: Log, kept: nat, fails: Option<nat>, reopen: OpenFault): (Log, bool) {
    var (shifted, ok) := Shift(log.files, if kept == 0 then 0 else kept - 1, fails);
    var closed := log.(files := shifted, open := false);
    if !ok || fails == Some(0) || (kept == 0 && 0 !in shifted) then (closed, false)
    else Open(closed.(files := if kept == 0 then shifted - {0} else Rename(shifted, 0, 1)), reopen)
  }

  // ---- writing ---------------------------------------------------------------------

  /** The failures one event meets: in opening, in the rename of file `shift`, in reopening
      after a rotation, in the write itself after some of its bytes. */
  datatype Faults = Faults(open: OpenFault, shift: Option<nat>, reopen: OpenFault, cut: Option<nat>)

  function Ready(log: Log, limits: Limits, bytes: nat, f: Faults): (Log, bool) {
    var (held, ok) := if log.open then (log, true) else Open(log, f.open);
    if !ok then (held, false)
    else if held.size + bytes > limits.maxFileBytes then Rotate(held, limits.keptFiles, f.shift, f.reopen)
    else (held, true)
  }

  function Put(log: Log, line: Bytes, cut: Option<nat>): (Log, bool) {
    match cut
    case None => (Append(log, Event(line)).(size := log.size + |line| + 1), true)
    case Some(k) => (Append(log, Torn(line[..if k < |line| then k else |line|])), false)
  }

  function PutIfReady(ready: (Log, bool), line: Bytes, cut: Option<nat>): (Log, bool) {
    if !ready.1 || !ready.0.open then (ready.0, false) else Put(ready.0, line, cut)
  }

  function Attempt(log: Log, limits: Limits, line: Bytes, f: Faults): (Log, bool) {
    if |line| + 1 > limits.maxFileBytes then (log, false)
    else PutIfReady(Ready(log, limits, |line| + 1, f), line, f.cut)
  }

  /** One message of the writer's loop: a failed write closes the file. */
  function Handle(log: Log, limits: Limits, line: Bytes, f: Faults): (Log, bool) {
    var (after, ok) := Attempt(log, limits, line, f);
    (if ok then after else after.(open := false), ok)
  }

  datatype Message = Message(line: Bytes, faults: Faults)

  function Run(log: Log, limits: Limits, inbox: seq<Message>): Log {
    if inbox == [] then log
    else Handle(Run(log, limits, inbox[..|inbox| - 1]), limits, inbox[|inbox| - 1].line, inbox[|inbox| - 1].faults).0
  }

  /** The retained files read oldest to newest. */
  function Retained(files: map<nat, File>, oldest: nat): File {
    FileAt(files, oldest) + if oldest == 0 then [] else Retained(files, oldest - 1)
  }

  /** A writer about to start on a directory of files it did not write. */
  ghost predicate Starting(log: Log, limits: Limits) {
    && !log.open
    && log.history == Retained(log.files, limits.keptFiles)
    && forall n, i | n in log.files && 0 <= i < |log.files[n]| :: log.files[n][i].Found?
  }
}
