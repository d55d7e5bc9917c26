/**
 The append-only audit artifact: one open capture at a time, which either becomes
 a section of the file or is rolled back. The operating system may fail any call.
 */
module ArtifactWriter {
  import opened Bytes
  import opened SqlRedactor
  import SqlProcessor

  /** How one call to the operating system turns out; a failed write may have written a part. */
  datatype Outcome = Success | Fault(written: nat)

  /** Calls that will all succeed. */
  predicate NoFault(script: seq<Outcome>)
  {
    forall o | o in script :: o.Success?
  }

  /** `p` written over `c` from position `at` on; a gap is filled with zeros. */
  function Overwritten(c: bytes, at: nat, p: bytes): bytes
  {
    var padded := Resized(c, if |c| < at then at else |c|);
    padded[..at] + p + (if at + |p| <= |c| then c[at + |p|..] else [])
  }

  function Resized(c: bytes, size: nat): (r: bytes)
    ensures |r| == size
  {
    if size <= |c| then c[..size] else c + seq(size - |c|, _ => 0)
  }

  class OsFile {
    var content: bytes
    var position: nat
    /** The outcomes of the coming calls, in order; after the last one every call succeeds. */
    var script: seq<Outcome>

    method NextOutcome() returns (o: Outcome)
      modifies this`script
      ensures NoFault(old(script)) ==> o.Success? && NoFault(script)
    {
      if script == [] {
        o := Success;
      } else {
        o, script := script[0], script[1..];
      }
    }

    method Write(p: bytes) returns (n: nat, ok: bool)
      modifies this
      ensures n <= |p| && (ok ==> n == |p|)
      ensures content == Overwritten(old(content), old(position), p[..n])
      ensures old(position) == |old(content)| ==> content == old(content) + p[..n]
      ensures position == old(position) + n
      ensures NoFault(old(script)) ==> ok && NoFault(script)
    {
      var o := NextOutcome();
      ok := o.Success?;
      n := if ok || o.written > |p| then |p| else o.written;
      content := Overwritten(content, position, p[..n]);
      position := position + n;
    }

    method Truncate(size: nat) returns (ok: bool)
      modifies this
      ensures content == if ok then Resized(old(content), size) else old(content)
      ensures position == old(position)
      ensures NoFault(old(script)) ==> ok && NoFault(script)
    {
      var o := NextOutcome();
      ok := o.Success?;
      if ok {
        content := Resized(content, size);
      }
    }

    method Close() returns (ok: bool)
      modifies this`script
      ensures NoFault(old(script)) ==> ok && NoFault(script)
    {
      var o := NextOutcome();
      ok := o.Success?;
    }

    method Seek(offset: nat) returns (ok: bool)
      modifies this
      ensures content == old(content)
      ensures position == if ok then offset else old(position)
      ensures NoFault(old(script)) ==> ok && NoFault(script)
    {
      var o := NextOutcome();
      ok := o.Success?;
      if ok {
        position := offset;
      }
    }
  }

  /** bufio.Writer: a fixed-size buffer in front of the file, with an error that sticks. */
  class BufferedWriter {
    const file: OsFile
    const capacity: nat
    var buffer: bytes
    var failed: bool

    constructor (file: OsFile, capacity: nat)
      requires capacity > 0
      ensures this.file == file && this.capacity == capacity && buffer == [] && !failed
    {
      this.file, this.capacity, this.buffer, this.failed := file, capacity, [], false;
    }

    /** The file is positioned at its end, so that everything written is appended. */
    predicate Appending()
      reads this, file
    {
      0 < capacity && |buffer| <= capacity && file.position == |file.content|
    }

    /** What the file will hold once the buffer is flushed. */
    function Logical(): bytes
      reads this, file
    {
      file.content + buffer
    }

    method Reset()
      modifies this
      ensures buffer == [] && !failed
    {
      buffer, failed := [], false;
    }

    /** Whatever happens, bytes only move from the buffer to the end of the file. */
    method Flush() returns (ok: bool)
      requires Appending() || buffer == []
      modifies this, file
      ensures old(Appending()) ==> Appending()
      ensures Logical() == old(Logical()) && old(file.content) <= file.content
      ensures ok == !failed && (ok ==> buffer == [] && !old(failed))
      ensures old(buffer) == [] ==> buffer == [] && failed == old(failed) && unchanged(file)
      ensures NoFault(old(file.script)) ==> NoFault(file.script) && failed == old(failed)
    {
      if failed {
        return false;
      }
      if |buffer| == 0 {
        return true;
      }
      var n, written := file.Write(buffer);
      assert file.content == old(file.content) + buffer[..n];
      assert buffer[..n] + buffer[n..] == buffer;
      assert file.content + buffer[n..] == old(Logical());
      buffer := buffer[n..];
      failed := !written;
      ok := written;
    }

    /** Makes room for data that does not fit: past an empty buffer, or by filling and flushing it. */
    method Spill(data: bytes) returns (taken: nat)
      requires Appending() && !failed && |data| > capacity - |buffer|
      modifies this, file
      ensures Appending() && old(file.content) <= file.content
      ensures taken <= |data| && Logical() == old(Logical()) + data[..taken]
      ensures failed || taken > 0 || |buffer| < old(|buffer|)
      ensures NoFault(old(file.script)) ==> NoFault(file.script) && !failed
    {
      if |buffer| == 0 {
        var written;
        taken, written := file.Write(data);
        failed := !written;
        assert Logical() == old(Logical()) + data[..taken];
      } else {
        taken := capacity - |buffer|;
        buffer := buffer + data[..taken];
        assert Logical() == old(Logical()) + data[..taken];
        var _ := Flush();
      }
    }

    /** Of the data, exactly the first `n` bytes were taken over, even when the call fails. */
    method Write(data: bytes) returns (n: nat, ok: bool)
      requires Appending()
      modifies this, file
      ensures Appending() && old(file.content) <= file.content
      ensures n <= |data| && Logical() == old(Logical()) + data[..n]
      ensures ok == !failed && (ok ==> n == |data| && !old(failed))
      ensures NoFault(old(file.script)) ==> NoFault(file.script) && failed == old(failed)
    {
      n := 0;
      ghost var start := Logical();
      while |data| - n > capacity - |buffer| && !failed
        invariant Appending() && old(file.content) <= file.content
        invariant n <= |data| && Logical() == start + data[..n]
        invariant old(failed) ==> failed
        invariant NoFault(old(file.script)) ==> NoFault(file.script) && failed == old(failed)
        decreases !failed, |data| - n, |buffer|
      {
        ghost var at := n;
        var taken := Spill(data[n..]);
        n := n + taken;
        Extend(start, data, at, taken);
      }
      if failed {
        return n, false;
      }
      ghost var before := Logical();
      buffer := buffer + data[n..];
      assert Logical() == before + data[n..];
      assert data[n..][..|data| - n] == data[n..];
      Extend(start, data, n, |data| - n);
      n := |data|;
      ok := true;
    }
  }

  lemma Extend(start: bytes, data: bytes, at: nat, taken: nat)
    requires at + taken <= |data|
    ensures (start + data[..at]) + data[at..][..taken] == start + data[..at + taken]
  {
    assert data[..at] + data[at..][..taken] == data[..at + taken];
  }

  datatype Section = Section(offset: int, bytes: int)

  /** Consecutive sections, from one position to another. */
  predicate Tile(sections: seq<Section>, from: nat, to: nat)
  {
    if sections == [] then from == to
    else
      var last := sections[|sections| - 1];
      0 <= last.bytes && last.offset + last.bytes == to && from <= last.offset
          && Tile(sections[..|sections| - 1], from, last.offset)
  }

  /** Tiling sections cover every position once. */
  lemma {:induction false} TilesCoverOnce(sections: seq<Section>, from: nat, to: nat, p: nat) returns (i: nat)
    requires Tile(sections, from, to) && from <= p < to
    ensures i < |sections| && sections[i].offset <= p < sections[i].offset + sections[i].bytes
    ensures forall j | 0 <= j < |sections| && sections[j].offset <= p < sections[j].offset + sections[j].bytes :: j == i
    decreases |sections|
  {
    var n := |sections| - 1;
    var front, last := sections[..n], sections[n];
    forall j | 0 <= j < n ensures sections[j].offset + sections[j].bytes <= last.offset {
      TilesEndBefore(front, from, last.offset, j);
    }
    if last.offset <= p {
      i := n;
    } else {
      i := TilesCoverOnce(front, from, last.offset, p);
      forall j | 0 <= j < |sections| && sections[j].offset <= p < sections[j].offset + sections[j].bytes ensures j == i {
        if j < n {
          assert front[j] == sections[j];
        }
      }
    }
  }

  lemma {:induction false} TilesEndBefore(sections: seq<Section>, from: nat, to: nat, j: nat)
    requires Tile(sections, from, to) && j < |sections|
    ensures from <= sections[j].offset && 0 <= sections[j].bytes && sections[j].offset + sections[j].bytes <= to
    decreases |sections|
  {
    var n := |sections| - 1;
    if j < n {
      TilesEndBefore(sections[..n], from, sections[n].offset, j);
    }
  }

  datatype Error = None | Closed | CaptureActive | CaptureClosed | Unusable | RollbackFailed | Io

  class Writer {
    /** The file this writer was opened on; the field `file` is cleared when the writer closes. */
    ghost const disk: OsFile
    ghost const base: nat
    /** Everything up to the end of the last completed section, and those sections. */
    ghost var committed: bytes
    ghost var sections: seq<Section>

    var file: OsFile?
    var buffer: BufferedWriter?
    var offset: nat
    var active: Capture?
    var closed: bool
    var fatal: bool

    ghost predicate Valid()
      reads this, disk, buffer, active
    {
      && base <= |committed|
      && committed <= disk.content
      && Tile(sections, base, |committed|)
      && (fatal || closed ==> active == null)
      && (closed ==> file == null && buffer == null)
      && (!closed ==> file == disk && buffer != null && buffer.file == disk)
      && (!closed && !fatal ==> buffer.Appending() && offset == |buffer.Logical()|)
      && (!closed && (fatal || active == null) ==> buffer.buffer == [] && !buffer.failed)
      && (!closed && !fatal && active == null ==> disk.content == committed)
      && (active != null ==> active.owner == this && active.Open())
    }

    /** Opens at the end of whatever the file already holds. */
    constructor (file: OsFile, bufferBytes: int)
      requires file.position == |file.content|
      ensures Valid() && fresh(buffer) && disk == file
      ensures committed == file.content && sections == [] && base == |file.content|
      ensures !closed && !fatal && active == null
    {
      var buffered := new BufferedWriter(file, if bufferBytes <= 0 then 262144 else bufferBytes);
      this.file, this.buffer, this.offset := file, buffered, |file.content|;
      this.active, this.closed, this.fatal := null, false, false;
      this.disk, this.base, this.committed, this.sections := file, |file.content|, file.content, [];
    }

    method Begin(processor: SqlProcessor.Processor?) returns (capture: Capture?, err: Error)
      requires Valid()
      modifies this
      ensures Valid() && committed == old(committed) && sections == old(sections)
      ensures err == (if old(fatal) then Unusable else if old(closed) then Closed else if old(active) != null
          then CaptureActive else None)
      ensures err == None ==> fresh(capture) && active == capture && capture.stored == [] && capture.processor == processor
      ensures err != None ==> capture == null && active == old(active)
      ensures disk.content == old(disk.content) && buffer == old(buffer) && closed == old(closed)
    {
      capture := null;
      if fatal {
        return null, Unusable;
      }
      if closed || file == null || buffer == null {
        return null, Closed;
      }
      if active != null {
        return null, CaptureActive;
      }
      capture := new Capture(this, offset, processor);
      active := capture;
      err := None;
    }

    /** Rolls an open capture back: either the file is as it was before it, or the writer is out of use. */
    method AbortLocked(c: Capture) returns (err: Error)
      requires Valid()
      modifies this, disk, buffer, c
      ensures Valid() && committed == old(committed) && sections == old(sections)
      ensures old(active) != c ==> err == None && unchanged(this) && unchanged(disk) && unchanged(c)
      ensures old(active) == c ==> active == null && c.closed
      ensures old(active) == c ==> err == (if fatal then RollbackFailed else None)
      ensures old(active) == c && !fatal ==> disk.content == committed
      ensures closed == old(closed) && buffer == old(buffer)
    {
      if active != c {
        return None;
      }
      active := null;
      c.closed := true;
      buffer.Reset();
      var truncated := file.Truncate(c.start);
      assert Resized(old(disk.content), |committed|) == committed;
      var sought := file.Seek(c.start);
      if !truncated || !sought {
        fatal := true;
        return RollbackFailed;
      }
      offset := c.start;
      err := None;
    }

    method Close() returns (clean: bool)
      requires Valid()
      modifies this, disk, buffer, active
      ensures Valid() && committed == old(committed) && sections == old(sections)
      ensures closed && active == null
      ensures clean && !old(closed) && !old(fatal) ==> disk.content == committed
    {
      if closed {
        return !fatal;
      }
      var aborted := None;
      if active != null {
        aborted := AbortLocked(active);
      }
      closed := true;
      var flushed := buffer.Flush();
      var released := file.Close();
      buffer, file := null, null;
      clean := !fatal && aborted == None && flushed && released;
    }
  }

  class Capture {
    const owner: Writer
    const start: nat
    const processor: SqlProcessor.Processor?
    var bytes: nat
    var closed: bool
    /** What has been handed to the file so far. */
    ghost var stored: Bytes.bytes

    constructor (owner: Writer, start: nat, processor: SqlProcessor.Processor?)
      ensures this.owner == owner && this.start == start && this.processor == processor
      ensures bytes == 0 && !closed && stored == []
    {
      this.owner, this.start, this.processor := owner, start, processor;
      this.bytes, this.closed, this.stored := 0, false, [];
    }

    /** An open capture's bytes are the tail of what the file will hold. */
    ghost predicate Open()
      reads this, owner, owner.disk, owner.buffer
    {
      && !closed
      && owner.buffer != null && owner.buffer.file == owner.disk
      && start == |owner.committed|
      && bytes == |stored|
      && owner.buffer.Logical() == owner.committed + stored
    }

    /** A call on a capture that is no longer open leaves everything as it was. */
    twostate predicate Untouched()
      reads this, owner, owner.disk, owner.buffer, processor, if processor == null then null else processor.redactor
    {
      && unchanged(this) && unchanged(owner) && unchanged(owner.disk)
      && (owner.buffer != null ==> unchanged(owner.buffer))
      && (processor != null ==> unchanged(processor) && (processor.redactor != null ==> unchanged(processor.redactor)))
    }

    method WriteStored(data: Bytes.bytes) returns (err: Error)
      requires owner.Valid() && owner.active == this
      modifies this, owner, owner.disk, owner.buffer
      ensures owner.Valid() && owner.active == this && owner.committed == old(owner.committed)
          && owner.sections == old(owner.sections)
      ensures owner.buffer == old(owner.buffer)
      ensures err == None <==> (data == [] || !owner.buffer.failed)
      ensures err == None ==> stored == old(stored) + data
      ensures err != None ==> owner.buffer.failed
    {
      if |data| == 0 {
        assert stored + data == stored;
        return None;
      }
      var n, ok := owner.buffer.Write(data);
      bytes := bytes + n;
      owner.offset := owner.offset + n;
      stored := stored + data[..n];
      assert ok ==> data[..n] == data;
      err := if ok then None else Io;
    }

    method Write(data: Bytes.bytes) returns (err: Error)
      requires owner.Valid() && (owner.active == this && processor != null ==> processor.Valid())
      modifies this, owner, owner.disk, owner.buffer, processor, if processor == null then null else processor.redactor
      ensures owner.Valid() && owner.committed == old(owner.committed) && owner.sections == old(owner.sections)
      ensures old(owner.active) != this ==> Untouched()
      ensures old(owner.active) == this && processor != null ==>
          processor.Valid() && (processor.redactor == old(processor.redactor) || fresh(processor.redactor))
      ensures data == [] ==>
          err == None && unchanged(this)
              && (old(owner.active) == this && processor != null ==>
                    unchanged(processor) && processor.State() == old(processor.State()))
      ensures data != [] && (old(closed) || old(owner.active) != this) ==> err == CaptureClosed
      ensures err == None && data != [] ==> owner.active == this
      ensures err == None && data != [] ==> stored == old(stored) + (if processor == null then data else old(processor.Emits(data)))
      ensures err == None && data != [] && processor != null ==> processor.Advanced(old(processor.State()), data)
      ensures owner.active == old(owner.active) && owner.buffer == old(owner.buffer)
    {
      if |data| == 0 {
        return None;
      }
      if closed || owner.active != this {
        return CaptureClosed;
      }
      if processor != null {
        var out := processor.Write(data);
        err := WriteStored(out);
      } else {
        err := WriteStored(data);
      }
    }

    /** Flushes the buffer and turns what was stored into a section. */
    method Commit() returns (section: Section, err: Error)
      requires owner.Valid() && owner.active == this
      modifies this, owner, owner.disk, owner.buffer
      ensures owner.Valid() && owner.active == null && owner.buffer == old(owner.buffer)
      ensures err != None ==> owner.committed == old(owner.committed) && owner.sections == old(owner.sections)
      ensures err == None ==>
        && closed && owner.active == null && !owner.fatal && !owner.closed
        && stored == old(stored)
        && section == Section(|old(owner.committed)|, |stored|)
        && owner.committed == old(owner.committed) + stored
        && owner.sections == old(owner.sections) + [section]
        && owner.disk.content == owner.committed
    {
      section := Section(0, 0);
      var ok := owner.buffer.Flush();
      if !ok {
        var _ := owner.AbortLocked(this);
        return section, Io;
      }
      assert owner.disk.content == owner.buffer.Logical();
      section := Section(start, bytes);
      owner.active := null;
      closed := true;
      owner.committed := owner.committed + stored;
      ghost var tiles := owner.sections + [section];
      assert tiles[..|tiles| - 1] == owner.sections;
      owner.sections := tiles;
      err := None;
    }

    /** Commits the capture as the next section of the file, or rolls it back. */
    method Complete() returns (section: Section, err: Error)
      requires owner.Valid() && (owner.active == this && processor != null ==> processor.Valid())
      modifies this, owner, owner.disk, owner.buffer, processor, if processor == null then null else processor.redactor
      ensures owner.Valid() && owner.buffer == old(owner.buffer)
      ensures old(owner.active) != this ==> Untouched()
      ensures owner.active == if old(owner.active) == this then null else old(owner.active)
      ensures old(closed) || old(owner.active) != this ==> err == CaptureClosed
      ensures err != None ==> owner.committed == old(owner.committed) && owner.sections == old(owner.sections)
      ensures err == None ==>
        && closed && owner.active == null && !owner.fatal && !owner.closed
        && stored == old(stored) + (if processor == null then [] else old(processor.Finishes()))
        && section == Section(|old(owner.committed)|, |stored|)
        && owner.committed == old(owner.committed) + stored
        && owner.sections == old(owner.sections) + [section]
        && owner.disk.content == owner.committed
      ensures old(owner.active) == this && processor != null ==> processor.Valid()
      ensures processor != null ==> processor.redactor == old(processor.redactor)
      ensures err == None && processor != null ==> processor.Finished(old(processor.State()))
    {
      section := Section(0, 0);
      if closed || owner.active != this {
        return section, CaptureClosed;
      }
      if processor != null {
        var out := processor.Flush();
        var flushed := WriteStored(out);
        if flushed != None {
          var _ := owner.AbortLocked(this);
          return section, flushed;
        }
      } else {
        assert stored + [] == stored;
      }
      section, err := Commit();
    }

    method Abort() returns (err: Error)
      requires owner.Valid()
      modifies this, owner, owner.disk, owner.buffer
      ensures owner.Valid() && owner.committed == old(owner.committed) && owner.sections == old(owner.sections)
      ensures owner.active == (if old(owner.active) == this then null else old(owner.active)) && owner.buffer == old(owner.buffer)
      ensures old(owner.active) == this && !owner.fatal ==> owner.disk.content == owner.committed
      ensures old(owner.active) != this ==> unchanged(owner) && unchanged(owner.disk) && unchanged(this)
    {
      err := owner.AbortLocked(this);
    }
  }

  /** The bounds check made before a section is read back. */
  predicate SectionAvailable(size: nat, section: Section)
  {
    0 <= section.offset && 0 <= section.bytes && section.offset <= size && section.bytes <= size - section.offset
  }

  /** A call on the writer, or on the capture that was begun `at`-th. */
  datatype Command =
    | Begin(sql: bool, redact: bool, limit: int)
    | Write(at: nat, data: bytes) | Complete(at: nat) | Abort(at: nat)
    | Close

  ghost function Parts(c: Capture): set<object>
    reads c.processor
  {
    {c} + if c.processor == null then {} else {c.processor} + if c.processor.redactor == null then {} else {c.processor.redactor}
  }

  ghost function Footprint(captures: seq<Capture>): set<object>
    reads set c | c in captures && c.processor != null :: c.processor
  {
    set c, o | c in captures && o in Parts(c) :: o
  }

  /** The captures that callers of the writer may still hold; at most one of them is open. */
  ghost predicate Held(w: Writer, captures: seq<Capture>)
    reads w, w.active, if w.active == null then null else w.active.processor,
      if w.active == null || w.active.processor == null then null else w.active.processor.redactor
  {
    && (w.active != null ==> w.active in captures) && ActiveOk(w)
    && forall c | c in captures :: c.owner == w
  }

  lemma Covers(captures: seq<Capture>)
    ensures forall c | c in captures :: Parts(c) <= Footprint(captures)
  {
  }

  /** The parts of captures are the old ones, but for redactors that are new. */
  twostate lemma StillCovers(captures: seq<Capture>)
    requires forall c | c in captures && c.processor != null && c.processor.redactor != null ::
        fresh(c.processor.redactor) || old(c.processor.redactor) == c.processor.redactor
    ensures fresh(Footprint(captures) - old(Footprint(captures)))
  {
    forall o | o in Footprint(captures) && o !in old(Footprint(captures))
      ensures fresh(o)
    {
      var c :| c in captures && o in Parts(c);
      assert old(Parts(c)) <= old(Footprint(captures));
    }
  }

  /** What the open capture needs. */
  ghost predicate ActiveOk(w: Writer)
    reads w, w.active, if w.active == null then null else w.active.processor,
      if w.active == null || w.active.processor == null then null else w.active.processor.redactor
  {
    w.active != null && w.active.processor != null ==> w.active.processor.Valid()
  }

  /** One call on a capture, open or not. */
  method Call(w: Writer, c: Capture, command: Command)
    requires w.Valid() && c.owner == w && ActiveOk(w)
    modifies w, w.disk, w.buffer, Parts(c)
    ensures w.Valid() && ActiveOk(w) && (w.active == null || w.active == old(w.active)) && w.buffer == old(w.buffer)
    ensures old(w.sections) <= w.sections && old(w.committed) <= w.committed
    ensures c.processor != null && c.processor.redactor != null ==>
              fresh(c.processor.redactor) || old(c.processor.redactor) == c.processor.redactor
  {
    hide Run, Feed, Step, Machine.Valid, Tile;
    if command.Write? {
      var _ := c.Write(command.data);
    } else if command.Complete? {
      var _, _ := c.Complete();
    } else if command.Abort? {
      var _ := c.Abort();
    }
  }

  /** A new capture brings only new parts. */
  twostate lemma NewCovers(captures: seq<Capture>, new c: Capture)
    requires fresh(c) && (c.processor != null ==> fresh(c.processor) && c.processor.redactor == null)
    requires forall k | k in captures && k.processor != null :: unchanged(k.processor)
    ensures fresh(Footprint(captures + [c]) - old(Footprint(captures)))
  {
    forall o | o in Footprint(captures + [c]) && o !in old(Footprint(captures))
      ensures fresh(o)
    {
      var k :| k in captures + [c] && o in Parts(k);
      if k in captures {
        assert o in old(Parts(k));
      }
    }
  }

  /** Begins a capture, with or without a processor of its own. */
  method BeginNext(w: Writer, captures: seq<Capture>, sql: bool, redact: bool, limit: int) returns (next: seq<Capture>)
    requires w.Valid() && Held(w, captures)
    modifies w
    ensures w.Valid() && Held(w, next) && w.buffer == old(w.buffer) && w.sections == old(w.sections)
        && w.committed == old(w.committed)
    ensures fresh(Footprint(next) - old(Footprint(captures)))
  {
    hide Run, Feed, Step, Machine.Valid, Tile, Writer.Valid, Footprint;
    var processor: SqlProcessor.Processor? := null;
    if sql {
      processor := new SqlProcessor.Processor(redact, limit);
    }
    var capture, err := w.Begin(processor);
    if capture == null {
      next := captures;
      StillCovers(captures);
    } else {
      next := captures + [capture];
      NewCovers(captures, capture);
    }
  }

  /** Closes the writer under the captures that are held. */
  method CloseAll(w: Writer, captures: seq<Capture>)
    requires w.Valid() && Held(w, captures)
    modifies w, w.disk, w.buffer, w.active
    ensures w.Valid() && Held(w, captures) && w.buffer == null && w.sections == old(w.sections) && w.committed == old(w.committed)
  {
    hide Run, Feed, Step, Machine.Valid, Tile;
    var _ := w.Close();
  }

  /** Carries out one call on the writer or on any capture, open or not. */
  method Apply(w: Writer, captures: seq<Capture>, command: Command) returns (next: seq<Capture>)
    requires w.Valid() && Held(w, captures)
    modifies w, w.disk, w.buffer, Footprint(captures)
    ensures w.Valid() && Held(w, next) && (w.buffer == null || w.buffer == old(w.buffer))
    ensures old(w.sections) <= w.sections && old(w.committed) <= w.committed
    ensures fresh(Footprint(next) - old(Footprint(captures)))
  {
    hide Writer.Valid, SqlProcessor.Processor.Valid, Footprint;
    next := captures;
    Covers(captures);
    match command {
      case Begin(sql, redact, limit) =>
        next := BeginNext(w, captures, sql, redact, limit);
        return;
      case Close => CloseAll(w, captures);
      case _ =>
        if command.at < |captures| {
          Call(w, captures[command.at], command);
        }
    }
    StillCovers(captures);
  }

  /**
   Any sequence of calls, on the open capture and on ones that are not open any more, with any
   system failures: the writer stays in order, the sections it has handed out tile the file
   from where it was opened, and the bytes of a handed-out section never change again.
   */
  method Drive(w: Writer, commands: seq<Command>)
    requires w.Valid() && w.active == null
    modifies w, w.disk, w.buffer
    ensures w.Valid()
    ensures old(w.sections) <= w.sections && Tile(w.sections, w.base, |w.committed|)
    ensures old(w.committed) <= w.committed <= w.disk.content
    ensures !w.fatal && !w.closed && w.active == null ==> w.disk.content == w.committed && w.offset == |w.disk.content|
  {
    hide Run, Feed, Step, Machine.Valid, Tile;
    var captures: seq<Capture> := [];
    for i := 0 to |commands|
      invariant w.Valid() && Held(w, captures) && (w.buffer == null || w.buffer == old(w.buffer))
      invariant old(w.sections) <= w.sections && old(w.committed) <= w.committed
      invariant fresh(Footprint(captures))
    {
      captures := Apply(w, captures, commands[i]);
    }
  }
}
