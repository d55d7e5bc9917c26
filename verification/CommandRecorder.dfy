/**
 The recorder of one terminal session: what is typed becomes commands, each is written to
 the command file once its output is over, and to the audit sink. Any of the three outlets
 may fail at any time.
 */
module CommandRecorder {
  import opened Bytes
  import opened Strings
  import opened ArtifactWriter

  datatype Option<T> = Nothing | Some(value: T)

  datatype Event = Event(number: nat, command: string, preview: bytes, offset: nat, size: nat, exact: bool, sinkWritten: bool)

  // ----------------------------------------------------------------- typing

  /** The line being typed, whether its end will be a secret, and the commands so far. */
  datatype Typing = Typing(line: string, secret: bool, commands: seq<string>)

  function TabsToSpaces(s: string): string
  {
    seq(|s|, i requires 0 <= i < |s| => if s[i] == '\t' then ' ' else s[i])
  }

  /** The command a finished line stands for, if any. */
  function CommandOf(line: string): string
  {
    Trim(TabsToSpaces(line))
  }

  /** One key. Enter ends the line; a blank line is nothing, and the answer to a password prompt is dropped. */
  function Press(t: Typing, key: char, redact: string -> string): Typing
  {
    if key == '\r' || key == '\n' then
      var command := CommandOf(t.line);
      if command == "" then t.(line := "")
      else if t.secret then t.(line := "", secret := false)
      else t.(line := "", commands := t.commands + [redact(command)])
    else if key == '\U{0008}' || key == '\U{007F}' then
      if t.line == "" then t else t.(line := t.line[..|t.line| - 1])
    else if key == '\t' || key >= ' ' then t.(line := t.line + [key])
    else t
  }

  function Type(t: Typing, keys: string, redact: string -> string): Typing
    decreases |keys|
  {
    if keys == "" then t else Type(Press(t, keys[0], redact), keys[1..], redact)
  }

  /** How the keys arrive in pieces does not matter. */
  lemma {:induction false} TypeConcat(t: Typing, a: string, b: string, redact: string -> string)
    ensures Type(t, a + b, redact) == Type(Type(t, a, redact), b, redact)
    decreases |a|
  {
    if a == "" {
      assert a + b == b;
    } else {
      assert (a + b)[0] == a[0] && (a + b)[1..] == a[1..] + b;
      TypeConcat(Press(t, a[0], redact), a[1..], b, redact);
    }
  }

  lemma TypePush(t: Typing, keys: string, key: char, redact: string -> string)
    ensures Type(t, keys + [key], redact) == Press(Type(t, keys, redact), key, redact)
  {
    TypeConcat(t, keys, [key], redact);
    assert Type(Press(Type(t, keys, redact), key, redact), "", redact) == Press(Type(t, keys, redact), key, redact);
  }

  // -------------------------------------------------------------------- logs

  function Commands(file: seq<Event>): seq<string>
  {
    seq(|file|, i requires 0 <= i < |file| => file[i].command)
  }

  function Sections(file: seq<Event>): seq<Section>
  {
    seq(|file|, i requires 0 <= i < |file| => Section(file[i].offset, file[i].size))
  }

  /** The commands that reached the sink, in order. */
  function Picked(commands: seq<string>, delivered: seq<bool>): seq<string>
    requires |commands| == |delivered|
  {
    if commands == [] then []
    else
      var n := |commands| - 1;
      Picked(commands[..n], delivered[..n]) + if delivered[n] then [commands[n]] else []
  }

  lemma {:induction false} AllPicked(commands: seq<string>, delivered: seq<bool>)
    requires |commands| == |delivered| && forall i | 0 <= i < |delivered| :: delivered[i]
    ensures Picked(commands, delivered) == commands
  {
    if commands != [] {
      AllPicked(commands[..|commands| - 1], delivered[..|commands| - 1]);
      assert commands[..|commands| - 1] + [commands[|commands| - 1]] == commands;
    }
  }

  /** Every command once and in order, numbered from 1, each section starting where the last ended. */
  predicate Ordered(file: seq<Event>, current: Option<Event>, accepted: seq<string>, offset: nat)
  {
    && (forall i | 0 <= i < |file| :: file[i].number == i + 1)
    && Tile(Sections(file), 0, if current.Some? then current.value.offset else offset)
    && match current
       case Nothing => Commands(file) == accepted
       case Some(e) =>
         && e.number == |file| + 1
         && Commands(file) + [e.command] == accepted
         && e.offset + e.size == offset
  }

  /** The sink holds the delivered commands, in the same order, each once. */
  predicate Delivered(file: seq<Event>, current: Option<Event>, delivered: seq<bool>, sink: seq<string>)
  {
    && |delivered| == |file|
    && sink == Picked(Commands(file), delivered) + if current.Some?
        && current.value.sinkWritten then [current.value.command] else []
  }

  /** The two logs together; without a lost write every filed command reached the sink. */
  predicate Logs(hasSink: bool, file: seq<Event>, current: Option<Event>, accepted: seq<string>, offset: nat, number: nat,
                 delivered: seq<bool>, sink: seq<string>, lost: bool, failed: bool)
  {
    && Ordered(file, current, accepted, offset)
    && number == |accepted|
    && Delivered(file, current, delivered, sink)
    && (!hasSink ==> sink == [])
    && (hasSink && !lost ==> forall i | 0 <= i < |delivered| :: delivered[i])
    && (lost ==> failed)
  }

  lemma LogsGrow(hasSink: bool, file: seq<Event>, e: Event, accepted: seq<string>, offset: nat, number: nat,
                 delivered: seq<bool>, sink: seq<string>, lost: bool, failed: bool, more: nat, failed': bool)
    requires Logs(hasSink, file, Some(e), accepted, offset, number, delivered, sink, lost, failed) && (failed ==> failed')
    ensures Logs(hasSink, file, Some(e.(size := e.size + more)), accepted, offset + more, number, delivered, sink, lost, failed')
  {
  }

  /** With nothing pending and nothing lost, the logs agree. */
  lemma LogsAtRest(hasSink: bool, file: seq<Event>, accepted: seq<string>, offset: nat, number: nat,
                   delivered: seq<bool>, sink: seq<string>, lost: bool, failed: bool)
    requires Logs(hasSink, file, Nothing, accepted, offset, number, delivered, sink, lost, failed)
    ensures Commands(file) == accepted && Tile(Sections(file), 0, offset)
    ensures lost ==> failed
    ensures forall i | 0 <= i < |file| :: file[i].number == i + 1
    ensures hasSink && !lost ==> sink == Commands(file)
  {
    if hasSink && !lost {
      AllPicked(Commands(file), delivered);
    }
  }

  lemma LogsFail(hasSink: bool, file: seq<Event>, current: Option<Event>, accepted: seq<string>, offset: nat, number: nat,
                 delivered: seq<bool>, sink: seq<string>, lost: bool, failed: bool)
    requires Logs(hasSink, file, current, accepted, offset, number, delivered, sink, lost, failed)
    ensures Logs(hasSink, file, current, accepted, offset, number, delivered, sink, lost, true)
    ensures lost ==> failed
  {
  }

  /** Every filed command's output lies before `limit`. */
  predicate Filed(file: seq<Event>, limit: nat)
  {
    forall i | 0 <= i < |file| :: file[i].offset + file[i].size <= limit
  }

  /** The pending command goes to the file. */
  lemma OrderedMoves(file: seq<Event>, e: Event, e': Event, accepted: seq<string>, offset: nat)
    requires Ordered(file, Some(e), accepted, offset)
    requires e'.number == e.number && e'.command == e.command && e'.offset == e.offset && e'.size == e.size
    ensures Ordered(file + [e'], Nothing, accepted, offset)
  {
    var next := file + [e'];
    assert Commands(next) == Commands(file) + [e.command];
    var ss := Sections(next);
    assert ss[..|ss| - 1] == Sections(file);
  }

  lemma DeliveredMoves(file: seq<Event>, e: Event, e': Event, delivered: seq<bool>, sink: seq<string>, reached: bool)
    requires Delivered(file, Some(e), delivered, sink) && e'.command == e.command
    ensures Delivered(file + [e'], Nothing, delivered + [reached],
                      if reached && !e.sinkWritten then sink + [e.command] else if reached then sink
                          else Picked(Commands(file), delivered))
  {
    var next := file + [e'];
    var ds := delivered + [reached];
    assert Commands(next)[..|file|] == Commands(file) && ds[..|file|] == delivered;
  }

  // ----------------------------------------------------------------- outputs

  /** The part of the output that belongs to a command. */
  function Slice(observed: bytes, e: Event): bytes
  {
    if e.offset + e.size <= |observed| then observed[e.offset..e.offset + e.size] else []
  }

  /** The output of each command, the pending one last. */
  function Outputs(file: seq<Event>, current: Option<Event>, observed: bytes): seq<bytes>
  {
    seq(|file|, i requires 0 <= i < |file| => Slice(observed, file[i]))
    + if current.Some? then [Slice(observed, current.value)] else []
  }

  function Blanks(n: nat): seq<bytes>
  {
    seq(n, _ => [])
  }

  /** More output for the last command. */
  function Extended(outputs: seq<bytes>, data: bytes): seq<bytes>
  {
    if outputs == [] then [] else outputs[..|outputs| - 1] + [outputs[|outputs| - 1] + data]
  }

  lemma OutputsMove(file: seq<Event>, e: Event, e': Event, observed: bytes)
    requires e'.offset == e.offset && e'.size == e.size
    ensures Outputs(file + [e'], Nothing, observed) == Outputs(file, Some(e), observed) == Outputs(file, Some(e'), observed)
  {
    assert Slice(observed, e) == Slice(observed, e');
  }

  lemma OutputsStart(file: seq<Event>, e: Event, observed: bytes)
    requires e.size == 0
    ensures Outputs(file, Some(e), observed) == Outputs(file, Nothing, observed) + Blanks(1)
  {
    assert Slice(observed, e) == [];
    assert Blanks(1) == [[]];
    assert Outputs(file, Nothing, observed) + [[]] == Outputs(file, Some(e), observed);
  }

  lemma OutputsGrow(file: seq<Event>, e: Event, accepted: seq<string>, observed: bytes, more: bytes)
    requires Ordered(file, Some(e), accepted, |observed|)
    ensures Outputs(file, Some(e.(size := e.size + |more|)), observed + more) == Extended(Outputs(file, Some(e), observed), more)
  {
    var all := observed + more;
    forall i | 0 <= i < |file|
      ensures Slice(all, file[i]) == Slice(observed, file[i])
    {
      TilesEndBefore(Sections(file), 0, e.offset, i);
      assert Sections(file)[i] == Section(file[i].offset, file[i].size);
      assert all[..|observed|] == observed;
    }
    assert all[e.offset..e.offset + e.size + |more|] == observed[e.offset..e.offset + e.size] + more;
  }

  lemma OutputsCount(file: seq<Event>, current: Option<Event>, accepted: seq<string>, offset: nat, observed: bytes)
    requires Ordered(file, current, accepted, offset)
    ensures |Outputs(file, current, observed)| == |accepted|
  {
    assert |Commands(file)| == |file|;
  }

  lemma BlanksAdd(a: nat, b: nat, outputs: seq<bytes>)
    ensures outputs + Blanks(a) + Blanks(b) == outputs + Blanks(a + b)
    ensures outputs + Blanks(0) == outputs
  {
  }

  /** Writes that will all succeed. */
  predicate Works(script: seq<bool>)
  {
    forall i | 0 <= i < |script| :: script[i]
  }

  const PREVIEW_BYTES: nat := 4096

  class Recorder {
    /** Redaction of commands; stripping, trimming and redaction of previews; recognition of password prompts. */
    const redact: string -> string
    const finish: bytes -> bytes
    const prompts: bytes -> bool
    const hasSink: bool
    ghost const disk: OsFile

    var fileOpen: bool
    var file: seq<Event>
    var sink: seq<string>
    /** Outcomes of the coming writes to the command file and to the sink; after the last, all succeed. */
    var fileScript: seq<bool>
    var sinkScript: seq<bool>
    var output: BufferedWriter?
    var outputOffset: nat
    var number: nat
    var line: string
    var current: Option<Event>
    var sensitivePrompt: bool

    /** The commands that were taken up, which of the filed ones reached the sink, and what the output file was given. */
    ghost var accepted: seq<string>
    ghost var delivered: seq<bool>
    ghost var observed: bytes
    /** Some write failed; some write to the sink failed. */
    ghost var failed: bool
    ghost var lost: bool

    /** The two logs. */
    ghost predicate LogsOk()
      reads this`file, this`current, this`accepted, this`outputOffset, this`number, this`delivered, this`sink,
          this`lost, this`failed
    {
      Logs(hasSink, file, current, accepted, outputOffset, number, delivered, sink, lost, failed)
    }

    /** The output: everything filed is in the file, whose bytes are the first of those observed. */
    ghost predicate OutputOk()
      reads this`output, this`fileOpen, this`observed, this`outputOffset, this`file, disk, output
    {
      && (output != null ==> output.file == disk && output.Appending() && output.Logical() == observed)
      && (output == null && fileOpen ==> observed == [])
      && |observed| == outputOffset
      && disk.content <= observed
      && Filed(file, |disk.content|)
    }

    ghost predicate Valid()
      reads this, disk, output
    {
      LogsOk() && OutputOk()
    }

    /** No coming write will fail. */
    ghost predicate NoFaults()
      reads this`fileScript, this`sinkScript, this`output, disk, output
    {
      && LogsWork()
      && NoFault(disk.script) && (output != null ==> !output.failed)
    }

    /** No coming write to the sink or to the command file will fail. */
    ghost predicate LogsWork()
      reads this`fileScript, this`sinkScript
    {
      Works(fileScript) && Works(sinkScript)
    }

    constructor (redact: string -> string, finish: bytes -> bytes, prompts: bytes -> bool, hasSink: bool,
        output: BufferedWriter, keepsOutput: bool, fileScript: seq<bool>, sinkScript: seq<bool>)
      requires output.capacity > 0 && output.file.content == [] && output.file.position == 0 && output.buffer == []
          && !output.failed
      ensures Valid() && !failed && accepted == [] && observed == []
          && this.output == (if keepsOutput then output else null) && fileOpen
      ensures line == "" && !sensitivePrompt && this.redact == redact && this.hasSink == hasSink
    {
      this.redact, this.finish, this.prompts, this.hasSink := redact, finish, prompts, hasSink;
      this.disk, this.output := output.file, if keepsOutput then output else null;
      this.fileOpen, this.file, this.sink, this.fileScript, this.sinkScript := true, [], [], fileScript, sinkScript;
      this.outputOffset, this.number, this.line, this.current, this.sensitivePrompt := 0, 0, "", Nothing, false;
      this.accepted, this.delivered, this.observed, this.failed, this.lost := [], [], [], false, false;
    }

    method FileWrites() returns (ok: bool)
      modifies this`fileScript, this`failed
      ensures failed == (old(failed) || !ok) && ok == (old(fileScript) == [] || old(fileScript)[0])
      ensures fileScript == if old(fileScript) == [] then [] else old(fileScript)[1..]
      ensures Works(old(fileScript)) ==> Works(fileScript) && ok
    {
      ok := fileScript == [] || fileScript[0];
      fileScript := if fileScript == [] then [] else fileScript[1..];
      failed := failed || !ok;
    }

    method SinkWrites() returns (ok: bool)
      modifies this`sinkScript, this`failed, this`lost
      ensures failed == (old(failed) || !ok) && lost == (old(lost) || !ok)
      ensures ok == (old(sinkScript) == [] || old(sinkScript)[0])
      ensures sinkScript == if old(sinkScript) == [] then [] else old(sinkScript)[1..]
      ensures Works(old(sinkScript)) ==> Works(sinkScript) && ok
    {
      ok := sinkScript == [] || sinkScript[0];
      sinkScript := if sinkScript == [] then [] else sinkScript[1..];
      failed, lost := failed || !ok, lost || !ok;
    }

    method FlushOutput() returns (ok: bool)
      requires Valid()
      modifies this`failed, disk, output
      ensures Valid() && failed == (old(failed) || !ok)
      ensures ok && output != null ==> disk.content == observed
      ensures old(disk.content) <= disk.content
      ensures old(NoFaults()) ==> NoFaults() && ok
    {
      if output == null {
        return true;
      }
      ok := output.Flush();
      failed := failed || !ok;
      assert Filed(file, |old(disk.content)|);
    }

    /** The output of each command taken up. */
    ghost function Heard(): seq<bytes>
      reads this`file, this`current, this`observed
    {
      Outputs(file, current, observed)
    }

    /** A command is pending, unless there has been none. */
    ghost predicate Going()
      reads this`current, this`accepted
    {
      current.Some? <==> accepted != []
    }

    /** New commands start without output; those before keep theirs. */
    twostate predicate OnlyNew()
      reads this
    {
      && |old(accepted)| <= |accepted| && Heard() == old(Heard()) + Blanks(|accepted| - |old(accepted)|)
      && (!failed && old(Going()) ==> Going())
    }

    /** What no step changes: the commands taken up, the output seen, and what is in the file and in the sink. */
    twostate predicate Kept()
      reads this
    {
      && accepted == old(accepted) && observed == old(observed)
      && old(file) <= file && old(sink) <= sink
    }

    /** The record was written: the command moves to the file, and to the sink if it is not there yet. */
    method Deliver(e: Event) returns (ok: bool)
      requires LogsOk() && current == Some(e)
      modifies this`current, this`file, this`sink, this`sinkScript, this`failed, this`lost, this`delivered
      ensures LogsOk() && Kept() && current.Nothing? && file == old(file) + [e]
      ensures failed == (old(failed) || !ok)
      ensures old(LogsWork()) ==> LogsWork() && ok
    {
      hide Works, Ordered, Delivered;
      OrderedMoves(file, e, e, accepted, outputOffset);
      NotWritten(file, e, delivered, sink);
      ok := true;
      if hasSink && !e.sinkWritten {
        ok := SinkWrites();
        DeliveredMoves(file, e, e, delivered, sink, ok);
        if ok {
          sink := sink + [e.command];
        }
        delivered := delivered + [ok];
      } else {
        DeliveredMoves(file, e, e, delivered, sink, e.sinkWritten);
        delivered := delivered + [e.sinkWritten];
      }
      file := file + [e];
      current := Nothing;
    }

    /** Files the pending command: its output first, then its record, then the sink. */
    method FlushCurrent() returns (ok: bool)
      requires Valid()
      modifies this`current, this`file, this`sink, this`fileScript, this`sinkScript, this`failed, this`lost,
          this`delivered, disk, output
      ensures Valid() && Kept() && old(disk.content) <= disk.content
      ensures ok ==> current.Nothing? && failed == old(failed)
      ensures !ok ==> failed || !fileOpen
      ensures old(failed) ==> failed
      ensures old(current).Nothing? ==> ok && file == old(file)
      ensures old(current).Some? && file != old(file) ==>
          file == old(file) + [old(current).value.(preview := finish(old(current).value.preview))]
      ensures old(current).Some? && current.Nothing? ==> file != old(file)
      ensures Heard() == old(Heard()) && (!ok && !failed ==> current.Some? == old(current).Some?)
      ensures old(NoFaults()) ==> NoFaults() && (fileOpen ==> ok)
    {
      hide Works, LogsOk, OutputOk, Outputs;
      if current.Nothing? {
        return true;
      }
      if !fileOpen {
        return false;
      }
      FinishPreview();
      OutputsMove(file, old(current).value, current.value, observed);
      ok := FlushOutput();
      if !ok {
        return;
      }
      ok := WriteRecord(current.value);
    }

    method FinishPreview()
      requires Valid() && current.Some?
      modifies this`current
      ensures Valid() && current == Some(old(current).value.(preview := finish(old(current).value.preview)))
    {
      hide Ordered, Delivered, Filed;
      var e := current.value;
      e := e.(preview := finish(e.preview));
      SamePending(file, current.value, e, accepted, outputOffset, delivered, sink);
      current := Some(e);
    }

    /** The output is in its file; the record follows, and then the sink. */
    method WriteRecord(e: Event) returns (ok: bool)
      requires Valid() && current == Some(e) && fileOpen && (output != null ==> disk.content == observed)
      modifies this`current, this`file, this`sink, this`fileScript, this`sinkScript, this`failed, this`lost, this`delivered
      ensures Valid() && Kept() && failed == (old(failed) || !ok)
      ensures if current.Nothing? then file == old(file) + [e] else !ok && current == Some(e) && file == old(file)
      ensures old(LogsWork()) ==> LogsWork() && ok
    {
      hide Works, Ordered, Delivered, Filed, BufferedWriter.Appending, BufferedWriter.Logical;
      ok := FileWrites();
      if ok {
        PendingFiled(file, e, accepted, outputOffset, |disk.content|);
        ok := Deliver(e);
      }
    }

    /** A command starts, where the output stands. */
    method Start(command: string, exact: bool)
      requires LogsOk() && current.Nothing?
      modifies this`current, this`number, this`accepted
      ensures LogsOk() && accepted == old(accepted) + [command]
      ensures current.Some? && current.value.command == command && !current.value.sinkWritten
      ensures Heard() == old(Heard()) + Blanks(1)
    {
      hide Delivered, Outputs;
      number := number + 1;
      var e := Event(number, command, [], outputOffset, 0, exact, false);
      StartDelivered(file, e, delivered, sink);
      OutputsStart(file, e, observed);
      accepted := accepted + [command];
      current := Some(e);
    }

    method SubmitLine()
      requires Valid()
      modifies this, disk, output
      ensures Valid() && output == old(output) && fileOpen == old(fileOpen) && observed == old(observed)
      ensures old(file) <= file && old(sink) <= sink && old(accepted) <= accepted && (old(failed) ==> failed)
      ensures var t := Press(Typing(old(line), old(sensitivePrompt), old(accepted)), '\n', redact);
              line == t.line && sensitivePrompt == t.secret && (fileOpen && !failed ==> accepted == t.commands)
      ensures fileOpen && old(NoFaults()) ==> NoFaults() && failed == old(failed)
      ensures OnlyNew()
    {
      hide Works, LogsOk, OutputOk, CommandOf, Outputs, Blanks;
      BlanksAdd(0, 1, Heard());
      var command := CommandOf(line);
      line := "";
      if command == "" {
        return;
      }
      if sensitivePrompt {
        sensitivePrompt := false;
        return;
      }
      command := redact(command);
      var ok := FlushCurrent();
      if !ok {
        return;
      }
      Start(command, false);
    }

    method PressKey(key: char)
      requires Valid()
      modifies this, disk, output
      ensures Valid() && output == old(output) && fileOpen == old(fileOpen) && observed == old(observed)
      ensures old(file) <= file && old(sink) <= sink && old(accepted) <= accepted && (old(failed) ==> failed)
      ensures var t := Press(Typing(old(line), old(sensitivePrompt), old(accepted)), key, redact);
              line == t.line && sensitivePrompt == t.secret && (fileOpen && !failed ==> accepted == t.commands)
      ensures fileOpen && old(NoFaults()) ==> NoFaults() && failed == old(failed)
      ensures OnlyNew()
    {
      hide Works, LogsOk, OutputOk, CommandOf, Outputs, Blanks;
      BlanksAdd(0, 1, Heard());
      if key == '\r' || key == '\n' {
        SubmitLine();
      } else if key == '\U{0008}' || key == '\U{007F}' {
        if |line| > 0 {
          line := line[..|line| - 1];
        }
      } else if key == '\t' {
        line := line + [key];
      } else {
        if key >= ' ' {
          line := line + [key];
        }
      }
    }

    /** Keys typed; with all outlets working, exactly the commands they spell are taken up. */
    method ObserveInput(keys: string)
      requires Valid()
      modifies this, disk, output
      ensures Valid() && output == old(output) && fileOpen == old(fileOpen) && observed == old(observed)
      ensures old(file) <= file && old(sink) <= sink && old(accepted) <= accepted && (old(failed) ==> failed)
      ensures var t := Type(Typing(old(line), old(sensitivePrompt), old(accepted)), keys, redact);
              line == t.line && sensitivePrompt == t.secret && (fileOpen && !failed ==> accepted == t.commands)
      ensures fileOpen && old(NoFaults()) ==> NoFaults() && failed == old(failed)
      ensures OnlyNew()
    {
      hide Works, LogsOk, OutputOk, Press, Type, Outputs, Blanks;
      BlanksAdd(0, 0, Heard());
      ghost var t0 := Typing(line, sensitivePrompt, accepted);
      TypeNothing(t0, redact);
      for n := 0 to |keys|
        invariant Valid() && output == old(output) && fileOpen == old(fileOpen) && observed == old(observed)
        invariant old(file) <= file && old(sink) <= sink && old(accepted) <= accepted && (old(failed) ==> failed)
        invariant var t := Type(t0, keys[..n], redact);
                  line == t.line && sensitivePrompt == t.secret && (fileOpen && !failed ==> accepted == t.commands)
        invariant fileOpen && old(NoFaults()) ==> NoFaults() && failed == old(failed)
        invariant OnlyNew()
      {
        ghost var before := |accepted|;
        assert keys[..n + 1] == keys[..n] + [keys[n]];
        TypePush(t0, keys[..n], keys[n], redact);
        PressLine(Typing(line, sensitivePrompt, accepted), Type(t0, keys[..n], redact), keys[n], redact);
        PressKey(keys[n]);
        BlanksAdd(before - |old(accepted)|, |accepted| - before, old(Heard()));
      }
      assert keys[..|keys|] == keys;
    }

    method MarkSensitivePrompt()
      requires Valid()
      modifies this`sensitivePrompt
      ensures Valid() && sensitivePrompt
    {
      sensitivePrompt := true;
    }

    /** The output writer takes over as much as it can. */
    method TakeOver(data: bytes) returns (written: nat, ok: bool)
      requires OutputOk() && output != null
      modifies this`outputOffset, this`observed, disk, output
      ensures OutputOk() && written <= |data| && (ok ==> written == |data|)
      ensures observed == old(observed) + data[..written] && outputOffset == old(outputOffset) + written
      ensures old(NoFaults()) ==> NoFaults() && ok
    {
      hide Filed;
      written, ok := output.Write(data);
      FiledGrows(file, |old(disk.content)|, |disk.content|);
      outputOffset := outputOffset + written;
      observed := observed + data[..written];
    }

    method StoreOutput(data: bytes) returns (ok: bool)
      requires Valid() && current.Some? && output != null
      modifies this`current, this`outputOffset, this`observed, this`failed, disk, output
      ensures Valid() && failed == (old(failed) || !ok)
      ensures current.Some? && current.value.preview == old(current).value.preview
      ensures old(observed) <= observed <= old(observed) + data && (ok ==> observed == old(observed) + data)
      ensures ok ==> Heard() == Extended(old(Heard()), data)
      ensures old(NoFaults()) ==> NoFaults() && ok
    {
      hide Works, Logs, OutputOk, Outputs, Extended, Ordered;
      assert Ordered(file, current, accepted, |observed|) by { OrderedNow(); }
      var written;
      written, ok := TakeOver(data);
      OutputsGrow(file, current.value, accepted, old(observed), data[..written]);
      LogsGrow(hasSink, file, current.value, accepted, old(outputOffset), number, delivered, sink, lost, failed,
          written, failed || !ok);
      failed := failed || !ok;
      current := Some(current.value.(size := current.value.size + written));
      assert ok ==> data[..written] == data;
    }

    lemma OrderedNow()
      requires Valid()
      ensures Ordered(file, current, accepted, |observed|)
    {
    }

    /** Output seen while a command is pending goes to the output file and counts as that command's. */
    method ObserveOutput(data: bytes)
      requires Valid()
      modifies this, disk, output
      ensures Valid() && output == old(output) && fileOpen == old(fileOpen) && line == old(line)
      ensures file == old(file) && sink == old(sink) && accepted == old(accepted) && (old(failed) ==> failed)
      ensures sensitivePrompt == (old(sensitivePrompt) || (data != [] && prompts(data)))
      ensures old(observed) <= observed <= old(observed) + data
      ensures old(current).Some? && output != null && !failed ==> observed == old(observed) + data
      ensures current.Some? == old(current).Some?
          && (current.Some? ==> |current.value.preview| <= PREVIEW_BYTES || current.value.preview == old(current).value.preview)
      ensures old(NoFaults()) ==> NoFaults() && failed == old(failed)
      ensures old(current).Nothing? || output == null ==> Heard() == old(Heard())
      ensures old(current).Some? && output != null && !failed ==> Heard() == Extended(old(Heard()), data)
    {
      hide Works, LogsOk, OutputOk, Outputs, Extended;
      if |data| == 0 {
        ExtendedByNothing(Heard());
        assert observed + data == observed;
        return;
      }
      if prompts(data) {
        sensitivePrompt := true;
      }
      if current.Nothing? {
        return;
      }
      if output != null {
        var ok := StoreOutput(data);
        if !ok {
          return;
        }
      }
      Preview(data);
    }

    /** The preview keeps the first bytes of the output. */
    method Preview(data: bytes)
      requires Valid() && current.Some?
      modifies this`current
      ensures Valid() && current.Some? && current.value == old(current).value.(preview := current.value.preview)
      ensures Heard() == old(Heard())
      ensures old(current).value.preview <= current.value.preview <= old(current).value.preview + data
      ensures |current.value.preview| == if |old(current).value.preview| >= PREVIEW_BYTES then |old(current).value.preview|
                                         else if |old(current).value.preview| + |data| <= PREVIEW_BYTES
                                             then |old(current).value.preview| + |data|
                                         else PREVIEW_BYTES
    {
      hide Works, Ordered, Delivered, Filed;
      var e := current.value;
      if |e.preview| >= PREVIEW_BYTES {
        return;
      }
      var remaining := PREVIEW_BYTES - |e.preview|;
      var text := if |data| > remaining then data[..remaining] else data;
      var e' := e.(preview := e.preview + text);
      SamePending(file, e, e', accepted, outputOffset, delivered, sink);
      current := Some(e');
    }

    method SendDirect(command: string) returns (ok: bool)
      requires LogsOk() && hasSink && current.Some? && current.value.command == command && !current.value.sinkWritten
      modifies this`current, this`sink, this`sinkScript, this`failed, this`lost
      ensures LogsOk() && (ok ==> sink == old(sink) + [command]) && (!ok ==> sink == old(sink) && failed)
          && (old(failed) ==> failed)
      ensures old(LogsWork()) ==> LogsWork() && ok && failed == old(failed)
      ensures current.Some? && Heard() == old(Heard())
    {
      hide Works, Ordered, Delivered;
      ok := SinkWrites();
      if ok {
        WriteDirect(file, current.value, accepted, outputOffset, delivered, sink);
        sink := sink + [command];
        current := Some(current.value.(sinkWritten := true));
      }
    }

    /** A command given as a whole; it reaches the sink at once. */
    method RecordDirect(text: string) returns (ok: bool)
      requires Valid()
      modifies this, disk, output
      ensures Valid() && output == old(output) && fileOpen == old(fileOpen) && observed == old(observed) && line == old(line)
      ensures sensitivePrompt == old(sensitivePrompt)
      ensures old(file) <= file && old(sink) <= sink && (old(failed) ==> failed)
      ensures accepted == old(accepted) || accepted == old(accepted) + [redact(Trim(text))]
      ensures ok ==> accepted == if Trim(text) == "" then old(accepted) else old(accepted) + [redact(Trim(text))]
      ensures ok && hasSink && Trim(text) != "" ==> |sink| > 0 && sink[|sink| - 1] == redact(Trim(text))
      ensures !ok ==> failed || !fileOpen
      ensures fileOpen && old(NoFaults()) ==> NoFaults() && ok && failed == old(failed)
      ensures OnlyNew()
    {
      hide Works, LogsOk, OutputOk, Trim, Outputs, Blanks;
      BlanksAdd(0, 1, Heard());
      var command := Trim(text);
      if command == "" {
        return true;
      }
      command := redact(command);
      ok := FlushCurrent();
      if !ok {
        return;
      }
      Start(command, true);
      if hasSink {
        ok := SendDirect(command);
      }
    }

    /**
     The end of the session. With every outlet working, file and sink hold the same commands,
     numbered 1, 2, ..., and their sections tile the output file.
     */
    method Close() returns (ok: bool)
      requires Valid()
      modifies this, disk, output
      ensures Valid() && accepted == old(accepted) && observed == old(observed) && old(file) <= file && old(sink) <= sink
      ensures output == null && !fileOpen
      ensures ok ==> current.Nothing? && Commands(file) == accepted && Tile(Sections(file), 0, |observed|)
      ensures ok ==> forall i | 0 <= i < |file| :: file[i].number == i + 1
      ensures ok && hasSink && !lost ==> sink == Commands(file)
      ensures (lost ==> failed) && (old(failed) ==> failed)
      ensures ok && old(output) != null ==> disk.content == observed
      ensures old(fileOpen) && old(NoFaults()) ==> ok && failed == old(failed)
      ensures Heard() == old(Heard())
    {
      hide Works, Logs, OutputOk, Tile, Sections, Commands;
      ok := FlushCurrent();
      var closed := CloseFiles();
      ok := ok && closed;
      if current.Nothing? {
        LogsAtRest(hasSink, file, accepted, outputOffset, number, delivered, sink, lost, failed);
      }
    }

    /** Writes out what is left and lets go of both files. */
    method CloseFiles() returns (ok: bool)
      requires Valid()
      modifies this`output, this`fileOpen, this`fileScript, this`failed, disk, output
      ensures Valid() && output == null && !fileOpen
      ensures ok && old(output) != null ==> disk.content == observed
      ensures |observed| == outputOffset && (old(failed) ==> failed) && (lost ==> failed)
      ensures old(NoFaults()) ==> ok && failed == old(failed)
    {
      hide Works, Logs, Filed;
      ok := FlushOutput();
      output := null;
      LogsFail(hasSink, file, current, accepted, outputOffset, number, delivered, sink, lost, failed);
      var closed := FileWrites();
      fileOpen := false;
      ok := ok && closed;
    }
  }

  // ------------------------------------------------------------ whole sessions

  datatype Call = Keys(keys: string) | Output(data: bytes) | Direct(text: string) | Prompt

  /** What one call adds to the commands, when every outlet works. */
  function Hear(t: Typing, call: Call, redact: string -> string, prompts: bytes -> bool): Typing
  {
    match call
    case Keys(keys) => Type(t, keys, redact)
    case Output(data) => if data != [] && prompts(data) then t.(secret := true) else t
    case Direct(text) => if Trim(text) == "" then t else t.(commands := t.commands + [redact(Trim(text))])
    case Prompt => t.(secret := true)
  }

  function HearAll(t: Typing, calls: seq<Call>, redact: string -> string, prompts: bytes -> bool): Typing
  {
    if calls == [] then t
    else Hear(HearAll(t, calls[..|calls| - 1], redact, prompts), calls[|calls| - 1], redact, prompts)
  }

  /** The commands and, for each, the output seen while it was pending. */
  datatype Transcript = Transcript(typing: Typing, outputs: seq<bytes>)

  /** Output belongs to the last command given before it. */
  function Listen(t: Transcript, call: Call, redact: string -> string, prompts: bytes -> bool): Transcript
  {
    var typing := Hear(t.typing, call, redact, prompts);
    var n, m := |t.typing.commands|, |typing.commands|;
    Transcript(typing, if call.Output? then Extended(t.outputs, call.data) else t.outputs + Blanks(if n <= m then m - n else 0))
  }

  function ListenAll(t: Transcript, calls: seq<Call>, redact: string -> string, prompts: bytes -> bool): Transcript
  {
    if calls == [] then t
    else Listen(ListenAll(t, calls[..|calls| - 1], redact, prompts), calls[|calls| - 1], redact, prompts)
  }

  /** The commands are those that are heard. */
  lemma {:induction false} ListenHears(t: Transcript, calls: seq<Call>, redact: string -> string, prompts: bytes -> bool)
    ensures ListenAll(t, calls, redact, prompts).typing == HearAll(t.typing, calls, redact, prompts)
  {
    if calls != [] {
      ListenHears(t, calls[..|calls| - 1], redact, prompts);
    }
  }

  /** What a recorder has taken in. */
  ghost function Taken(r: Recorder): Transcript
    reads r
  {
    Transcript(Typing(r.line, r.sensitivePrompt, r.accepted), r.Heard())
  }

  /** One call of any kind. */
  method Apply(r: Recorder, call: Call)
    requires r.Valid() && r.fileOpen
    modifies r, r.disk, r.output
    ensures r.Valid() && r.fileOpen && r.output == old(r.output) && (old(r.failed) ==> r.failed)
    ensures !r.failed && old(r.Going()) ==> r.Going()
    ensures !r.failed ==> Taken(r).typing == Hear(old(Taken(r).typing), call, r.redact, r.prompts)
    ensures !r.failed && old(r.Going()) && r.output != null ==> Taken(r) == Listen(old(Taken(r)), call, r.redact, r.prompts)
    ensures old(r.NoFaults()) ==> r.NoFaults() && r.failed == old(r.failed)
  {
    hide Type, Trim, Recorder.LogsOk, Recorder.OutputOk, Outputs, Blanks, Extended;
    NothingHeard(r);
    BlanksAdd(0, 0, r.Heard());
    match call {
      case Keys(keys) => r.ObserveInput(keys);
      case Output(data) =>
        r.ObserveOutput(data);
        NoneToExtend(data);
      case Direct(text) => var _ := r.RecordDirect(text);
      case Prompt => r.MarkSensitivePrompt();
    }
  }

  lemma NothingHeard(r: Recorder)
    requires r.Valid()
    ensures |r.Heard()| == |r.accepted|
  {
    OutputsCount(r.file, r.current, r.accepted, r.outputOffset, r.observed);
  }

  lemma NoneToExtend(data: bytes)
    ensures Extended([], data) == []
  {
  }

  /**
   In every session that ends without a failure, file and sink hold exactly the commands given, in
   order, the sections tile the output, and each section holds exactly what was output while its
   command was pending. A session in which no write is going to fail ends so.
   */
  method Session(r: Recorder, calls: seq<Call>) returns (ok: bool)
    requires r.Valid() && r.fileOpen && !r.failed && r.accepted == []
    modifies r, r.disk, r.output
    ensures r.Valid()
    ensures ok && !r.failed ==>
        Commands(r.file) == HearAll(Typing(old(r.line), old(r.sensitivePrompt), []), calls, r.redact, r.prompts).commands
    ensures ok && !r.failed && r.hasSink ==> r.sink == Commands(r.file)
    ensures ok ==> Tile(Sections(r.file), 0, |r.observed|) && forall i | 0 <= i < |r.file| :: r.file[i].number == i + 1
    ensures ok && old(r.output) != null ==> r.disk.content == r.observed
    ensures ok && !r.failed && old(r.output) != null ==>
        Outputs(r.file, Nothing, r.disk.content) ==
        ListenAll(Transcript(Typing(old(r.line), old(r.sensitivePrompt), []), []), calls, r.redact, r.prompts).outputs
    ensures old(r.NoFaults()) ==> ok && !r.failed
  {
    hide Hear, Tile, Sections, Commands, Recorder.LogsOk, Recorder.OutputOk, Outputs, Listen;
    ghost var t0 := Taken(r);
    NothingHeard(r);
    NothingPending(r);
    for n := 0 to |calls|
      invariant r.Valid() && r.fileOpen && r.output == old(r.output)
      invariant old(r.NoFaults()) ==> r.NoFaults() && !r.failed
      invariant !r.failed ==> r.Going() && Taken(r).typing == HearAll(t0.typing, calls[..n], r.redact, r.prompts)
      invariant !r.failed && r.output != null ==> Taken(r) == ListenAll(t0, calls[..n], r.redact, r.prompts)
    {
      assert calls[..n + 1][..n] == calls[..n];
      Apply(r, calls[n]);
    }
    assert calls[..|calls|] == calls;
    ok := r.Close();
  }

  lemma NothingPending(r: Recorder)
    requires r.Valid() && r.accepted == []
    ensures r.current.Nothing?
  {
  }

  lemma ExtendedByNothing(outputs: seq<bytes>)
    ensures Extended(outputs, []) == outputs
  {
    if outputs != [] {
      assert outputs[|outputs| - 1] + [] == outputs[|outputs| - 1];
    }
  }

  lemma PressLine(a: Typing, b: Typing, key: char, redact: string -> string)
    requires a.line == b.line && a.secret == b.secret
    ensures Press(a, key, redact).line == Press(b, key, redact).line && Press(a, key, redact).secret == Press(b, key, redact).secret
  {
    hide CommandOf;
  }

  lemma FiledGrows(file: seq<Event>, limit: nat, more: nat)
    requires Filed(file, limit) && limit <= more
    ensures Filed(file, more)
  {
  }

  lemma WriteDirect(file: seq<Event>, e: Event, accepted: seq<string>, offset: nat, delivered: seq<bool>, sink: seq<string>)
    requires Ordered(file, Some(e), accepted, offset) && Delivered(file, Some(e), delivered, sink) && !e.sinkWritten
    ensures Ordered(file, Some(e.(sinkWritten := true)), accepted, offset)
    ensures Delivered(file, Some(e.(sinkWritten := true)), delivered, sink + [e.command])
  {
  }

  lemma TypeNothing(t: Typing, redact: string -> string)
    ensures forall keys | keys == "" :: Type(t, keys, redact) == t
  {
  }

  lemma StartDelivered(file: seq<Event>, e: Event, delivered: seq<bool>, sink: seq<string>)
    requires Delivered(file, Nothing, delivered, sink) && !e.sinkWritten
    ensures Delivered(file, Some(e), delivered, sink)
  {
  }

  lemma SamePending(file: seq<Event>, e: Event, e': Event, accepted: seq<string>, offset: nat, delivered: seq<bool>,
      sink: seq<string>)
    requires Ordered(file, Some(e), accepted, offset) && Delivered(file, Some(e), delivered, sink)
    requires e' == e.(preview := e'.preview)
    ensures Ordered(file, Some(e'), accepted, offset) && Delivered(file, Some(e'), delivered, sink)
  {
  }

  lemma PendingFiled(file: seq<Event>, e: Event, accepted: seq<string>, offset: nat, limit: nat)
    requires Ordered(file, Some(e), accepted, offset) && Filed(file, limit)
    ensures offset <= limit ==> Filed(file + [e], limit)
  {
  }

  lemma NotWritten(file: seq<Event>, e: Event, delivered: seq<bool>, sink: seq<string>)
    requires Delivered(file, Some(e), delivered, sink)
    ensures !e.sinkWritten ==> sink == Picked(Commands(file), delivered)
    ensures e.sinkWritten ==> |sink| > 0
  {
  }
}
