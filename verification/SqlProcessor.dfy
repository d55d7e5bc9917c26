/** What stands between a capture and its file for SQL text: optional redaction, and a bounded preview. */
module SqlProcessor {
  import opened Bytes
  import opened SqlRedactor
  import SqlStreamRedactor
  import Utf8

  /** Everything the processor remembers, as a value. */
  datatype Memory = Memory(redact: bool, limit: int, preview: bytes, originalBytes: nat, registers: Machine)

  /** The first `limit` bytes of what came before and what comes now. */
  function Collected(preview: bytes, limit: int, data: bytes): bytes
  {
    if limit <= 0 || |preview| >= limit then preview
    else preview + data[..if limit - |preview| > |data| then |data| else limit - |preview|]
  }

  datatype SqlResult = SqlResult(preview: bytes, originalBytes: nat, storedBytes: int, truncated: bool, redacted: bool)

  class Processor {
    const redact: bool
    const previewLimit: int
    var preview: bytes
    var originalBytes: nat
    var redactor: SqlStreamRedactor.Redactor?

    ghost predicate Valid()
      reads this, redactor
    {
      redactor != null ==> redactor.Registers().Valid()
    }

    /** A redactor is only created by the first write. */
    ghost function State(): Memory
      requires Valid()
      reads this, redactor
    {
      Memory(redact, previewLimit, preview, originalBytes, if redactor == null then START else redactor.Registers())
    }

    constructor (redact: bool, previewBytes: int)
      ensures Valid() && redactor == null && this.redact == redact
      ensures State() == Memory(redact, if previewBytes < 0 then 0 else previewBytes, [], 0, START)
    {
      this.redact := redact;
      this.previewLimit := if previewBytes < 0 then 0 else previewBytes;
      this.preview, this.originalBytes, this.redactor := [], 0, null;
    }

    /** What a write hands on. */
    ghost function Emits(data: bytes): bytes
      requires Valid()
      reads this, redactor
    {
      if redact then Run(State().registers, data).out else data
    }

    /** What the final flush hands on. */
    ghost function Finishes(): bytes
      requires Valid()
      reads this, redactor
    {
      if redact then Pending(State().registers) else []
    }

    ghost predicate Advanced(before: Memory, data: bytes)
      requires Valid() && before.registers.Valid()
      reads this, redactor
    {
      var run := Run(before.registers, data);
      State() == before.(
        preview := Collected(before.preview, before.limit, if before.redact then run.out else data),
        originalBytes := before.originalBytes + |data|,
        registers := if before.redact then run.machine else before.registers)
    }

    ghost predicate Finished(before: Memory)
      requires Valid()
      reads this, redactor
    {
      State() == before.(
        preview := Collected(before.preview, before.limit, if before.redact then Pending(before.registers) else []),
        registers := if before.redact then Flushed(before.registers) else before.registers)
    }

    method Collect(data: bytes)
      modifies this`preview
      ensures preview == Collected(old(preview), previewLimit, data)
    {
      if previewLimit <= 0 || |preview| >= previewLimit {
        return;
      }
      var remaining := previewLimit - |preview|;
      if remaining > |data| {
        remaining := |data|;
      }
      preview := preview + data[..remaining];
    }

    /** The bytes go to the caller's emit function, which is not called for an empty piece. */
    method Write(data: bytes) returns (out: bytes)
      requires Valid()
      modifies this, redactor
      ensures Valid() && (redactor == old(redactor) || fresh(redactor))
      ensures out == old(Emits(data))
      ensures Advanced(old(State()), data)
    {
      hide Run, Feed, Step, Machine.Valid;
      assert State().registers.Valid() by { StartIsValid(); }
      originalBytes := originalBytes + |data|;
      if !redact {
        Collect(data);
        return data;
      }
      if redactor == null {
        redactor := new SqlStreamRedactor.Redactor();
      }
      out := redactor.Write(data);
      Collect(out);
    }

    method Flush() returns (out: bytes)
      requires Valid()
      modifies this, redactor
      ensures Valid() && redactor == old(redactor)
      ensures out == old(Finishes())
      ensures Finished(old(State()))
    {
      if !redact || redactor == null {
        return [];
      }
      out := redactor.Flush();
      Collect(out);
    }

    method Result(sectionBytes: int) returns (r: SqlResult)
      requires Valid()
      ensures Utf8.LongestValidPrefix(preview, |r.preview|) && r.preview <= preview
      ensures r.originalBytes == originalBytes && r.storedBytes == sectionBytes && r.redacted == redact
      ensures r.truncated <==> |r.preview| < sectionBytes
    {
      var text := Utf8.TrimToValid(preview);
      r := SqlResult(text, originalBytes, sectionBytes, |text| < sectionBytes, redact);
    }
  }

  lemma StartIsValid()
    ensures START.Valid()
  {
  }
}
