/** One SQL statement from the wire to the audit file and its preview. */
module SqlCapture {
  import opened Bytes
  import opened SqlRedactor
  import opened SqlProcessor
  import opened ArtifactWriter
  import Utf8

  const DEFAULT_PREVIEW_BYTES: int := 65536

  datatype Policy = Policy(previewBytes: int, redactionEnabled: bool)

  function Limit(policy: Policy): (limit: int)
    ensures limit > 0
  {
    if policy.previewBytes <= 0 then DEFAULT_PREVIEW_BYTES else policy.previewBytes
  }

  /** What the policy makes of a statement, written at once. */
  function StoredForm(policy: Policy, data: bytes): bytes
  {
    if policy.redactionEnabled then Redact(data) else data
  }

  function Take(s: bytes, n: int): bytes
  {
    if n <= 0 then [] else if n < |s| then s[..n] else s
  }

  /** Collecting keeps the first `limit` bytes of what is there and what comes. */
  lemma CollectedIsTake(preview: bytes, limit: int, data: bytes)
    requires |preview| < limit
    ensures Collected(preview, limit, data) == Take(preview + data, limit)
  {
    if |preview| + |data| <= limit {
      assert data[..|data|] == data;
    } else {
      assert (preview + data)[..limit] == preview + data[..limit - |preview|];
    }
  }

  /** A full preview stays as it is. */
  lemma FullStays(limit: int, a: bytes, b: bytes)
    requires 0 < limit <= |a|
    ensures |Take(a, limit)| == limit && Collected(Take(a, limit), limit, b) == Take(a, limit) == Take(a + b, limit)
  {
    assert (a + b)[..limit] == a[..limit];
  }

  lemma ShortStays(limit: int, a: bytes)
    requires |a| < limit
    ensures Take(a, limit) == a
  {
  }

  /** Collecting piece by piece keeps the first `limit` bytes of the whole. */
  lemma CollectedTwice(limit: int, a: bytes, b: bytes)
    requires limit > 0
    ensures Collected(Collected([], limit, a), limit, b) == Take(a + b, limit)
  {
    hide Collected, Take;
    CollectedIsTake([], limit, a);
    assert [] + a == a;
    if |a| >= limit {
      FullStays(limit, a, b);
    } else {
      ShortStays(limit, a);
      CollectedIsTake(a, limit, b);
    }
  }

  /** The result describes the stored text: a longest valid preview, and whether anything is missing from it. */
  ghost predicate Describes(r: SqlResult, policy: Policy, data: bytes)
  {
    var stored := StoredForm(policy, data);
    && r.preview <= Take(stored, Limit(policy))
    && Utf8.LongestValidPrefix(Take(stored, Limit(policy)), |r.preview|)
    && r.originalBytes == |data|
    && r.storedBytes == |stored|
    && r.redacted == policy.redactionEnabled
    && (r.truncated <==> |r.preview| < |stored|)
  }

  datatype CaptureResult = Captured(section: Section, result: SqlResult) | Failed(err: Error)

  /** The processor's memory after one write of the data and a flush. */
  lemma OneShot(policy: Policy, data: bytes)
    ensures var m := Memory(policy.redactionEnabled, Limit(policy), [], 0, START);
      var run := Run(START, data);
      var emitted := if policy.redactionEnabled then run.out else data;
      var rest := if policy.redactionEnabled then Pending(run.machine) else [];
      && emitted + rest == StoredForm(policy, data)
      && Collected(Collected([], Limit(policy), emitted), Limit(policy), rest) == Take(StoredForm(policy, data), Limit(policy))
  {
    hide Run, Feed, Step;
    var run := Run(START, data);
    if policy.redactionEnabled {
      CollectedTwice(Limit(policy), run.out, Pending(run.machine));
    } else {
      CollectedTwice(Limit(policy), data, []);
      assert data + [] == data;
    }
  }

  /** An empty statement writes nothing, so the redactor is never created. */
  lemma EmptyRun(policy: Policy)
    ensures Run(START, []) == Result(START, []) && Pending(START) == [] && StoredForm(policy, []) == []
    ensures Collected([], Limit(policy), []) == []
  {
  }

  /** Writes a statement into a new capture and completes it; a failed write is rolled back. */
  method Store(capture: Capture, policy: Policy, data: bytes) returns (section: Section, err: Error)
    requires capture.owner.Valid() && capture.owner.active == capture && capture.stored == []
    requires capture.processor != null && capture.processor.Valid() && capture.processor.redactor == null
    requires capture.processor.State() == Memory(policy.redactionEnabled, Limit(policy), [], 0, START)
    modifies capture, capture.owner, capture.owner.disk, capture.owner.buffer, capture.processor
    ensures var w := capture.owner;
      && w.Valid()
      && (err != None ==> w.committed == old(w.committed) && w.sections == old(w.sections))
      && (err == None ==>
        && section == Section(|old(w.committed)|, |StoredForm(policy, data)|)
        && w.sections == old(w.sections) + [section]
        && w.committed == old(w.committed) + StoredForm(policy, data) == w.disk.content
        && capture.processor.Valid()
        && capture.processor.preview == Take(StoredForm(policy, data), Limit(policy))
        && capture.processor.originalBytes == |data|)
  {
    hide Run, Feed, Step, Machine.Valid, Redact, StoredForm, Tile, Take, Collected;
    OneShot(policy, data);
    EmptyRun(policy);
    StartIsValid();
    err := capture.Write(data);
    if err != None {
      var _ := capture.Abort();
      return Section(0, 0), err;
    }
    assert capture.stored == if policy.redactionEnabled then Run(START, data).out else data;
    section, err := capture.Complete();
  }

  /**
   On success the statement's redacted form is the next section of the file, byte
   for byte, and the section can be opened; on failure no section was added.
   */
  method CaptureSql(writer: Writer, policy: Policy, data: bytes) returns (r: CaptureResult)
    requires writer.Valid()
    modifies writer, writer.disk, writer.buffer
    ensures writer.Valid()
    ensures r.Failed? ==> writer.committed == old(writer.committed) && writer.sections == old(writer.sections)
    ensures r.Captured? ==>
      && Describes(r.result, policy, data)
      && writer.sections == old(writer.sections) + [r.section]
      && writer.committed == old(writer.committed) + StoredForm(policy, data)
      && writer.disk.content == writer.committed
      && SectionAvailable(|writer.disk.content|, r.section)
      && writer.disk.content[r.section.offset..r.section.offset + r.section.bytes] == StoredForm(policy, data)
  {
    hide Run, Feed, Step, Machine.Valid, Redact, StoredForm, Tile, Take;
    var processor := new Processor(policy.redactionEnabled, Limit(policy));
    var capture, err := writer.Begin(processor);
    if err != None {
      return Failed(err);
    }
    var section;
    section, err := Store(capture, policy, data);
    if err != None {
      return Failed(err);
    }
    var result := processor.Result(section.bytes);
    r := Captured(section, result);
  }

  /** The preview shown without storing anything is the one that storing would have produced. */
  method PreviewSql(data: bytes, policy: Policy) returns (r: SqlResult)
    ensures Describes(r, policy, data)
  {
    hide Run, Feed, Step, Machine.Valid, Redact;
    OneShot(policy, data);
    StartIsValid();
    var processor := new Processor(policy.redactionEnabled, Limit(policy));
    var first := processor.Write(data);
    var rest := processor.Flush();
    r := processor.Result(|first| + |rest|);
  }

  /** Two descriptions of the same statement are the same. */
  lemma DescriptionIsUnique(r: SqlResult, q: SqlResult, policy: Policy, data: bytes)
    requires Describes(r, policy, data) && Describes(q, policy, data)
    ensures r == q
  {
  }
}
