/**
 The object that redacts a terminal stream frame by frame. Its methods are proved equal to
 the functions of `LineStream`, where what they promise is stated.
 */
module LineRedactor {
  import opened Bytes
  import opened LineStream

  const LIMIT: nat := 1048576

  /** Where the first line break is, if there is one. */
  method IndexBreak(s: bytes) returns (at: int)
    ensures if at < 0 then Breakless(s) else at < |s| && at == BreakAt(s)
  {
    for n := 0 to |s|
      invariant forall i | 0 <= i < n :: !IsBreak(s[i])
    {
      if IsBreak(s[n]) {
        BreakAtIs(s, n);
        return n;
      }
    }
    at := -1;
  }

  /** A frame that would make the redactor hold too much. */
  predicate Overflows(st: State, data: bytes)
  {
    data != [] && |st.pending| + |Concat(st.held.key)| + |data| > LIMIT
  }

  /** The frames of a stream that are taken. */
  function Taken(frames: seq<bytes>, rules: Rules): seq<bytes>
  {
    if frames == [] then []
    else
      var before, data := Taken(frames[..|frames| - 1], rules), frames[|frames| - 1];
      if Overflows(FedAll(before, rules), data) then before else before + [data]
  }

  lemma NoOutput(redact: bytes -> bytes)
    ensures Redacted([], redact) == []
  {
  }

  class Redactor {
    /** Redaction can be switched off; then everything passes through. */
    const enabled: bool
    const rules: Rules

    var pending: bytes
    var block: bytes
    var inKey: bool

    /** The pieces handed to the policy, and the lines of the open key. */
    ghost var pieces: seq<Piece>
    ghost var keyLines: seq<bytes>

    ghost predicate KeyOk()
      reads this
    {
      block == Concat(keyLines) && (inKey <==> keyLines != [])
    }

    ghost predicate Valid()
      reads this
    {
      KeyOk() && |block| + |pending| <= LIMIT
    }

    ghost function HeldNow(): Held
      reads this
    {
      Held(keyLines, pieces)
    }

    ghost function Now(): State
      reads this
    {
      State(pending, HeldNow())
    }

    constructor (enabled: bool, rules: Rules)
      ensures Valid() && Now() == START
      ensures this.enabled == enabled && this.rules == rules
    {
      this.enabled, this.rules := enabled, rules;
      pending, block, inKey := [], [], false;
      pieces, keyLines := [], [];
    }

    /** Hands one piece to the policy. */
    ghost method Hand(p: Piece)
      modifies this`pieces
      ensures pieces == old(pieces) + [p]
      ensures Redacted(pieces, rules.redact) == Redacted(old(pieces), rules.redact) + rules.redact(Raw(p))
    {
      Push(pieces, p, rules.redact);
      pieces := pieces + [p];
    }

    /** One line, already taken from the pending bytes. */
    method WriteLine(line: bytes) returns (out: bytes)
      requires KeyOk()
      modifies this`block, this`inKey, this`pieces, this`keyLines
      ensures KeyOk() && HeldNow() == Take(old(HeldNow()), line, rules)
      ensures Redacted(pieces, rules.redact) == Redacted(old(pieces), rules.redact) + out
      ensures |block| <= |old(block)| + |line|
    {
      hide Redacted, Concat;
      NothingHeld();
      if inKey {
        out := WriteKeyLine(line);
        return;
      }
      if rules.begins(line) && !rules.ends(line) {
        ConcatPush([], line);
        assert [] + [line] == [line];
        inKey := true;
        block := block + line;
        keyLines := [line];
        assert Redacted(pieces, rules.redact) + [] == Redacted(pieces, rules.redact);
        return [];
      }
      Hand(Line(line));
      out := rules.redact(line);
    }

    /** A line of the open key. */
    method WriteKeyLine(line: bytes) returns (out: bytes)
      requires KeyOk() && inKey
      modifies this`block, this`inKey, this`pieces, this`keyLines
      ensures KeyOk() && HeldNow() == Take(old(HeldNow()), line, rules)
      ensures Redacted(pieces, rules.redact) == Redacted(old(pieces), rules.redact) + out
      ensures |block| <= |old(block)| + |line|
    {
      hide Redacted, Concat;
      NothingHeld();
      ConcatPush(keyLines, line);
      block := block + line;
      keyLines := keyLines + [line];
      if rules.ends(line) {
        Hand(Block(keyLines, true));
        out := rules.redact(block);
        block, inKey, keyLines := [], false, [];
      } else {
        assert Redacted(pieces, rules.redact) + [] == Redacted(pieces, rules.redact);
        out := [];
      }
    }

    /** Takes the first line, up to and with its break, off the pending bytes. */
    method TakeLine(at: nat) returns (out: bytes)
      requires Valid() && at < |pending| && at == BreakAt(pending)
      modifies this`pending, this`block, this`inKey, this`pieces, this`keyLines
      ensures Valid() && |pending| < |old(pending)|
      ensures Lines(old(pending)) != [] && Lines(old(pending))[1..] == Lines(pending) && Rest(old(pending)) == Rest(pending)
      ensures HeldNow() == Take(old(HeldNow()), Lines(old(pending))[0], rules)
      ensures Redacted(pieces, rules.redact) == Redacted(old(pieces), rules.redact) + out
    {
      hide Redacted, Concat, Lines, Rest;
      var end := at + 1;
      if pending[at] == CR && end < |pending| && pending[end] == LF {
        end := end + 1;
      }
      assert end == LineWidth(pending);
      FirstLine(pending);
      var line := pending[..end];
      pending := pending[end..];
      out := WriteLine(line);
    }

    method TakeLines() returns (out: bytes)
      requires Valid()
      modifies this`pending, this`block, this`inKey, this`pieces, this`keyLines
      ensures Valid() && pending == Rest(old(pending))
      ensures HeldNow() == TakeAll(old(HeldNow()), Lines(old(pending)), rules)
      ensures Redacted(pieces, rules.redact) == Redacted(old(pieces), rules.redact) + out
    {
      hide Redacted, Concat, Lines, Rest, Take, BreakAt;
      out := [];
      assert Redacted(pieces, rules.redact) + [] == Redacted(pieces, rules.redact);
      while true
        invariant Valid() && Rest(pending) == Rest(old(pending))
        invariant TakeAll(HeldNow(), Lines(pending), rules) == TakeAll(old(HeldNow()), Lines(old(pending)), rules)
        invariant Redacted(pieces, rules.redact) == Redacted(old(pieces), rules.redact) + out
        decreases |pending|
      {
        var at := IndexBreak(pending);
        if at < 0 {
          FirstLine(pending);
          break;
        }
        var more := TakeLine(at);
        out := out + more;
      }
    }

    method TakePrefix() returns (out: bytes)
      requires Valid()
      modifies this`pending, this`pieces
      ensures Valid() && Now() == Release(old(Now()), rules)
      ensures Redacted(pieces, rules.redact) == Redacted(old(pieces), rules.redact) + out
    {
      hide Redacted, Concat;
      out := [];
      assert Redacted(pieces, rules.redact) + [] == Redacted(pieces, rules.redact);
      if !inKey && |pending| > 0 {
        var safe := rules.safePrefix(pending);
        if safe < 0 {
          safe := 0;
        } else if safe > |pending| {
          safe := |pending|;
        }
        if safe > 0 {
          Hand(Prefix(pending[..safe]));
          out := rules.redact(pending[..safe]);
          pending := pending[safe..];
        }
      }
    }

    /** Hands on the lines that are complete, and of an unfinished one what the policy lets go. */
    method Write(data: bytes) returns (out: bytes, ok: bool)
      requires Valid()
      modifies this`pending, this`block, this`inKey, this`pieces, this`keyLines
      ensures Valid()
      ensures !enabled ==> ok && unchanged(this) && out == data
      ensures enabled ==> ok == !Overflows(old(Now()), data)
      ensures enabled ==> Now() == if ok then Fed(old(Now()), data, rules) else old(Now())
      ensures enabled ==> Redacted(pieces, rules.redact) == Redacted(old(pieces), rules.redact) + out
    {
      hide Redacted, Concat, TakeAll, Lines, Rest, Release;
      assert Redacted(pieces, rules.redact) + [] == Redacted(pieces, rules.redact);
      if |data| == 0 {
        return [], true;
      }
      if !enabled {
        return data, true;
      }
      if |pending| + |block| + |data| > LIMIT {
        return [], false;
      }
      pending := pending + data;
      out := TakeLines();
      var prefix := TakePrefix();
      out, ok := out + prefix, true;
    }

    /** The end of the stream: nothing is held back any more. */
    method Flush() returns (out: bytes)
      requires Valid()
      modifies this`pending, this`block, this`inKey, this`pieces, this`keyLines
      ensures Valid() && Now() == State([], Held([], Flushed(old(Now()), rules)))
      ensures Redacted(pieces, rules.redact) == Redacted(old(pieces), rules.redact) + out
    {
      hide Redacted, Concat, Take;
      out := [];
      NothingHeld();
      assert Redacted(pieces, rules.redact) + [] == Redacted(pieces, rules.redact);
      if |pending| > 0 {
        out := WriteLine(pending);
        pending := [];
      }
      if inKey {
        Hand(Block(keyLines, false));
        out := out + rules.redact(block);
        block, inKey, keyLines := [], false, [];
      }
    }
  }

  /** A whole stream: what comes out is the redaction of the pieces of the frames that are taken. */
  method Stream(r: Redactor, frames: seq<bytes>) returns (out: bytes)
    requires r.Valid() && r.enabled && r.Now() == START
    modifies r
    ensures r.pieces == Pieces(Taken(frames, r.rules), r.rules)
    ensures out == Redacted(r.pieces, r.rules.redact)
  {
    hide Redacted, Concat, Fed, Flushed, Overflows;
    NoOutput(r.rules.redact);
    out := [];
    for n := 0 to |frames|
      invariant r.Valid() && r.Now() == FedAll(Taken(frames[..n], r.rules), r.rules) && out == Redacted(r.pieces, r.rules.redact)
    {
      ghost var before := Taken(frames[..n], r.rules);
      var more, ok := r.Write(frames[n]);
      out := out + more;
      assert frames[..n + 1][..n] == frames[..n];
      assert (before + [frames[n]])[..|before|] == before;
    }
    var more := r.Flush();
    out := out + more;
    assert frames[..|frames|] == frames;
  }

  /** Frames that together stay within the limit are all taken. */
  lemma {:induction false} ShortStreamsAreTaken(frames: seq<bytes>, rules: Rules)
    requires |Concat(frames)| <= LIMIT
    ensures Taken(frames, rules) == frames
    decreases |frames|
  {
    hide FedAll, Sound, Breakless;
    if frames != [] {
      var init, data := frames[..|frames| - 1], frames[|frames| - 1];
      ShortStreamsAreTaken(init, rules);
      FramesConserved(init, rules);
      assert init + [data] == frames;
    }
  }
}
