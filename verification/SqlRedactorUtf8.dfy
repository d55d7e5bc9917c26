/** Redaction never splits a character: valid UTF-8 in, valid UTF-8 out. */
module SqlRedactorUtf8 {
  import opened Bytes
  import opened SqlRedactor
  import opened SqlRedactorLaws
  import Utf8

  predicate Ascii(s: bytes)
  {
    forall i | 0 <= i < |s| :: s[i] <= 0x7F
  }

  predicate High(s: bytes)
  {
    forall i | 0 <= i < |s| :: s[i] > 0x7F
  }

  /** States in which every byte above 0x7F disappears. */
  predicate Swallowing(s: State)
  {
    s in {Quoted, LineComment, BlockComment, DollarBody}
  }

  /** One turn writes only ASCII, except that the normal state copies a high byte. */
  predicate KeepsCharacters(m: Machine, b: byte, t: Turn)
  {
    && (m.state == Normal && b > 0x7F ==> t == Turn(m.(previous := b), [b], false))
    && (!(m.state == Normal && b > 0x7F) ==> Ascii(t.out))
    && (b > 0x7F && !t.again && m.state != Normal ==> t.out == [] && Swallowing(t.next.state))
    && (b > 0x7F && Swallowing(m.state) ==> !t.again)
  }

  lemma TextKeepsCharacters(m: Machine, b: byte)
    requires m.Valid() && TextState(m.state)
    ensures KeepsCharacters(m, b, Step(m, b))
  {
  }

  lemma WordKeepsCharacters(m: Machine, b: byte)
    requires m.Valid() && WordState(m.state)
    ensures KeepsCharacters(m, b, Step(m, b))
  {
  }

  lemma AsciiConcat(a: bytes, b: bytes)
    requires Ascii(a) && Ascii(b)
    ensures Ascii(a + b)
  {
  }

  lemma DollarKeepsCharacters(m: Machine, b: byte)
    requires m.Valid() && m.state in {DollarCandidate, DollarBody}
    ensures KeepsCharacters(m, b, Step(m, b))
  {
    hide Ascii;
    assert Ascii(m.dollarTag) && Ascii([]) && Ascii([DOLLAR]) && Ascii(MARKER) by {
      assert forall i | 0 <= i < |m.dollarTag| :: m.dollarTag[i] <= 0x7F by { TagIsAscii(m); }
      AllAscii(m.dollarTag); AllAscii([]); AllAscii([DOLLAR]); AllAscii(MARKER);
    }
    AsciiConcat(m.dollarTag, [DOLLAR]);
    AsciiConcat(m.dollarTag + [DOLLAR], MARKER);
  }

  lemma AllAscii(s: bytes)
    requires forall i | 0 <= i < |s| :: s[i] <= 0x7F
    ensures Ascii(s)
  {
  }

  lemma TagIsAscii(m: Machine)
    requires m.Valid() && m.state in {DollarCandidate, DollarBody}
    ensures forall i | 0 <= i < |m.dollarTag| :: m.dollarTag[i] <= 0x7F
  {
    var t := m.dollarTag;
    forall i | 0 <= i < |t| ensures t[i] <= 0x7F {
      if i < |t| - 1 {
        assert t[..|t| - 1][i] == t[i];
      }
    }
  }

  lemma StepKeepsCharacters(m: Machine, b: byte)
    requires m.Valid()
    ensures KeepsCharacters(m, b, Step(m, b))
  {
    hide SensitiveKey, EqualFold;
    if TextState(m.state) {
      TextKeepsCharacters(m, b);
    } else if WordState(m.state) {
      WordKeepsCharacters(m, b);
    } else if m.state in {DollarCandidate, DollarBody} {
      DollarKeepsCharacters(m, b);
    } else {
      assert m.state in {Normal, Identifier};
    }
  }

  /** An ASCII byte writes ASCII only. */
  lemma {:induction false} FeedAscii(m: Machine, b: byte)
    requires m.Valid() && b <= 0x7F
    ensures Ascii(Feed(m, b).out)
    decreases Rank(m.state, b)
  {
    hide Step, Feed, Machine.Valid, Ascii;
    StepProgress(m, b);
    StepKeepsCharacters(m, b);
    if Step(m, b).again {
      FeedAgain(m, b);
      FeedAscii(Step(m, b).next, b);
      AsciiConcat(Step(m, b).out, Feed(Step(m, b).next, b).out);
    } else {
      FeedOnce(m, b);
    }
  }

  /** A high byte ends a pending construct with ASCII and is then copied or swallowed. */
  lemma {:induction false} FeedHigh(m: Machine, b: byte) returns (pre: bytes)
    requires m.Valid() && b > 0x7F
    ensures Ascii(pre)
    ensures var r := Feed(m, b);
      (r.machine.state == Normal && r.out == pre + [b]) || (Swallowing(r.machine.state) && r.out == pre)
    ensures m.state == Normal ==> pre == [] && Feed(m, b).machine.state == Normal
    ensures Swallowing(m.state) ==> Feed(m, b).out == [] && Swallowing(Feed(m, b).machine.state)
    decreases Rank(m.state, b)
  {
    hide Step, Feed, Machine.Valid, Swallowing, Ascii;
    StepProgress(m, b);
    StepKeepsCharacters(m, b);
    if Step(m, b).again {
      FeedAgain(m, b);
      var t := Step(m, b);
      var rest := FeedHigh(t.next, b);
      pre := t.out + rest;
      AsciiConcat(t.out, rest);
      assert t.out + (rest + [b]) == pre + [b];
      assert m.state != Normal && !Swallowing(m.state);
    } else {
      FeedOnce(m, b);
      pre := [];
      assert Ascii([]) by { NothingIsAscii(); }
      assert [] + [b] == [b];
      SwallowingIsNotNormal();
    }
  }

  lemma NothingIsAscii()
    ensures Ascii([])
  {
  }

  lemma SwallowingIsNotNormal()
    ensures !Swallowing(Normal)
  {
  }

  /** The rest of a character follows its first byte: all of it is copied, or all of it is swallowed. */
  lemma {:induction false} RunHigh(m: Machine, s: bytes)
    requires m.Valid() && High(s) && (m.state == Normal || Swallowing(m.state))
    ensures m.state == Normal ==> Run(m, s).out == s && Run(m, s).machine.state == Normal
    ensures Swallowing(m.state) ==> Run(m, s).out == []
    decreases |s|
  {
    hide Step, Feed, Machine.Valid;
    if s != [] {
      var pre := FeedHigh(m, s[0]);
      RunHigh(Feed(m, s[0]).machine, s[1..]);
    }
  }

  lemma RunFirst(m: Machine, s: bytes)
    requires m.Valid() && s != []
    ensures Feed(m, s[0]).machine.Valid()
    ensures var rest := Run(Feed(m, s[0]).machine, s[1..]); Run(m, s) == Result(rest.machine, Feed(m, s[0]).out + rest.out)
  {
    hide Step, Feed, Machine.Valid;
  }

  lemma JoinChar(pre: bytes, c: bytes)
    requires c != []
    ensures (pre + [c[0]]) + c[1..] == pre + c && pre + [] == pre
  {
  }

  /** One whole character writes ASCII, then itself or nothing. */
  lemma RunChar(m: Machine, c: bytes) returns (pre: bytes)
    requires m.Valid() && Utf8.OneChar(c)
    ensures Ascii(pre) && (Run(m, c).out == pre || Run(m, c).out == pre + c)
  {
    hide Run, Step, Feed, Machine.Valid, Ascii;
    var first := Feed(m, c[0]);
    RunFirst(m, c);
    if |c| == 1 {
      FeedAscii(m, c[0]);
      assert c[1..] == [];
      RunNil(first.machine);
      pre := first.out;
      assert first.out + [] == first.out;
    } else {
      pre := FeedHigh(m, c[0]);
      RunHigh(first.machine, c[1..]);
      JoinChar(pre, c);
    }
  }

  lemma CharWritesValid(m: Machine, c: bytes)
    requires m.Valid() && Utf8.OneChar(c)
    ensures Utf8.Valid(Run(m, c).out)
  {
    hide Run, Step, Feed, Machine.Valid;
    var pre := RunChar(m, c);
    Utf8.ValidAscii(pre);
    Utf8.ValidConcat(pre, c);
    assert Utf8.Valid(c) by { assert c[..|c|] == c && c[|c|..] == []; }
  }

  lemma {:induction false} RunValid(m: Machine, s: bytes)
    requires m.Valid() && Utf8.Valid(s)
    ensures Utf8.Valid(Run(m, s).out)
    decreases |s|
  {
    hide Step, Feed, Run, Machine.Valid;
    if s == [] {
      RunNil(m);
    } else {
      var w := Utf8.Width(s[0]);
      var c, rest := s[..w], s[w..];
      assert s == c + rest;
      RunConcat(m, c, rest);
      CharWritesValid(m, c);
      RunValid(Run(m, c).machine, rest);
      Utf8.ValidConcat(Run(m, c).out, Run(Run(m, c).machine, rest).out);
    }
  }

  /** The redacted form of valid text is valid text. */
  lemma RedactKeepsUtf8(s: bytes)
    requires Utf8.Valid(s)
    ensures Utf8.Valid(Redact(s))
  {
    hide Run, Feed, Step;
    RunValid(START, s);
    var r := Run(START, s);
    Utf8.ValidAscii(Pending(r.machine));
    Utf8.ValidConcat(r.out, Pending(r.machine));
  }
}
