/**
 Redacting twice is redacting once. The proof runs two machines side by side: one
 on the input, one on what the first has committed to writing, and shows that the
 second writes back exactly what it reads.
 */
module SqlRedactorIdempotence {
  import opened Bytes
  import opened SqlRedactor
  import opened SqlRedactorLaws

  /** Held-back text that is certain to be written; a pending quote may still turn out to be half of a pair. */
  function Lag(m: Machine): bytes
  {
    if m.state == QuotePending then [] else Pending(m)
  }

  /** `m` reads the input, `n` reads the output of `m`. */
  predicate Sim(m: Machine, n: Machine)
  {
    && m.Valid()
    && n.Valid()
    && match m.state
       case Normal => n.state == Normal && (IdentifierPart(m.previous) <==> IdentifierPart(n.previous))
       case Quoted => n.state == Quoted && n.quote == m.quote && !n.escaped
       case QuotePending => n.state == Quoted && n.quote == m.quote && !n.escaped
       case BlockComment => n.state == Normal && n.previous == SLASH
       case BlockStar => n.state == Normal && n.previous == SLASH
       case DollarCandidate => n.state == DollarCandidate && n.dollarTag == m.dollarTag
       case DollarBody => n.state == DollarBody && n.dollarTag == m.dollarTag && n.dollarMatch == 0
       case Numeric => n.state == Normal && !IdentifierPart(m.previous) && !IdentifierPart(n.previous)
       case Identifier => n.state == Identifier && n.identifier == m.identifier
       case SensitiveSeparator => n.state == SensitiveSeparator && IdentifierPart(m.previous) && IdentifierPart(n.previous)
       case SensitiveValueStart => n.state == SensitiveValueStart || n.state == Normal
       case SensitiveValue => n.state == Normal
       case same => n.state == same
  }

  /**
   From here on `m` reads `b` while `n` reads `echo`: the first commits exactly
   `echo`, the second commits exactly what it reads, and they stay in step.
   */
  predicate Echoes(m: Machine, b: byte, n: Machine, echo: bytes)
    requires m.Valid() && n.Valid()
  {
    var r, q := Feed(m, b), Run(n, echo);
    && Lag(m) + echo == r.out + Lag(r.machine)
    && Lag(n) + echo == q.out + Lag(q.machine)
    && Sim(r.machine, q.machine)
  }

  // ------------------------------------------------- reading the marker itself

  /** The letters of the marker. */
  const WORD: bytes := [82, 69, 68, 65, 67, 84, 69, 68]

  /** An identifier that grows without ending. */
  lemma {:induction false} ReadWord(m: Machine, w: bytes)
    requires m.Valid() && m.state == Identifier && |m.identifier| + |w| <= MAX_IDENTIFIER_BYTES
    requires forall i | 0 <= i < |w| :: IdentifierPart(w[i])
    ensures Run(m, w) == Result(m.(identifier := m.identifier + w), [])
    decreases |w|
  {
    hide Run, Feed, SensitiveKey, EqualFold;
    if w == [] {
      assert m.identifier + w == m.identifier;
      RunNil(m);
    } else {
      var next := m.(identifier := m.identifier + [w[0]]);
      assert Step(m, w[0]) == Turn(next, [], false);
      RunOne(m, w);
      ReadWord(next, w[1..]);
      assert next.identifier + w[1..] == m.identifier + w;
    }
  }

  lemma WordIsNotSensitive()
    ensures !SensitiveKey(WORD) && !EqualFold(WORD, AUTHORIZATION)
  {
    assert Lower(WORD[0]) == 114;
    assert !EqualFold(WORD, PASSWORD) by { assert Lower(PASSWORD[0]) == 112; }
  }

  /** The identifier inside the marker, up to the closing bracket. */
  lemma ReadWordAndBracket(n: Machine)
    requires n.state == Normal
    ensures Run(n, WORD + [RBRACKET])
         == Result(n.(previous := RBRACKET, identifier := [], sensitiveParts := 1), WORD + [RBRACKET])
  {
    hide Run, Feed, SensitiveKey, EqualFold;
    var s := WORD + [RBRACKET];
    var n1 := n.(identifier := [WORD[0]], state := Identifier);
    assert Step(n, s[0]) == Turn(n1, [], false);
    RunOne(n, s);
    assert s[1..] == WORD[1..] + [RBRACKET];
    RunConcat(n1, WORD[1..], [RBRACKET]);
    ReadWord(n1, WORD[1..]);
    assert [WORD[0]] + WORD[1..] == WORD;
    var n2 := n1.(identifier := WORD);
    var n3 := n.(previous := 68, identifier := [], sensitiveParts := 1);
    WordIsNotSensitive();
    assert Step(n2, RBRACKET) == Turn(n3, WORD, true);
    RunStep(n2, [RBRACKET]);
    assert Step(n3, RBRACKET) == Turn(n3.(previous := RBRACKET), [RBRACKET], false);
    RunOne(n3, [RBRACKET]);
    assert [RBRACKET][1..] == [];
    RunNil(n3.(previous := RBRACKET));
  }

  /** Outside every construct the marker is copied and ends with a bracket. */
  lemma ReadMarker(n: Machine)
    requires n.state == Normal
    ensures Run(n, MARKER) == Result(n.(previous := RBRACKET, identifier := [], sensitiveParts := 1), MARKER)
  {
    hide Run, Feed, SensitiveKey, EqualFold;
    var n1 := n.(previous := LBRACKET);
    assert Step(n, LBRACKET) == Turn(n1, [LBRACKET], false);
    RunOne(n, MARKER);
    assert MARKER[1..] == WORD + [RBRACKET];
    ReadWordAndBracket(n1);
  }

  predicate Plain(s: bytes)
  {
    forall i | 0 <= i < |s| :: s[i] != BACKSLASH && !IsQuote(s[i]) && s[i] != LF && s[i] != DOLLAR
  }

  /** Inside a literal or a comment the marker is swallowed like anything else. */
  lemma {:induction false} SwallowPlain(n: Machine, s: bytes)
    requires n.Valid() && Plain(s)
    requires
      || (n.state == Quoted && !n.escaped)
      || n.state == LineComment
      || (n.state == DollarBody && n.dollarMatch == 0)
    ensures Run(n, s) == Result(n, [])
    decreases |s|
  {
    hide Run, Feed, SensitiveKey, EqualFold;
    if s == [] {
      RunNil(n);
    } else {
      if n.state == DollarBody {
        DollarsAtEnds(n.dollarTag, 0);
      }
      assert Step(n, s[0]) == Turn(n, [], false);
      RunOne(n, s);
      SwallowPlain(n, s[1..]);
    }
  }

  // ------------------------------------------------------------ single bytes

  /** The second machine consumes one byte in one turn. */
  lemma RunByte(n: Machine, b: byte)
    requires n.Valid() && !Step(n, b).again
    ensures Run(n, [b]) == Result(Step(n, b).next, Step(n, b).out)
  {
    hide Run, Feed, Step, Machine.Valid;
    StepProgress(n, b);
    RunOne(n, [b]);
    assert [b][1..] == [];
    RunNil(Step(n, b).next);
  }

  /** Nothing is committed: the second machine stands still. */
  lemma EchoNothing(m: Machine, n: Machine, b: byte)
    requires m.Valid() && n.Valid() && !Step(m, b).again
    requires Lag(m) == Step(m, b).out + Lag(Step(m, b).next)
    requires Sim(Step(m, b).next, n)
    ensures Echoes(m, b, n, [])
  {
    hide Run, Feed, Step, Machine.Valid, Sim, Lag;
    FeedOnce(m, b);
    RunNil(n);
    assert Lag(n) + [] == [] + Lag(n) == Lag(n);
    assert Lag(m) + [] == Lag(m);
  }

  /** Both machines consume one byte in one turn. */
  lemma EchoOne(m: Machine, n: Machine, b: byte, c: byte)
    requires m.Valid() && n.Valid() && !Step(m, b).again && !Step(n, c).again
    requires Lag(m) + [c] == Step(m, b).out + Lag(Step(m, b).next)
    requires Lag(n) + [c] == Step(n, c).out + Lag(Step(n, c).next)
    requires Sim(Step(m, b).next, Step(n, c).next)
    ensures Echoes(m, b, n, [c])
  {
    hide Run, Feed, Step, Machine.Valid, Sim, Lag;
    FeedOnce(m, b);
    RunByte(n, c);
  }

  /** The second machine reads one byte that opens a construct, and the construct swallows the rest. */
  lemma EchoSwallow(m: Machine, n: Machine, b: byte, c: byte, rest: bytes)
    requires m.Valid() && n.Valid() && !Step(m, b).again && !Step(n, c).again && Plain(rest)
    requires var t := Step(n, c).next;
      t.Valid() && ((t.state == Quoted && !t.escaped) || t.state == LineComment || (t.state == DollarBody && t.dollarMatch == 0))
    requires Lag(m) + ([c] + rest) == Step(m, b).out + Lag(Step(m, b).next)
    requires Lag(n) + ([c] + rest) == Step(n, c).out + Lag(Step(n, c).next)
    requires Sim(Step(m, b).next, Step(n, c).next)
    ensures Echoes(m, b, n, [c] + rest)
  {
    hide Run, Feed, Step, Machine.Valid, Sim, Lag, Plain;
    FeedOnce(m, b);
    RunOne(n, [c] + rest);
    assert ([c] + rest)[1..] == rest;
    SwallowPlain(Step(n, c).next, rest);
  }

  // --------------------------------------------------------- the normal state

  /** What a byte commits in the normal state. */
  function NormalEcho(previous: byte, b: byte): (echo: bytes)
    ensures echo != [] && (echo[0] == b || (IsDigit(b) && echo[0] == LBRACKET))
  {
    if IsQuote(b) then [b] + MARKER
    else if b == HASH then HASH_COMMENT
    else if StartsNumber(previous, b) then MARKER
    else [b]
  }

  /** Enough agreement on `previous` for the byte that comes next. */
  predicate Agree(m: Machine, n: Machine, b: byte)
  {
    (IdentifierPart(m.previous) <==> IdentifierPart(n.previous)) || !IsDigit(b)
  }

  lemma NumberEchoes(m: Machine, n: Machine, b: byte)
    requires m.state == Normal && n.state == Normal && StartsNumber(m.previous, b)
    ensures Echoes(m, b, n, MARKER)
  {
    hide Run, Feed;
    ReadMarker(n);
    var numeric := m.(state := Numeric);
    assert Step(m, b) == Turn(numeric, MARKER, true);
    FeedAgain(m, b);
    FeedNumber(numeric, b);
    assert MARKER + [] == MARKER;
  }

  lemma HashEchoes(m: Machine, n: Machine)
    requires m.state == Normal && n.state == Normal
    ensures Echoes(m, HASH, n, HASH_COMMENT)
  {
    hide Run, Feed, Echoes, SensitiveKey, EqualFold;
    assert HASH_COMMENT == [HASH] + ([SPACE] + MARKER);
    EchoSwallow(m, n, HASH, HASH, [SPACE] + MARKER);
  }

  lemma NormalEchoes(m: Machine, n: Machine, b: byte)
    requires m.state == Normal && n.state == Normal && Agree(m, n, b)
    ensures Echoes(m, b, n, NormalEcho(m.previous, b))
  {
    hide Run, Feed, Echoes, SensitiveKey, EqualFold;
    if IsQuote(b) {
      EchoSwallow(m, n, b, b, MARKER);
    } else if b == HASH {
      HashEchoes(m, n);
    } else if StartsNumber(m.previous, b) {
      NumberEchoes(m, n, b);
    } else {
      EchoOne(m, n, b, b);
    }
  }

  /** What is read in two pieces is written in two pieces. */
  lemma Splice(lag: bytes, in1: bytes, out1: bytes, mid: bytes, in2: bytes, out2: bytes, lag': bytes)
    requires lag + in1 == out1 + mid && mid + in2 == out2 + lag'
    ensures lag + (in1 + in2) == (out1 + out2) + lag'
  {
    calc {
      lag + (in1 + in2);
      (lag + in1) + in2;
      out1 + (mid + in2);
      (out1 + out2) + lag';
    }
  }

  /** Both machines write their pending text and look at the byte again from states that hold nothing back. */
  lemma HandOn(m: Machine, n: Machine, b: byte, m': Machine, n': Machine, pre: bytes, echo: bytes)
    requires m.Valid() && n.Valid() && m'.Valid() && n'.Valid() && Lag(m') == [] && Lag(n') == []
    requires Lag(m) == Lag(n) && Step(m, b) == Turn(m', Lag(m) + pre, true)
    requires Run(n, pre + echo) == Result(Run(n', echo).machine, (Lag(n) + pre) + Run(n', echo).out)
    requires Echoes(m', b, n', echo)
    ensures Echoes(m, b, n, pre + echo)
  {
    hide Run, Feed, Step, Machine.Valid, Sim, Lag;
    FeedAgain(m, b);
    var x := Lag(m) + pre;
    var r, q := Feed(m', b), Run(n', echo);
    Splice(Lag(m), pre, x, [], echo, r.out, Lag(r.machine));
    Splice(Lag(m), pre, x, [], echo, q.out, Lag(q.machine));
  }

  /** The first machine gives up its pending text and continues in the normal state, and so does the second. */
  lemma ReleaseEchoes(m: Machine, n: Machine, b: byte, m': Machine, n': Machine)
    requires m.Valid() && n.Valid() && m'.state == Normal && n'.state == Normal && Agree(m', n', b) && Lag(m) == Lag(n)
    requires Step(m, b) == Turn(m', Lag(m), true)
    requires n == n' || Step(n, NormalEcho(m'.previous, b)[0]) == Turn(n', Lag(n), true)
    ensures Echoes(m, b, n, NormalEcho(m'.previous, b))
  {
    hide Run, Feed, Step, Sim, NormalEcho, Echoes, SensitiveKey, EqualFold;
    var echo := NormalEcho(m'.previous, b);
    NormalEchoes(m', n', b);
    if n == n' {
      assert [] + Run(n', echo).out == Run(n', echo).out;
    } else {
      RunStep(n, echo);
    }
    assert [] + echo == echo && Lag(m) + [] == Lag(m);
    HandOn(m, n, b, m', n', [], echo);
  }

  // ------------------------------------------------------- one byte, by state

  lemma DashEchoes(m: Machine, n: Machine, b: byte) returns (echo: bytes)
    requires Sim(m, n) && m.state == Dash
    ensures Echoes(m, b, n, echo)
  {
    hide Run, Feed, Echoes, SensitiveKey, EqualFold;
    if b == DASH {
      var rest := [SPACE] + MARKER;
      echo := [b] + rest;
      assert LINE_COMMENT == [DASH] + echo;
      EchoSwallow(m, n, b, b, rest);
    } else {
      echo := NormalEcho(DASH, b);
      ReleaseEchoes(m, n, b, m.(previous := DASH, state := Normal), n.(previous := DASH, state := Normal));
    }
  }

  /** The second machine reads the whole replacement comment. */
  lemma ReadBlockComment(n: Machine)
    requires n.state == Slash
    ensures Run(n, [STAR, SPACE] + MARKER + [SPACE, STAR, SLASH]) == Result(n.(previous := SLASH, state := Normal), BLOCK_COMMENT)
  {
    hide Run, Feed, SensitiveKey, EqualFold;
    var echo := [STAR, SPACE] + MARKER + [SPACE, STAR, SLASH];
    var body := [SPACE] + MARKER + [SPACE, STAR];
    var open := n.(state := BlockComment);
    assert Step(n, STAR) == Turn(open, BLOCK_COMMENT, false);
    RunOne(n, echo);
    assert echo[1..] == body + [SLASH];
    RunConcat(open, body, [SLASH]);
    BlockSwallows(open, body);
    RunByte(open.(state := BlockStar), SLASH);
  }

  lemma SlashEchoes(m: Machine, n: Machine, b: byte) returns (echo: bytes)
    requires Sim(m, n) && m.state == Slash
    ensures Echoes(m, b, n, echo)
  {
    hide Run, Feed, SensitiveKey, EqualFold;
    if b == STAR {
      echo := [STAR, SPACE] + MARKER + [SPACE, STAR, SLASH];
      assert BLOCK_COMMENT == [SLASH] + echo;
      ReadBlockComment(n);
      FeedOnce(m, b);
    } else {
      echo := NormalEcho(SLASH, b);
      ReleaseEchoes(m, n, b, m.(previous := SLASH, state := Normal), n.(previous := SLASH, state := Normal));
    }
  }

  /** A closing quote is only certain when the byte after it is another one. */
  lemma QuotePendingEchoes(m: Machine, n: Machine, b: byte) returns (echo: bytes)
    requires Sim(m, n) && m.state == QuotePending && b != m.quote
    ensures Echoes(m, b, n, echo)
  {
    hide Run, Feed, Echoes, SensitiveKey, EqualFold;
    var q := m.quote;
    var after := NormalEcho(q, b);
    var m', n' := m.(previous := q, state := Normal), n.(previous := q, state := Normal);
    echo := [q] + after;
    ReadQuoteAndMore(n, after);
    NormalEchoes(m', n', b);
    HandOn(m, n, b, m', n', [q], after);
  }

  lemma ReadQuoteAndMore(n: Machine, after: bytes)
    requires n.Valid() && n.state == Quoted && !n.escaped && after != [] && after[0] != n.quote
    ensures var n' := n.(previous := n.quote, state := Normal);
      Run(n, [n.quote] + after) == Result(Run(n', after).machine, [n.quote] + Run(n', after).out)
  {
    hide Run, Feed, SensitiveKey, EqualFold;
    var closing := n.(state := QuotePending);
    QuoteCloses(n);
    RunOne(n, [n.quote] + after);
    assert ([n.quote] + after)[1..] == after;
    RunStep(closing, after);
  }

  lemma LiteralEchoes(m: Machine, n: Machine, b: byte) returns (echo: bytes)
    requires Sim(m, n) && m.state in {Quoted, QuotePending, LineComment, BlockComment, BlockStar}
    ensures Echoes(m, b, n, echo)
  {
    hide Run, Feed, Echoes, SensitiveKey, EqualFold;
    if m.state == QuotePending && b != m.quote {
      echo := QuotePendingEchoes(m, n, b);
    } else if m.state == LineComment && b == LF {
      echo := [b];
      EchoOne(m, n, b, b);
    } else {
      echo := [];
      EchoNothing(m, n, b);
    }
  }

  lemma DollarCandidateEchoes(m: Machine, n: Machine, b: byte) returns (echo: bytes)
    requires Sim(m, n) && m.state == DollarCandidate
    ensures Echoes(m, b, n, echo)
  {
    hide Run, Feed, Echoes, SensitiveKey, EqualFold;
    if b == DOLLAR {
      echo := TagOpens(m, n);
    } else if !Step(m, b).again {
      echo := TagGrows(m, n, b);
    } else {
      echo := TagEnds(m, n, b);
    }
  }

  lemma TagOpens(m: Machine, n: Machine) returns (echo: bytes)
    requires Sim(m, n) && m.state == DollarCandidate
    ensures Echoes(m, DOLLAR, n, echo)
  {
    hide Run, Feed, Echoes, SensitiveKey, EqualFold;
    echo := [DOLLAR] + MARKER;
    assert m.dollarTag + echo == (m.dollarTag + [DOLLAR]) + MARKER;
    EchoSwallow(m, n, DOLLAR, DOLLAR, MARKER);
  }

  lemma TagGrows(m: Machine, n: Machine, b: byte) returns (echo: bytes)
    requires Sim(m, n) && m.state == DollarCandidate && b != DOLLAR && !Step(m, b).again
    ensures Echoes(m, b, n, echo)
  {
    hide Run, Feed, Echoes, SensitiveKey, EqualFold;
    echo := [b];
    EchoOne(m, n, b, b);
  }

  lemma TagEnds(m: Machine, n: Machine, b: byte) returns (echo: bytes)
    requires Sim(m, n) && m.state == DollarCandidate && b != DOLLAR && Step(m, b).again
    ensures Echoes(m, b, n, echo)
  {
    hide Run, Feed, Echoes, SensitiveKey, EqualFold;
    var tag := m.dollarTag;
    var last := tag[|tag| - 1];
    echo := NormalEcho(last, b);
    assert last == DOLLAR || IdentifierPart(last);
    ReleaseEchoes(m, n, b,
      m.(previous := last, dollarTag := [], state := Normal), n.(previous := last, dollarTag := [], state := Normal));
  }

  /** The closing tag is written in one piece, and the second machine finds it from a standing start. */
  lemma DollarBodyEchoes(m: Machine, n: Machine, b: byte) returns (echo: bytes)
    requires Sim(m, n) && m.state == DollarBody
    ensures Echoes(m, b, n, echo)
  {
    hide Run, Feed, SensitiveKey, EqualFold;
    if Step(m, b).next.state == DollarBody {
      echo := [];
      EchoNothing(m, n, b);
    } else {
      var tag := m.dollarTag;
      echo := tag;
      var front := tag[..|tag| - 1];
      assert tag == front + [DOLLAR];
      assert EndsWith(front + [DOLLAR], tag) by { assert tag[0..] == tag; }
      DollarBodyCloses(n, front, DOLLAR);
      FeedOnce(m, b);
    }
  }

  lemma NumericEchoes(m: Machine, n: Machine, b: byte) returns (echo: bytes)
    requires Sim(m, n) && m.state == Numeric
    ensures Echoes(m, b, n, echo)
  {
    hide Run, Feed, Echoes, SensitiveKey, EqualFold;
    if NumberPart(b) {
      echo := [];
      EchoNothing(m, n, b);
    } else {
      echo := NormalEcho(m.previous, b);
      ReleaseEchoes(m, n, b, m.(state := Normal), n);
    }
  }

  lemma SeparatorEchoes(m: Machine, n: Machine, b: byte) returns (echo: bytes)
    requires Sim(m, n) && m.state == SensitiveSeparator
    ensures echo != [] && (!IdentifierPart(b) ==> echo[0] == b)
    ensures Echoes(m, b, n, echo)
  {
    hide Run, Feed, Echoes, SensitiveKey, EqualFold;
    if b == LOWER_B || b == UPPER_B {
      echo := [UPPER_B];
      EchoOne(m, n, b, UPPER_B);
    } else if !Step(m, b).again {
      echo := [b];
      EchoOne(m, n, b, b);
    } else {
      echo := NormalEcho(m.previous, b);
      ReleaseEchoes(m, n, b, m.(state := Normal), n.(state := Normal));
    }
  }

  lemma SensitiveKeysAreShort(id: bytes)
    ensures SensitiveKey(id) ==> |id| < MAX_IDENTIFIER_BYTES
  {
  }

  /** A sensitive key has ended: both machines hand the byte to the separator state. */
  lemma SensitiveIdentifierEchoes(m: Machine, n: Machine, b: byte) returns (echo: bytes)
    requires Sim(m, n) && m.state == Identifier && !IdentifierPart(b) && SensitiveKey(m.identifier)
    ensures Echoes(m, b, n, echo)
  {
    hide Run, Feed, Echoes, SensitiveKey, EqualFold;
    var id := m.identifier;
    var parts := if EqualFold(id, AUTHORIZATION) then 2 else 1;
    var m' := m.(sensitiveParts := parts, previous := id[|id| - 1], identifier := [], state := SensitiveSeparator);
    var n' := n.(sensitiveParts := parts, previous := id[|id| - 1], identifier := [], state := SensitiveSeparator);
    assert Step(n, b) == Turn(n', id, true);
    echo := SeparatorEchoes(m', n', b);
    RunStep(n, echo);
    assert [] + echo == echo && id + [] == id;
    HandOn(m, n, b, m', n', [], echo);
  }

  lemma IdentifierEchoes(m: Machine, n: Machine, b: byte) returns (echo: bytes)
    requires Sim(m, n) && m.state == Identifier
    ensures Echoes(m, b, n, echo)
  {
    hide Run, Feed, Echoes, SensitiveKey, EqualFold;
    var id := m.identifier;
    SensitiveKeysAreShort(id);
    if IdentifierPart(b) && |id| < MAX_IDENTIFIER_BYTES {
      echo := [b];
      EchoOne(m, n, b, b);
    } else if SensitiveKey(id) {
      echo := SensitiveIdentifierEchoes(m, n, b);
    } else {
      var last := id[|id| - 1];
      var parts := if EqualFold(id, AUTHORIZATION) then 2 else 1;
      echo := NormalEcho(last, b);
      assert IdentifierPart(last);
      ReleaseEchoes(m, n, b,
        m.(sensitiveParts := parts, previous := last, identifier := [], state := Normal),
        n.(sensitiveParts := parts, previous := last, identifier := [], state := Normal));
    }
  }

  lemma SensitiveBEchoes(m: Machine, n: Machine, b: byte) returns (echo: bytes)
    requires Sim(m, n) && m.state == SensitiveB
    ensures Echoes(m, b, n, echo)
  {
    hide Run, Feed, Echoes, SensitiveKey, EqualFold;
    if b == LOWER_Y || b == UPPER_Y {
      echo := [UPPER_Y];
      EchoOne(m, n, b, UPPER_Y);
    } else {
      echo := NormalEcho(UPPER_B, b);
      ReleaseEchoes(m, n, b, m.(previous := UPPER_B, state := Normal), n.(previous := UPPER_B, state := Normal));
    }
  }

  /** The first byte of a sensitive value becomes the marker, which the second machine copies. */
  lemma ValueMarkerEchoes(m: Machine, n: Machine, b: byte)
    requires Sim(m, n) && m.state == SensitiveValueStart && ValuePart(b)
    ensures Echoes(m, b, n, MARKER)
  {
    hide Run, Feed, SensitiveKey, EqualFold;
    var n' := n.(state := Normal);
    ReadMarker(n');
    if n.state != Normal {
      assert Step(n, LBRACKET) == Turn(n', [], true);
      RunStep(n, MARKER);
      assert [] + MARKER == MARKER;
    }
    FeedOnce(m, b);
    assert MARKER + [] == MARKER;
  }

  lemma ValueStartEchoes(m: Machine, n: Machine, b: byte) returns (echo: bytes)
    requires Sim(m, n) && m.state == SensitiveValueStart
    ensures Echoes(m, b, n, echo)
  {
    hide Run, Feed, Echoes, SensitiveKey, EqualFold;
    if IsBlank(b) {
      echo := [b];
      EchoOne(m, n, b, b);
    } else if ValuePart(b) {
      echo := MARKER;
      ValueMarkerEchoes(m, n, b);
    } else {
      echo := NormalEcho(m.previous, b);
      ReleaseEchoes(m, n, b, m.(state := Normal), n.(state := Normal));
    }
  }

  lemma ValueEchoes(m: Machine, n: Machine, b: byte) returns (echo: bytes)
    requires Sim(m, n) && m.state == SensitiveValue
    ensures Echoes(m, b, n, echo)
  {
    hide Run, Feed, Echoes, SensitiveKey, EqualFold;
    if ValuePart(b) {
      echo := [];
      EchoNothing(m, n, b);
    } else if !Step(m, b).again {
      echo := [b];
      EchoOne(m, n, b, b);
    } else {
      echo := NormalEcho(m.previous, b);
      ReleaseEchoes(m, n, b, m.(state := Normal), n);
    }
  }

  // -------------------------------------------------------------- whole inputs

  /** One input byte keeps the two machines in step. */
  lemma ByteEchoes(m: Machine, n: Machine, b: byte) returns (echo: bytes)
    requires Sim(m, n)
    ensures Echoes(m, b, n, echo)
  {
    hide Run, Feed, Step, Echoes;
    match m.state {
      case Normal =>
        echo := NormalEcho(m.previous, b);
        NormalEchoes(m, n, b);
      case Dash => echo := DashEchoes(m, n, b);
      case Slash => echo := SlashEchoes(m, n, b);
      case DollarCandidate => echo := DollarCandidateEchoes(m, n, b);
      case DollarBody => echo := DollarBodyEchoes(m, n, b);
      case Numeric => echo := NumericEchoes(m, n, b);
      case Identifier => echo := IdentifierEchoes(m, n, b);
      case SensitiveSeparator => echo := SeparatorEchoes(m, n, b);
      case SensitiveB => echo := SensitiveBEchoes(m, n, b);
      case SensitiveValueStart => echo := ValueStartEchoes(m, n, b);
      case SensitiveValue => echo := ValueEchoes(m, n, b);
      case _ => echo := LiteralEchoes(m, n, b);
    }
  }

  /** A whole input keeps the two machines in step. */
  lemma {:induction false} RunEchoes(m: Machine, n: Machine, s: bytes) returns (echo: bytes)
    requires Sim(m, n)
    ensures var r, q := Run(m, s), Run(n, echo);
      && Lag(m) + echo == r.out + Lag(r.machine)
      && Lag(n) + echo == q.out + Lag(q.machine)
      && Sim(r.machine, q.machine)
    decreases |s|
  {
    assert m.Valid() && n.Valid();
    hide Feed, Step, Lag, Sim, Machine.Valid;
    if s == [] {
      echo := [];
      assert Lag(m) + [] == [] + Lag(m) && Lag(n) + [] == [] + Lag(n);
    } else {
      var first := ByteEchoes(m, n, s[0]);
      var m', n' := Feed(m, s[0]), Run(n, first);
      var rest := RunEchoes(m'.machine, n'.machine, s[1..]);
      echo := first + rest;
      RunConcat(n, first, rest);
      var r, q := Run(m'.machine, s[1..]), Run(n'.machine, rest);
      Splice(Lag(m), first, m'.out, Lag(m'.machine), rest, r.out, Lag(r.machine));
      Splice(Lag(n), first, n'.out, Lag(n'.machine), rest, q.out, Lag(q.machine));
    }
  }

  /** Redacting the redacted text changes nothing, for every input. */
  lemma RedactIsIdempotent(s: bytes)
    ensures Redact(Redact(s)) == Redact(s)
  {
    hide Run, Feed, Step;
    var echo := RunEchoes(START, START, s);
    var r, q := Run(START, s), Run(START, echo);
    assert [] + echo == echo;
    if r.machine.state == QuotePending {
      var quote := r.machine.quote;
      RunConcat(START, echo, [quote]);
      assert Step(q.machine, quote) == Turn(q.machine.(state := QuotePending), [], false) by { QuoteCloses(q.machine); }
      RunByte(q.machine, quote);
      assert q.out + [] == q.out;
      assert echo == r.out == q.out;
    }
  }

  lemma QuoteCloses(n: Machine)
    requires n.Valid() && n.state == Quoted && !n.escaped
    ensures Step(n, n.quote) == Turn(n.(state := QuotePending), [], false)
  {
  }
}
