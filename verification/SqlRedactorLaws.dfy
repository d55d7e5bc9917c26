/** What the redactor does to whole inputs: chunking, size, and which bytes can reach the output. */
module SqlRedactorLaws {
  import opened Bytes
  import opened SqlRedactor

  // ---------------------------------------------------------------- chunking

  /** Two writes in a row do what one write of their concatenation does. */
  lemma {:induction false} RunConcat(m: Machine, a: bytes, b: bytes)
    requires m.Valid()
    ensures var first := Run(m, a);
      var second := Run(first.machine, b);
      Run(m, a + b) == Result(second.machine, first.out + second.out)
    decreases |a|
  {
    hide Feed;
    if a == [] {
      assert a + b == b;
    } else {
      var head := Feed(m, a[0]);
      RunConcat(head.machine, a[1..], b);
      assert (a + b)[0] == a[0] && (a + b)[1..] == a[1..] + b;
      var tail := Run(head.machine, a[1..]);
      assert head.out + (tail.out + Run(tail.machine, b).out) == (head.out + tail.out) + Run(tail.machine, b).out;
    }
  }

  function Concat(chunks: seq<bytes>): bytes
  {
    if chunks == [] then [] else chunks[0] + Concat(chunks[1..])
  }

  /** One Write call per chunk. */
  function RunChunks(m: Machine, chunks: seq<bytes>): (r: Result)
    requires m.Valid()
    ensures r.machine.Valid()
    decreases |chunks|
  {
    if chunks == [] then Result(m, [])
    else
      var first := Run(m, chunks[0]);
      var rest := RunChunks(first.machine, chunks[1..]);
      Result(rest.machine, first.out + rest.out)
  }

  /** However the input is cut into writes, the registers and the concatenated output are those of one write. */
  lemma {:induction false} ChunkingDoesNotMatter(m: Machine, chunks: seq<bytes>)
    requires m.Valid()
    ensures RunChunks(m, chunks) == Run(m, Concat(chunks))
    decreases |chunks|
  {
    if chunks != [] {
      var first := Run(m, chunks[0]);
      ChunkingDoesNotMatter(first.machine, chunks[1..]);
      RunConcat(m, chunks[0], Concat(chunks[1..]));
    }
  }

  // -------------------------------------------------------------- size bound

  /** Output that has been paid for but not written yet. */
  function Credit(m: Machine): nat
  {
    match m.state
    case Dash => 1
    case Slash => 4
    case QuotePending => 1
    case DollarCandidate => |m.dollarTag|
    case DollarBody => m.dollarMatch
    case Identifier => |m.identifier|
    case SensitiveB => 1
    case _ => 0
  }

  /** A byte that is not handed on pays for what it writes; one that is handed on leaves the budget whole. */
  predicate WithinBudget(m: Machine, b: byte, t: Turn)
  {
    && |t.out| + Credit(t.next) <= Credit(m) + 12
    && (t.again && m.state != Normal ==> |t.out| + Credit(t.next) <= Credit(m))
    && (t.again && m.state == Normal ==> t.out == MARKER && t.next.state == Numeric && NumberPart(b))
  }

  lemma TextCost(m: Machine, b: byte)
    requires m.Valid() && TextState(m.state)
    ensures WithinBudget(m, b, Step(m, b))
  {
  }

  lemma WordCost(m: Machine, b: byte)
    requires m.Valid() && WordState(m.state)
    ensures WithinBudget(m, b, Step(m, b))
  {
  }

  lemma StepCost(m: Machine, b: byte)
    requires m.Valid()
    ensures WithinBudget(m, b, Step(m, b))
  {
    hide SensitiveKey, EqualFold;
    if TextState(m.state) {
      TextCost(m, b);
    } else if WordState(m.state) {
      WordCost(m, b);
    } else {
      assert m.state in {Normal, DollarCandidate, DollarBody, Identifier};
    }
  }

  lemma FeedNumber(m: Machine, b: byte)
    requires m.state == Numeric && NumberPart(b)
    ensures Feed(m, b) == Result(m, [])
  {
    FeedOnce(m, b);
  }

  lemma {:induction false} FeedCost(m: Machine, b: byte)
    requires m.Valid()
    ensures var r := Feed(m, b); |r.out| + Credit(r.machine) <= Credit(m) + 12
    decreases Rank(m.state, b)
  {
    StepProgress(m, b);
    StepCost(m, b);
    hide Step, Feed;
    var t := Step(m, b);
    if t.again {
      FeedAgain(m, b);
      if m.state == Normal {
        FeedNumber(t.next, b);
      } else {
        FeedCost(t.next, b);
      }
    } else {
      FeedOnce(m, b);
    }
  }

  lemma {:induction false} RunCost(m: Machine, s: bytes)
    requires m.Valid()
    ensures var r := Run(m, s); |r.out| + Credit(r.machine) <= Credit(m) + 12 * |s|
    decreases |s|
  {
    hide Feed;
    if s != [] {
      FeedCost(m, s[0]);
      RunCost(Feed(m, s[0]).machine, s[1..]);
    }
  }

  /** Redacting never makes the text more than twelve times longer. */
  lemma RedactSize(s: bytes)
    ensures |Redact(s)| <= 12 * |s|
  {
    RunCost(START, s);
  }

  // ----------------------------------------------- closed literals are opaque

  /** Feeding a byte that the current state swallows. */
  lemma RunOne(m: Machine, s: bytes)
    requires m.Valid() && s != [] && !Step(m, s[0]).again
    ensures Step(m, s[0]).next.Valid()
    ensures var rest := Run(Step(m, s[0]).next, s[1..]);
      Run(m, s) == Result(rest.machine, Step(m, s[0]).out + rest.out)
  {
    RunStep(m, s);
  }

  /** Twelve is the best factor: a lone `#` reaches it. */
  lemma RedactSizeIsTight()
    ensures |Redact([HASH])| == 12 * |[HASH]|
  {
    var s := [HASH];
    RunOne(START, s);
    assert s[1..] == [];
  }

  /** The last byte of a run, when it is consumed in one turn. */
  lemma RunPush(m: Machine, front: bytes, last: byte)
    requires m.Valid() && !Step(Run(m, front).machine, last).again
    ensures var at := Run(m, front);
      Run(m, front + [last]) == Result(Step(at.machine, last).next, at.out + Step(at.machine, last).out)
  {
    hide Step, Run;
    RunConcat(m, front, [last]);
    RunOne(Run(m, front).machine, [last]);
    assert [last][1..] == [];
    RunNil(Step(Run(m, front).machine, last).next);
  }

  /**
   The inside of a quoted literal, read on its own: a backslash hides the next
   byte, a doubled quote stands for one, and no other quote occurs.
   */
  predicate QuotedInside(s: bytes, q: byte)
    decreases |s|
  {
    if s == [] then true
    else if s[0] == BACKSLASH then |s| >= 2 && QuotedInside(s[2..], q)
    else if s[0] == q then |s| >= 2 && s[1] == q && QuotedInside(s[2..], q)
    else QuotedInside(s[1..], q)
  }

  /** Inside a literal nothing is written, and the literal is still open exactly after a well-formed inside. */
  lemma {:induction false} QuotedSwallows(m: Machine, s: bytes)
    requires m.Valid() && m.state == Quoted && !m.escaped
    requires QuotedInside(s, m.quote)
    ensures Run(m, s) == Result(m, [])
    decreases |s|
  {
    hide Feed, SensitiveKey, EqualFold;
    if s == [] {
    } else if s[0] == BACKSLASH || s[0] == m.quote {
      RunOne(m, s);
      var mid := Step(m, s[0]).next;
      RunOne(mid, s[1..]);
      assert s[1..][1..] == s[2..];
      QuotedSwallows(m, s[2..]);
      assert Step(mid, s[1]).next == m;
    } else {
      RunOne(m, s);
      QuotedSwallows(m, s[1..]);
    }
  }

  /** Anything else between two quotes is noticed: it closes the literal early or leaves it hanging. */
  lemma {:induction false} QuotedInsideIsExact(m: Machine, s: bytes)
    requires m.Valid() && m.state == Quoted && !m.escaped
    ensures Run(m, s) == Result(m, []) <==> QuotedInside(s, m.quote)
    decreases |s|
  {
    hide Feed, SensitiveKey, EqualFold;
    if QuotedInside(s, m.quote) {
      QuotedSwallows(m, s);
    } else if s[0] != BACKSLASH && s[0] != m.quote {
      RunOne(m, s);
      QuotedInsideIsExact(m, s[1..]);
    } else {
      RunOne(m, s);
      var mid := Step(m, s[0]).next;
      if |s| == 1 {
        assert s[1..] == [];
      } else if s[0] == m.quote && s[1] != m.quote {
        RunStep(mid, s[1..]);
        assert Run(mid, s[1..]).out[0] == m.quote;
      } else {
        RunOne(mid, s[1..]);
        assert s[1..][1..] == s[2..];
        QuotedInsideIsExact(m, s[2..]);
      }
    }
  }

  /** The inside of a block comment: its first closing mark is the one that ends it. */
  predicate BlockInside(s: bytes)
  {
    forall i | 0 <= i && i + 1 < |s| :: !(s[i] == STAR && s[i + 1] == SLASH)
  }

  /** After a comment's inside the machine only remembers whether the last byte was a star. */
  lemma {:induction false} BlockSwallows(m: Machine, s: bytes)
    requires m.Valid() && m.state in {BlockComment, BlockStar}
    requires BlockInside(s)
    requires m.state == BlockStar && s != [] ==> s[0] != SLASH
    ensures Run(m, s) == Result(m.(state :=
        if s == [] then m.state else if s[|s| - 1] == STAR then BlockStar else BlockComment), [])
    decreases |s|
  {
    hide Feed, SensitiveKey, EqualFold;
    if s != [] {
      RunOne(m, s);
      var next := Step(m, s[0]).next;
      assert BlockInside(s[1..]) by {
        var t := s[1..];
        forall i | 0 <= i && i + 1 < |t| ensures !(t[i] == STAR && t[i + 1] == SLASH) {
          assert t[i] == s[i + 1];
        }
      }
      BlockSwallows(next, s[1..]);
    }
  }

  lemma {:induction false} LineSwallows(m: Machine, s: bytes)
    requires m.Valid() && m.state == LineComment && LF !in s
    ensures Run(m, s) == Result(m, [])
    decreases |s|
  {
    hide Feed, SensitiveKey, EqualFold;
    if s != [] {
      assert s[0] in s;
      RunOne(m, s);
      assert forall x | x in s[1..] :: x in s;
      LineSwallows(m, s[1..]);
    }
  }

  /**
   A whole quoted literal writes its opening quote and the marker, whatever is
   between the quotes, and leaves the same registers.
   */
  lemma QuotedLiteral(m: Machine, q: byte, inside: bytes)
    requires m.state == Normal && (q == 39 || q == 34) && QuotedInside(inside, q)
    ensures Run(m, [q] + inside + [q]) == Result(m.(quote := q, escaped := false, state := QuotePending), [q] + MARKER)
  {
    hide Feed, SensitiveKey, EqualFold;
    var s := [q] + inside + [q];
    RunOne(m, s);
    assert s[1..] == inside + [q];
    var open := m.(quote := q, escaped := false, state := Quoted);
    RunConcat(open, inside, [q]);
    QuotedSwallows(open, inside);
    RunOne(open, [q]);
    assert [q][1..] == [];
  }

  /** A whole block comment is replaced by a fixed one. */
  lemma BlockCommentLiteral(m: Machine, inside: bytes)
    requires m.state == Normal && BlockInside(inside + [STAR])
    ensures Run(m, [SLASH, STAR] + inside + [STAR, SLASH]) == Result(m.(previous := SLASH), BLOCK_COMMENT)
  {
    hide Feed, SensitiveKey, EqualFold;
    var s := [SLASH, STAR] + inside + [STAR, SLASH];
    RunOne(m, s);
    var slash := m.(state := Slash);
    RunOne(slash, s[1..]);
    var body := inside + [STAR];
    assert s[1..][1..] == body + [SLASH];
    var open := m.(state := BlockComment);
    RunConcat(open, body, [SLASH]);
    BlockSwallows(open, body);
    RunOne(open.(state := BlockStar), [SLASH]);
    assert [SLASH][1..] == [];
  }

  /** The rest of a line comment, after its opening mark. */
  lemma LineCommentTail(m: Machine, inside: bytes)
    requires m.Valid() && m.state == LineComment && LF !in inside
    ensures Run(m, inside + [LF]) == Result(m.(previous := LF, state := Normal), [LF])
  {
    hide Feed, SensitiveKey, EqualFold;
    RunConcat(m, inside, [LF]);
    LineSwallows(m, inside);
    RunOne(m, [LF]);
    assert [LF][1..] == [];
  }

  /** A whole dash comment is replaced by a fixed one. */
  lemma DashCommentLiteral(m: Machine, inside: bytes)
    requires m.state == Normal && LF !in inside
    ensures Run(m, [DASH, DASH] + inside + [LF]) == Result(m.(previous := LF), LINE_COMMENT + [LF])
  {
    hide Feed, SensitiveKey, EqualFold;
    var s := [DASH, DASH] + inside + [LF];
    RunOne(m, s);
    RunOne(m.(state := Dash), s[1..]);
    assert s[1..][1..] == inside + [LF];
    LineCommentTail(m.(state := LineComment), inside);
  }

  /** A whole hash comment is replaced by a fixed one. */
  lemma HashCommentLiteral(m: Machine, inside: bytes)
    requires m.state == Normal && LF !in inside
    ensures Run(m, [HASH] + inside + [LF]) == Result(m.(previous := LF), HASH_COMMENT + [LF])
  {
    hide Feed, SensitiveKey, EqualFold;
    var s := [HASH] + inside + [LF];
    RunOne(m, s);
    assert s[1..] == inside + [LF];
    LineCommentTail(m.(state := LineComment), inside);
  }

  /** Text that leaves the machine in the same place can be exchanged anywhere in a larger text. */
  lemma ExchangeInContext(before: bytes, a: bytes, b: bytes, after: bytes)
    requires var m := Run(START, before).machine; Run(m, a) == Run(m, b)
    ensures Redact(before + a + after) == Redact(before + b + after)
    ensures Run(START, before + a) == Run(START, before + b)
  {
    hide Run, Feed, Step;
    RunConcat(START, before, a);
    RunConcat(START, before, b);
    RunConcat(START, before + a, after);
    RunConcat(START, before + b, after);
  }

  /** Wherever a literal has been opened, what is inside it shows neither in the output nor in the registers. */
  lemma QuotedContentsDoNotShow(before: bytes, a: bytes, b: bytes, after: bytes)
    requires var m := Run(START, before).machine;
             m.state == Quoted && !m.escaped && QuotedInside(a, m.quote) && QuotedInside(b, m.quote)
    ensures Redact(before + a + after) == Redact(before + b + after) && Run(START, before + a) == Run(START, before + b)
  {
    hide Run, Feed, Step;
    var m := Run(START, before).machine;
    QuotedSwallows(m, a);
    QuotedSwallows(m, b);
    ExchangeInContext(before, a, b, after);
  }

  /** The same for a block comment, up to its end. */
  lemma CommentContentsDoNotShow(before: bytes, a: bytes, b: bytes, after: bytes)
    requires Run(START, before).machine.state == BlockComment && BlockInside(a + [STAR]) && BlockInside(b + [STAR])
    ensures Redact(before + (a + [STAR]) + after) == Redact(before + (b + [STAR]) + after)
    ensures Run(START, before + (a + [STAR])) == Run(START, before + (b + [STAR]))
  {
    hide Run, Feed, Step;
    var m := Run(START, before).machine;
    BlockSwallows(m, a + [STAR]);
    BlockSwallows(m, b + [STAR]);
    ExchangeInContext(before, a + [STAR], b + [STAR], after);
  }

  /** The same for a line comment. */
  lemma LineContentsDoNotShow(before: bytes, a: bytes, b: bytes, after: bytes)
    requires Run(START, before).machine.state == LineComment && LF !in a && LF !in b
    ensures Redact(before + a + after) == Redact(before + b + after) && Run(START, before + a) == Run(START, before + b)
  {
    hide Run, Feed, Step;
    var m := Run(START, before).machine;
    LineSwallows(m, a);
    LineSwallows(m, b);
    ExchangeInContext(before, a, b, after);
  }

  // ------------------------------------------------------ dollar-quote search

  predicate EndsWith(s: bytes, t: bytes)
  {
    |t| <= |s| && s[|s| - |t|..] == t
  }

  /** `tag` has not occurred in `s` yet. */
  predicate NoOccurrence(s: bytes, tag: bytes)
  {
    forall e | 0 <= e <= |s| :: !EndsWith(s[..e], tag)
  }

  /** `k` is the longest proper beginning of `tag` that `s` ends with. */
  predicate LongestBorder(s: bytes, tag: bytes, k: nat)
  {
    && k < |tag|
    && EndsWith(s, tag[..k])
    && forall j | k < j < |tag| :: !EndsWith(s, tag[..j])
  }

  /** In a complete tag `$` stands at both ends only. */
  lemma DollarsAtEnds(tag: bytes, i: nat)
    requires ClosedTag(tag) && i < |tag|
    ensures tag[i] == DOLLAR <==> i == 0 || i == |tag| - 1
  {
    var open := tag[..|tag| - 1];
    if i < |tag| - 1 {
      assert open[i] == tag[i];
    }
  }

  lemma EndsWithPush(s: bytes, b: byte, t: bytes)
    requires t != []
    ensures EndsWith(s + [b], t) <==> t[|t| - 1] == b && EndsWith(s, t[..|t| - 1])
  {
    var u := s + [b];
    var n := |t| - 1;
    if EndsWith(u, t) {
      assert u[|u| - |t|..][n] == t[n];
      assert s[|s| - n..] == u[|u| - |t|..][..n];
    }
    if t[n] == b && EndsWith(s, t[..n]) {
      calc {
        u[|u| - |t|..];
        s[|s| - n..] + [b];
        t[..n] + [b];
        t;
      }
    }
  }

  /** Two nested suffixes that are both beginnings of the tag would put a `$` inside it. */
  lemma NoInnerBorder(s: bytes, tag: bytes, j: nat, k: nat)
    requires ClosedTag(tag) && 0 < j < k < |tag|
    requires EndsWith(s, tag[..k])
    ensures !EndsWith(s, tag[..j])
  {
    if EndsWith(s, tag[..j]) {
      assert s[|s| - j..][0] == tag[..j][0] == DOLLAR;
      assert s[|s| - k..][k - j] == tag[..k][k - j];
      assert tag[k - j] == DOLLAR;
      DollarsAtEnds(tag, k - j);
    }
  }

  /** One byte of the online matcher, against the border it is meant to track. */
  lemma MatchStep(s: bytes, b: byte, tag: bytes, k: nat)
    requires ClosedTag(tag) && LongestBorder(s, tag, k)
    ensures b == tag[k] && k + 1 == |tag| <==> EndsWith(s + [b], tag)
    ensures !EndsWith(s + [b], tag) ==>
      LongestBorder(s + [b], tag, if b == tag[k] then k + 1 else if b == DOLLAR then 1 else 0)
  {
    var u := s + [b];
    EndsWithPush(s, b, tag);
    assert tag[..|tag|] == tag;
    forall j | 0 < j <= |tag| && EndsWith(u, tag[..j])
      ensures j <= k + 1
      ensures j == k + 1 ==> b == tag[k]
      ensures j <= k && b != DOLLAR ==> j == 0
      ensures j <= k ==> b == DOLLAR && j == 1
    {
      EndsWithPush(s, b, tag[..j]);
      assert tag[..j][..j - 1] == tag[..j - 1];
      if j <= k {
        if j > 1 {
          NoInnerBorder(s, tag, j - 1, k);
        }
      }
    }
    if b == tag[k] && k + 1 < |tag| {
      EndsWithPush(s, b, tag[..k + 1]);
      assert tag[..k + 1][..k] == tag[..k];
    } else if b == DOLLAR && b != tag[k] {
      assert tag[..1] == [DOLLAR] && u[|u| - 1..] == [DOLLAR];
    } else if b != tag[k] {
      assert tag[..0] == [] && u[|u|..] == [];
    }
  }

  lemma NoOccurrencePush(s: bytes, b: byte, tag: bytes)
    ensures NoOccurrence(s + [b], tag) <==> NoOccurrence(s, tag) && !EndsWith(s + [b], tag)
  {
    var u := s + [b];
    assert u[..|u|] == u;
    forall e | 0 <= e <= |s| ensures u[..e] == s[..e] { }
    if NoOccurrence(u, tag) {
      forall e | 0 <= e <= |s| ensures !EndsWith(s[..e], tag) { assert u[..e] == s[..e]; }
    }
  }

  /** While the tag has not been seen, nothing is written and the match count is the longest border. */
  lemma {:induction false} DollarBodyStays(m: Machine, s: bytes)
    requires m.Valid() && m.state == DollarBody && m.dollarMatch == 0
    requires NoOccurrence(s, m.dollarTag)
    ensures var k := Run(m, s).machine.dollarMatch;
      Run(m, s) == Result(m.(dollarMatch := k), []) && LongestBorder(s, m.dollarTag, k)
    decreases |s|
  {
    hide Feed, SensitiveKey, EqualFold;
    if s == [] {
      assert m.dollarTag[..0] == [];
    } else {
      var front, last := s[..|s| - 1], s[|s| - 1];
      assert s == front + [last];
      NoOccurrencePush(front, last, m.dollarTag);
      DollarBodyStays(m, front);
      RunPush(m, front, last);
      MatchStep(front, last, m.dollarTag, Run(m, front).machine.dollarMatch);
    }
  }

  /**
   The matcher (which falls back to 1 or 0 instead of a failure table) closes the
   body exactly where a plain search for the tag finds it first.
   */
  lemma DollarBodyCloses(m: Machine, front: bytes, last: byte)
    requires m.Valid() && m.state == DollarBody && m.dollarMatch == 0
    requires NoOccurrence(front, m.dollarTag)
    ensures EndsWith(front + [last], m.dollarTag) <==> Run(m, front + [last]).machine.state != DollarBody
    ensures EndsWith(front + [last], m.dollarTag) ==>
      Run(m, front + [last]) == Result(m.(previous := DOLLAR, dollarTag := [], state := Normal), m.dollarTag)
  {
    hide Feed, SensitiveKey, EqualFold;
    DollarBodyStays(m, front);
    RunPush(m, front, last);
    MatchStep(front, last, m.dollarTag, Run(m, front).machine.dollarMatch);
  }

  /**
   A whole dollar-quoted literal writes its two tags and the marker, whatever is
   between them, as long as the tag does not occur earlier.
   */
  lemma DollarLiteral(m: Machine, tag: bytes, inside: bytes)
    requires m.Valid() && m.state == DollarCandidate && tag == m.dollarTag + [DOLLAR]
    requires NoOccurrence(inside + m.dollarTag, tag)
    ensures Run(m, [DOLLAR] + inside + tag)
         == Result(m.(previous := DOLLAR, dollarMatch := 0, dollarTag := [], state := Normal), tag + MARKER + tag)
  {
    hide Feed, SensitiveKey, EqualFold;
    var s, front := [DOLLAR] + inside + tag, inside + m.dollarTag;
    var open := m.(dollarTag := tag, dollarMatch := 0, state := DollarBody);
    assert s[1..] == front + [DOLLAR];
    assert (front + [DOLLAR])[|inside|..] == tag;
    RunOne(m, s);
    DollarBodyCloses(open, front, DOLLAR);
  }

  /** The same for a dollar-quoted body, up to the first place where the tag ends. */
  lemma DollarContentsDoNotShow(before: bytes, a: bytes, b: bytes, after: bytes)
    requires var m := Run(START, before).machine;
             && m.state == DollarBody && m.dollarMatch == 0
             && NoOccurrence(a + m.dollarTag[..|m.dollarTag| - 1], m.dollarTag)
                 && NoOccurrence(b + m.dollarTag[..|m.dollarTag| - 1], m.dollarTag)
    ensures var tag := Run(START, before).machine.dollarTag;
            Redact(before + (a + tag) + after) == Redact(before + (b + tag) + after)
                && Run(START, before + (a + tag)) == Run(START, before + (b + tag))
  {
    hide Run, Feed, Step, NoOccurrence;
    var m := Run(START, before).machine;
    BodyCloses(m, a);
    BodyCloses(m, b);
    ExchangeInContext(before, a + m.dollarTag, b + m.dollarTag, after);
  }

  lemma BodyCloses(m: Machine, inside: bytes)
    requires m.Valid() && m.state == DollarBody && m.dollarMatch == 0
    requires NoOccurrence(inside + m.dollarTag[..|m.dollarTag| - 1], m.dollarTag)
    ensures Run(m, inside + m.dollarTag) == Result(m.(previous := DOLLAR, dollarTag := [], state := Normal), m.dollarTag)
  {
    hide Run, Feed, Step, NoOccurrence;
    var tag := m.dollarTag;
    var front := inside + tag[..|tag| - 1];
    assert tag == tag[..|tag| - 1] + [DOLLAR];
    assert inside + tag == front + [DOLLAR];
    assert (front + [DOLLAR])[|inside|..] == tag;
    DollarBodyCloses(m, front, DOLLAR);
  }
}
