/**
 The policy of the SQL console: one statement at a time, told apart from the comments
 around it, classified by its first word.
 */
module SqlConsole {
  import opened Bytes

  datatype Option<T> = Nothing | Some(value: T)

  // -------------------------------------------------------------- white space

  /** The width of the white-space character, in UTF-8, that the text starts with; 0 if there is none. */
  function SpaceWidth(s: bytes): (w: nat)
    ensures w <= |s| && forall i | 0 <= i < w :: SpaceByte(s[i])
  {
    if |s| >= 1 && (9 <= s[0] <= 13 || s[0] == 32) then 1
    else if |s| >= 2 && s[0] == 0xC2 && (s[1] == 0x85 || s[1] == 0xA0) then 2
    else if |s| >= 3 && s[0] == 0xE1 && s[1] == 0x9A && s[2] == 0x80 then 3
    else if |s| >= 3 && s[0] == 0xE2 && s[1] == 0x80
        && (0x80 <= s[2] <= 0x8A || s[2] == 0xA8 || s[2] == 0xA9 || s[2] == 0xAF) then 3
    else if |s| >= 3 && s[0] == 0xE2 && s[1] == 0x81 && s[2] == 0x9F then 3
    else if |s| >= 3 && s[0] == 0xE3 && s[1] == 0x80 && s[2] == 0x80 then 3
    else 0
  }

  /** The same at the end. */
  function EndWidth(s: bytes): (w: nat)
    ensures w <= |s| && (w > 0 ==> SpaceWidth(s[|s| - w..]) == w)
  {
    if |s| >= 1 && SpaceWidth(s[|s| - 1..]) == 1 then 1
    else if |s| >= 2 && SpaceWidth(s[|s| - 2..]) == 2 then 2
    else if |s| >= 3 && SpaceWidth(s[|s| - 3..]) == 3 then 3
    else 0
  }

  /** Bytes that white space is made of. */
  predicate SpaceByte(b: byte)
  {
    9 <= b <= 13 || b == 32 || b >= 0x80
  }

  function TrimLeft(s: bytes): (r: bytes)
    ensures |r| <= |s|
  {
    if SpaceWidth(s) > 0 then TrimLeft(s[SpaceWidth(s)..]) else s
  }

  function TrimRight(s: bytes): (r: bytes)
    ensures |r| <= |s|
  {
    if EndWidth(s) > 0 then TrimRight(s[..|s| - EndWidth(s)]) else s
  }

  function Trim(s: bytes): bytes
  {
    TrimRight(TrimLeft(s))
  }

  /** Trimming takes white space off an end, and all of it. */
  lemma {:induction false} TrimLeftFacts(s: bytes)
    ensures var r := TrimLeft(s); |r| <= |s| && r == s[|s| - |r|..] && SpaceWidth(r) == 0
    ensures forall i | 0 <= i < |s| - |TrimLeft(s)| :: SpaceByte(s[i])
  {
    hide SpaceWidth, SpaceByte;
    var w := SpaceWidth(s);
    if w > 0 {
      TrimLeftFacts(s[w..]);
      forall i | w <= i < |s| - |TrimLeft(s)|
        ensures SpaceByte(s[i])
      {
        assert s[w..][i - w] == s[i];
      }
    }
  }

  lemma {:induction false} TrimRightFacts(s: bytes)
    ensures var r := TrimRight(s); |r| <= |s| && r == s[..|r|] && EndWidth(r) == 0
    ensures forall i | |TrimRight(s)| <= i < |s| :: SpaceByte(s[i])
  {
    hide SpaceWidth, SpaceByte, EndWidth;
    var w := EndWidth(s);
    if w > 0 {
      var t, cut := s[..|s| - w], s[|s| - w..];
      TrimRightFacts(t);
      forall i | |TrimRight(s)| <= i < |s|
        ensures SpaceByte(s[i])
      {
        if i >= |s| - w {
          assert cut[i - (|s| - w)] == s[i];
        } else {
          assert t[i] == s[i];
        }
      }
    }
  }

  /** What starts a text still starts its non-empty prefixes, or nothing does. */
  lemma PrefixStarts(s: bytes, n: nat)
    requires n <= |s| && SpaceWidth(s) == 0
    ensures SpaceWidth(s[..n]) == 0
  {
  }

  lemma TrimTwice(s: bytes)
    ensures Trim(Trim(s)) == Trim(s)
  {
    hide SpaceWidth, EndWidth;
    TrimLeftFacts(s);
    TrimRightFacts(TrimLeft(s));
    PrefixStarts(TrimLeft(s), |Trim(s)|);
  }

  // ------------------------------------------------------------------- tokens

  predicate IsQuote(b: byte)
  {
    b == SQUOTE || b == DQUOTE || b == BACKTICK
  }

  /** Where a quoted part that has begun before `i` ends, if it does. */
  function Quoted(s: bytes, i: nat, q: byte): (e: Option<nat>)
    ensures e.Some? ==> i < e.value <= |s| && s[e.value - 1] == q
    decreases |s| - i
  {
    if i >= |s| then Nothing
    else if s[i] == BACKSLASH && q != BACKTICK then Quoted(s, i + 2, q)
    else if s[i] == q then if i + 1 < |s| && s[i + 1] == q then Quoted(s, i + 2, q) else Some(i + 1)
    else Quoted(s, i + 1, q)
  }

  /** Past the end of the line. */
  function LineEnd(s: bytes, i: nat): (e: nat)
    requires i <= |s|
    ensures i <= e <= |s|
    ensures forall k | i <= k < e - 1 :: s[k] != LF
    ensures e < |s| ==> e > i && s[e - 1] == LF
    ensures e == |s| ==> e == i || s[e - 1] == LF || forall k | i <= k < e :: s[k] != LF
    decreases |s| - i
  {
    if i == |s| then i else if s[i] == LF then i + 1 else LineEnd(s, i + 1)
  }

  /** Where the next comment end is, if there is one. */
  function CommentEnd(s: bytes, i: nat): (e: Option<nat>)
    ensures e.Some? ==> i <= e.value && e.value + 2 <= |s| && s[e.value] == STAR && s[e.value + 1] == SLASH
    decreases |s| - i
  {
    if i + 1 >= |s| then Nothing
    else if s[i] == STAR && s[i + 1] == SLASH then Some(i)
    else CommentEnd(s, i + 1)
  }

  lemma {:induction false} LineEndsAt(s: bytes, i: nat, e: nat)
    requires i <= e <= |s| && forall k | i <= k < e - 1 :: s[k] != LF
    requires (i < e && s[e - 1] == LF) || (e == |s| && (i < e ==> s[e - 1] != LF))
    ensures LineEnd(s, i) == e
    decreases e - i
  {
    if i < e && s[i] != LF {
      LineEndsAt(s, i + 1, e);
    }
  }

  lemma {:induction false} CommentEndsAt(s: bytes, i: nat, e: nat)
    requires i <= e && e + 2 <= |s| && s[e] == STAR && s[e + 1] == SLASH
    requires forall k | i < k <= e :: !(s[k - 1] == STAR && s[k] == SLASH)
    ensures CommentEnd(s, i) == Some(e)
    decreases e - i
  {
    if i < e {
      assert !(s[i + 1 - 1] == STAR && s[i + 1] == SLASH);
      CommentEndsAt(s, i + 1, e);
    }
  }

  predicate LineCommentAt(s: bytes, i: nat)
  {
    i < |s| && (s[i] == HASH || (s[i] == DASH && i + 1 < |s| && s[i + 1] == DASH))
  }

  predicate BlockCommentAt(s: bytes, i: nat)
  {
    i + 1 < |s| && s[i] == SLASH && s[i + 1] == STAR
  }

  function AfterMark(s: bytes, i: nat): (j: nat)
    requires LineCommentAt(s, i)
    ensures i < j <= |s|
  {
    if s[i] == HASH then i + 1 else i + 2
  }

  /** Reading from `i`, outside quotes and comments: the first semicolon, the end, or an unfinished part. */
  datatype Scan = Stop(at: nat) | Complete | Broken

  function ScanFrom(s: bytes, i: nat): (r: Scan)
    ensures r.Stop? ==> i <= r.at < |s| && s[r.at] == SEMICOLON
    decreases |s| - i
  {
    if i >= |s| then Complete
    else if IsQuote(s[i]) then
      var e := Quoted(s, i + 1, s[i]);
      if e.Some? then ScanFrom(s, e.value) else Broken
    else if LineCommentAt(s, i) then ScanFrom(s, LineEnd(s, AfterMark(s, i)))
    else if BlockCommentAt(s, i) then
      var e := CommentEnd(s, i + 2);
      if e.Some? then ScanFrom(s, e.value + 2) else Broken
    else if s[i] == SEMICOLON then Stop(i)
    else ScanFrom(s, i + 1)
  }

  /** The bytes outside quotes and comments. */
  function Outside(s: bytes, i: nat): bytes
    decreases |s| - i
  {
    if i >= |s| then []
    else if IsQuote(s[i]) then
      var e := Quoted(s, i + 1, s[i]);
      if e.Some? then Outside(s, e.value) else []
    else if LineCommentAt(s, i) then Outside(s, LineEnd(s, AfterMark(s, i)))
    else if BlockCommentAt(s, i) then
      var e := CommentEnd(s, i + 2);
      if e.Some? then Outside(s, e.value + 2) else []
    else [s[i]] + Outside(s, i + 1)
  }

  lemma {:induction false} CompleteHasNoSemicolon(s: bytes, i: nat)
    ensures ScanFrom(s, i) == Complete ==> SEMICOLON !in Outside(s, i)
    ensures ScanFrom(s, i).Stop? ==> SEMICOLON in Outside(s, i)
    decreases |s| - i
  {
    if i < |s| {
      if IsQuote(s[i]) {
        var e := Quoted(s, i + 1, s[i]);
        if e.Some? { CompleteHasNoSemicolon(s, e.value); }
      } else if LineCommentAt(s, i) {
        CompleteHasNoSemicolon(s, LineEnd(s, AfterMark(s, i)));
      } else if BlockCommentAt(s, i) {
        var e := CommentEnd(s, i + 2);
        if e.Some? { CompleteHasNoSemicolon(s, e.value + 2); }
      } else if s[i] != SEMICOLON {
        CompleteHasNoSemicolon(s, i + 1);
      }
    }
  }

  // ------------------------------------------------------- cutting off the end

  lemma {:induction false} QuotedCut(s: bytes, i: nat, q: byte, m: nat)
    requires Quoted(s, i, q).Some? && Quoted(s, i, q).value <= m <= |s|
    ensures Quoted(s[..m], i, q) == Quoted(s, i, q)
    decreases |s| - i
  {
    if s[i] == BACKSLASH && q != BACKTICK {
      QuotedCut(s, i + 2, q, m);
    } else if s[i] == q {
      if i + 1 < |s| && s[i + 1] == q { QuotedCut(s, i + 2, q, m); }
    } else {
      QuotedCut(s, i + 1, q, m);
    }
  }

  lemma {:induction false} LineEndCut(s: bytes, i: nat, m: nat)
    requires i <= m <= |s|
    ensures LineEnd(s[..m], i) == if LineEnd(s, i) <= m then LineEnd(s, i) else m
    decreases |s| - i
  {
    if i < m && s[i] != LF {
      LineEndCut(s, i + 1, m);
    }
  }

  lemma {:induction false} CommentEndCut(s: bytes, i: nat, m: nat)
    requires m <= |s|
    ensures CommentEnd(s[..m], i) == if CommentEnd(s, i).Some? && CommentEnd(s, i).value + 2 <= m then CommentEnd(s, i) else Nothing
    decreases |s| - i
  {
    if i + 1 < |s| && !(s[i] == STAR && s[i + 1] == SLASH) {
      CommentEndCut(s, i + 1, m);
    }
  }

  /** Where a scan got to: the semicolon, or the end. */
  predicate Reached(s: bytes, i: nat, n: nat)
  {
    n <= |s| && (ScanFrom(s, i) == Stop(n) || (ScanFrom(s, i) == Complete && n == |s|))
  }

  lemma {:induction false} ReachedForward(s: bytes, i: nat, n: nat)
    requires Reached(s, i, n) && i <= |s|
    ensures i <= n
  {
  }

  /** A clean stretch stays clean when white space is cut off its end. */
  lemma {:induction false} CutClean(s: bytes, i: nat, m: nat, n: nat)
    requires Reached(s, i, n) && i <= m <= n
    requires forall k | m <= k < n :: SpaceByte(s[k])
    ensures ScanFrom(s[..m], i) == Complete
    decreases |s| - i
  {
    var t := s[..m];
    if i < m {
      if IsQuote(s[i]) {
        var e := Quoted(s, i + 1, s[i]).value;
        ReachedForward(s, e, n);
        assert e <= m;
        QuotedCut(s, i + 1, s[i], m);
        CutClean(s, e, m, n);
      } else if LineCommentAt(s, i) {
        CutLine(s, i, m, n);
      } else if BlockCommentAt(s, i) {
        var e := CommentEnd(s, i + 2).value;
        ReachedForward(s, e + 2, n);
        assert e + 2 <= m;
        CommentEndCut(s, i + 2, m);
        CutClean(s, e + 2, m, n);
      } else {
        CutClean(s, i + 1, m, n);
      }
    }
  }

  lemma {:induction false} CutLine(s: bytes, i: nat, m: nat, n: nat)
    requires Reached(s, i, n) && i < m <= n && LineCommentAt(s, i)
    requires forall k | m <= k < n :: SpaceByte(s[k])
    ensures ScanFrom(s[..m], i) == Complete
    decreases |s| - i, 0
  {
    var t, j := s[..m], AfterMark(s, i);
    var e := LineEnd(s, j);
    ReachedForward(s, e, n);
    assert j <= m;
    assert LineCommentAt(t, i) && AfterMark(t, i) == j;
    LineEndCut(s, j, m);
    if e <= m {
      CutClean(s, e, m, n);
    }
  }

  // ------------------------------------------------------------------ trivia

  /** Nothing but white space and finished comments. */
  predicate Trivial(s: bytes)
    decreases |s|
  {
    if s == [] then true
    else if SpaceWidth(s) > 0 then Trivial(s[SpaceWidth(s)..])
    else if LineCommentAt(s, 0) then Trivial(s[LineEnd(s, AfterMark(s, 0))..])
    else if BlockCommentAt(s, 0) then
      var e := CommentEnd(s, 2);
      e.Some? && Trivial(s[e.value + 2..])
    else false
  }

  lemma {:induction false} TrivialTrimLeft(s: bytes)
    ensures Trivial(TrimLeft(s)) == Trivial(s)
  {
    if SpaceWidth(s) > 0 {
      TrivialTrimLeft(s[SpaceWidth(s)..]);
    }
  }

  /** White space at the end neither starts nor finishes anything. */
  lemma Appended(t: bytes, p: bytes)
    requires t != [] && SpaceWidth(p) == |p| > 0
    ensures SpaceWidth(t + p) == SpaceWidth(t)
    ensures LineCommentAt(t + p, 0) == LineCommentAt(t, 0) && BlockCommentAt(t + p, 0) == BlockCommentAt(t, 0)
  {
  }

  lemma {:induction false} LineEndAppended(t: bytes, p: bytes, i: nat)
    requires i <= |t| && SpaceWidth(p) == |p| > 0
    ensures LineEnd(t + p, i) == LineEnd(t, i) || (LineEnd(t, i) == |t| && LineEnd(t + p, i) == |t + p|)
    decreases |t| - i
  {
    if i < |t| {
      if t[i] != LF {
        LineEndAppended(t, p, i + 1);
      }
    } else {
      LineEndOf(t, p);
    }
  }

  lemma LineEndOf(t: bytes, p: bytes)
    requires SpaceWidth(p) == |p| > 0
    ensures LineEnd(t + p, |t|) == |t + p| || LineEnd(t + p, |t|) == |t|
  {
    var s := t + p;
    if |p| == 1 {
      assert LineEnd(s, |t| + 1) == |s|;
    } else {
      assert forall k | 0 <= k < |p| :: p[k] != LF;
      assert forall k | |t| <= k < |s| :: s[k] == p[k - |t|];
      var e := LineEnd(s, |t|);
    }
  }

  lemma {:induction false} CommentEndAppended(t: bytes, p: bytes, i: nat)
    requires SpaceWidth(p) == |p| > 0
    ensures CommentEnd(t + p, i) == CommentEnd(t, i)
    decreases |t| + |p| - i
  {
    var s := t + p;
    if i + 1 < |s| {
      if i + 1 >= |t| {
        assert s[i + 1] == p[i + 1 - |t|];
        assert s[i + 1] != SLASH;
      }
      if !(s[i] == STAR && s[i + 1] == SLASH) {
        CommentEndAppended(t, p, i + 1);
      }
    }
  }

  lemma {:induction false} TrivialAppended(t: bytes, p: bytes)
    requires SpaceWidth(p) == |p| > 0
    ensures Trivial(t + p) == Trivial(t)
    decreases |t|
  {
    hide SpaceWidth;
    var s := t + p;
    if t == [] {
      assert s == p && p[|p|..] == [];
    } else {
      Appended(t, p);
      if SpaceWidth(t) > 0 {
        var w := SpaceWidth(t);
        assert s[w..] == t[w..] + p;
        TrivialAppended(t[w..], p);
      } else if LineCommentAt(t, 0) {
        LineAppended(t, p);
      } else if BlockCommentAt(t, 0) {
        CommentEndAppended(t, p, 2);
        var e := CommentEnd(t, 2);
        if e.Some? {
          assert s[e.value + 2..] == t[e.value + 2..] + p;
          TrivialAppended(t[e.value + 2..], p);
        }
      }
    }
  }

  lemma {:induction false} LineAppended(t: bytes, p: bytes)
    requires SpaceWidth(p) == |p| > 0 && LineCommentAt(t, 0) && SpaceWidth(t) == 0
    ensures Trivial(t + p) == Trivial(t)
    decreases |t|, 0
  {
    hide SpaceWidth;
    var s, j := t + p, AfterMark(t, 0);
    Appended(t, p);
    LineEndAppended(t, p, j);
    var e := LineEnd(t, j);
    if LineEnd(s, j) == e {
      assert s[e..] == t[e..] + p;
      TrivialAppended(t[e..], p);
    } else {
      assert s[LineEnd(s, j)..] == [] && t[e..] == [];
    }
  }

  lemma {:induction false} TrivialTrimRight(s: bytes)
    ensures Trivial(TrimRight(s)) == Trivial(s)
  {
    hide SpaceWidth, Trivial;
    var w := EndWidth(s);
    if w > 0 {
      var t, p := s[..|s| - w], s[|s| - w..];
      assert s == t + p;
      TrivialTrimRight(t);
      TrivialAppended(t, p);
    }
  }

  lemma TrivialTrim(s: bytes)
    ensures Trivial(Trim(s)) == Trivial(s)
  {
    hide Trivial, TrimLeft, TrimRight;
    TrivialTrimLeft(s);
    TrivialTrimRight(TrimLeft(s));
  }

  method SkipLine(value: bytes, start: nat) returns (at: nat)
    requires start <= |value|
    ensures start <= at <= |value| && LineEnd(value, start) == if at < |value| then at + 1 else |value|
    ensures at < |value| ==> value[at] == LF
  {
    at := start;
    while at < |value| && value[at] != LF
      invariant start <= at <= |value| && LineEnd(value, at) == LineEnd(value, start)
    {
      at := at + 1;
    }
  }

  method IndexCommentEnd(value: bytes, start: nat) returns (at: int)
    ensures at < 0 ==> CommentEnd(value, start).Nothing?
    ensures at >= 0 ==> CommentEnd(value, start) == Some(at)
  {
    at := start;
    while at + 1 < |value|
      invariant start <= at && CommentEnd(value, at) == CommentEnd(value, start)
      decreases |value| - at
    {
      if value[at] == STAR && value[at + 1] == SLASH {
        return;
      }
      at := at + 1;
    }
    at := -1;
  }

  /** Whether anything is left to execute. */
  method HasContent(text: bytes) returns (content: bool)
    ensures content <==> !Trivial(text)
  {
    hide Trim, SpaceWidth;
    var value := text;
    while true
      invariant Trivial(value) == Trivial(text)
      decreases |value|
    {
      TrivialTrim(value);
      TrimmedStart(value);
      value := Trim(value);
      if |value| == 0 {
        return false;
      } else if LineCommentAt(value, 0) {
        var at := SkipLine(value, AfterMark(value, 0));
        value := value[if at < |value| then at + 1 else |value|..];
      } else if BlockCommentAt(value, 0) {
        var end := IndexCommentEnd(value, 2);
        if end < 0 {
          return true;
        }
        value := value[end + 2..];
      } else {
        return true;
      }
    }
  }

  lemma TrimmedStart(s: bytes)
    ensures |Trim(s)| <= |s| && SpaceWidth(Trim(s)) == 0
  {
    hide SpaceWidth, EndWidth;
    TrimLeftFacts(s);
    TrimRightFacts(TrimLeft(s));
    PrefixStarts(TrimLeft(s), |Trim(s)|);
  }

  // --------------------------------------------------------------- statements

  datatype Verdict<T> = Ok(value: T) | Invalid | Multiple | Unsupported

  /** The one statement of a text; what follows its semicolon must be trivial. */
  function Single(s: bytes): Verdict<bytes>
  {
    match ScanFrom(s, 0)
    case Stop(at) => if Trivial(s[at + 1..]) then Ok(Trim(s[..at])) else Multiple
    case Complete => Ok(Trim(s))
    case Broken => Invalid
  }

  /** What is left to read inside a quoted part. */
  function InQuote(s: bytes, i: nat, q: byte): Scan
  {
    var e := Quoted(s, i, q);
    if e.Some? then ScanFrom(s, e.value) else Broken
  }

  /** One byte inside a quoted part. */
  lemma InQuoteStep(s: bytes, i: nat, q: byte)
    requires i < |s|
    ensures InQuote(s, i, q) ==
            if s[i] == BACKSLASH && q != BACKTICK then InQuote(s, i + 2, q)
            else if s[i] == q then if i + 1 < |s| && s[i + 1] == q then InQuote(s, i + 2, q) else ScanFrom(s, i + 1)
            else InQuote(s, i + 1, q)
  {
    hide ScanFrom;
  }

  /** One part outside. */
  lemma OutsideStep(s: bytes, i: nat)
    requires i < |s|
    ensures ScanFrom(s, i) ==
            if IsQuote(s[i]) then InQuote(s, i + 1, s[i])
            else if LineCommentAt(s, i) then ScanFrom(s, LineEnd(s, AfterMark(s, i)))
            else if BlockCommentAt(s, i) then if CommentEnd(s, i + 2).Some?
                then ScanFrom(s, CommentEnd(s, i + 2).value + 2) else Broken
            else if s[i] == SEMICOLON then Stop(i)
            else ScanFrom(s, i + 1)
  {
  }

  lemma AtTheEnd(s: bytes, i: nat, q: byte)
    requires i >= |s|
    ensures ScanFrom(s, i) == Complete && InQuote(s, i, q) == Broken
  {
  }

  method SingleStatement(value: bytes) returns (v: Verdict<bytes>)
    ensures v == Single(value)
  {
    hide Trim, Trivial, ScanFrom, InQuote, Quoted;
    var quote: Option<byte> := Nothing;
    var index := 0;
    while index < |value|
      invariant quote.Nothing? ==> ScanFrom(value, index) == ScanFrom(value, 0)
      invariant quote.Some? ==> InQuote(value, index, quote.value) == ScanFrom(value, 0)
      decreases |value| - index
    {
      var current := value[index];
      if quote.Some? {
        InQuoteStep(value, index, quote.value);
        if current == BACKSLASH && quote.value != BACKTICK {
          index := index + 2;
          continue;
        }
        if current == quote.value {
          if index + 1 < |value| && value[index + 1] == quote.value {
            index := index + 2;
            continue;
          }
          quote := Nothing;
        }
        index := index + 1;
        continue;
      }
      OutsideStep(value, index);
      if IsQuote(current) {
        quote := Some(current);
      } else if LineCommentAt(value, index) {
        var at := SkipLine(value, AfterMark(value, index));
        index := if at < |value| then at else |value| - 1;
      } else if BlockCommentAt(value, index) {
        var end := IndexCommentEnd(value, index + 2);
        if end < 0 {
          return Invalid;
        }
        index := end + 1;
      } else if current == SEMICOLON {
        var content := HasContent(value[index + 1..]);
        if content {
          return Multiple;
        }
        return Ok(Trim(value[..index]));
      }
      index := index + 1;
    }
    AtTheEnd(value, index, if quote.Some? then quote.value else SQUOTE);
    if quote.Some? {
      return Invalid;
    }
    v := Ok(Trim(value));
  }

  /** The text from its first word on. */
  function StripLeading(s: bytes): bytes
    decreases |s|
  {
    var v := Trim(s);
    if LineCommentAt(v, 0) then StripLeading(v[LineEnd(v, AfterMark(v, 0))..])
    else if BlockCommentAt(v, 0) then
      var e := CommentEnd(v, 2);
      if e.Some? then StripLeading(v[e.value + 2..]) else []
    else v
  }

  method StripLeadingComments(text: bytes) returns (value: bytes)
    ensures value == StripLeading(text)
  {
    hide Trim;
    value := text;
    TrimmedEmpty();
    while true
      invariant StripLeading(value) == StripLeading(text)
      decreases |value|
    {
      TrimmedStart(value);
      TrimTwice(value);
      var next := Trim(value);
      assert StripLeading(next) == StripLeading(value);
      value := next;
      if LineCommentAt(value, 0) {
        var at := SkipLine(value, AfterMark(value, 0));
        if at >= |value| {
          assert value[LineEnd(value, AfterMark(value, 0))..] == [];
          return [];
        }
        value := value[at + 1..];
      } else if BlockCommentAt(value, 0) {
        var end := IndexCommentEnd(value, 2);
        if end < 0 {
          return [];
        }
        value := value[end + 2..];
      } else {
        return;
      }
    }
  }

  lemma TrimmedEmpty()
    ensures Trim([]) == [] && StripLeading([]) == []
  {
  }

  /** A byte that, taken as a Latin-1 character, is a letter. */
  predicate IsLetter(b: byte)
  {
    IsLower(b) || IsUpper(b) || b in {0xAA, 0xB5, 0xBA} || (0xC0 <= b && b != 0xD7 && b != 0xF7)
  }

  function Word(s: bytes): (w: bytes)
    ensures |w| <= |s|
  {
    if s == [] || !IsLetter(s[0]) then [] else [Lower(s[0])] + Word(s[1..])
  }

  function Keyword(statement: bytes): bytes
  {
    Word(StripLeading(statement))
  }

  method FirstKeyword(statement: bytes) returns (word: bytes)
    ensures word == Keyword(statement)
  {
    var v := StripLeadingComments(statement);
    word := [];
    var end := 0;
    while end < |v| && IsLetter(v[end])
      invariant end <= |v| && Word(v) == word + Word(v[end..])
    {
      word := word + [Lower(v[end])];
      assert v[end..][1..] == v[end + 1..];
      end := end + 1;
    }
  }

  function Code(c: char): byte
    requires c < '\U{0080}'
  {
    c as int
  }

  function Ascii(s: string): bytes
    requires forall c | c in s :: c < '\U{0080}'
  {
    seq(|s|, i requires 0 <= i < |s| => assert s[i] in s; Code(s[i]))
  }

  const READING: set<bytes> := {Ascii("show"), Ascii("describe"), Ascii("desc"), Ascii("explain"), Ascii("with"), Ascii("values")}
  const WRITING: set<bytes> :=
    {Ascii("insert"), Ascii("update"), Ascii("delete"), Ascii("replace"), Ascii("create"), Ascii("alter"),
        Ascii("drop"), Ascii("truncate")}

  const LIMIT: nat := 65536

  datatype Policy = Policy(sql: bytes, kind: bytes, readOnly: bool)

  /** By its first word; a select that writes or locks is refused. */
  function Classify(statement: bytes, unsafe: bytes -> bool): Verdict<Policy>
  {
    var kind := Keyword(statement);
    if kind == Ascii("select") then if unsafe(statement) then Unsupported else Ok(Policy(statement, kind, true))
    else if kind in READING then Ok(Policy(statement, kind, true))
    else if kind in WRITING then Ok(Policy(statement, kind, false))
    else Unsupported
  }

  function Inspect(text: bytes, unsafe: bytes -> bool): Verdict<Policy>
  {
    var value := Trim(text);
    if value == [] || |value| > LIMIT then Invalid
    else match Single(value)
         case Ok(statement) => Classify(statement, unsafe)
         case Invalid => Invalid
         case Multiple => Multiple
         case Unsupported => Unsupported
  }

  // -------------------------------------------------------------------- blanks

  /** Nothing but white space. */
  predicate Blank(s: bytes)
  {
    s == [] || (SpaceWidth(s) > 0 && Blank(s[SpaceWidth(s)..]))
  }

  lemma {:induction false} BlankAppended(b: bytes, p: bytes)
    requires Blank(b) && SpaceWidth(p) == |p| > 0
    ensures Blank(b + p)
    decreases |b|
  {
    hide SpaceWidth;
    if b == [] {
      assert b + p == p && p[|p|..] == [];
    } else {
      Appended(b, p);
      var w := SpaceWidth(b);
      BlankAppended(b[w..], p);
      assert (b + p)[w..] == b[w..] + p;
    }
  }

  lemma {:induction false} BlankConcat(a: bytes, b: bytes)
    requires Blank(a) && Blank(b)
    ensures Blank(a + b)
    decreases |b|
  {
    hide SpaceWidth;
    if b == [] {
      assert a + b == a;
    } else {
      var w := SpaceWidth(b);
      var p := b[..w];
      SpaceItself(b);
      BlankAppended(a, p);
      BlankConcat(a + p, b[w..]);
      assert a + p + b[w..] == a + b;
    }
  }

  lemma SpaceItself(b: bytes)
    requires SpaceWidth(b) > 0
    ensures SpaceWidth(b[..SpaceWidth(b)]) == SpaceWidth(b)
  {
  }

  /** What trimming takes off an end is white space. */
  lemma {:induction false} TrimLeftCuts(s: bytes)
    ensures var r := TrimLeft(s); |r| <= |s| && r == s[|s| - |r|..] && Blank(s[..|s| - |r|])
    decreases |s|
  {
    hide SpaceWidth;
    var w := SpaceWidth(s);
    if w > 0 {
      TrimLeftCuts(s[w..]);
      var cut := s[..|s| - |TrimLeft(s)|];
      assert cut == s[..w] + s[w..][..|s| - w - |TrimLeft(s)|];
      SpaceItself(s);
      assert Blank(s[..w]) by { assert s[..w][w..] == []; }
      BlankConcat(s[..w], s[w..][..|s| - w - |TrimLeft(s)|]);
    }
  }

  lemma {:induction false} TrimRightCuts(s: bytes)
    ensures var r := TrimRight(s); |r| <= |s| && r == s[..|r|] && Blank(s[|r|..])
    decreases |s|
  {
    hide SpaceWidth, EndWidth;
    var w := EndWidth(s);
    if w > 0 {
      var t, p := s[..|s| - w], s[|s| - w..];
      TrimRightCuts(t);
      BlankAppended(t[|TrimRight(t)|..], p);
      assert s[|TrimRight(s)|..] == t[|TrimRight(t)|..] + p;
    }
  }

  /** White space after trivia changes nothing. */
  lemma {:induction false} TrivialThenBlank(t: bytes, b: bytes)
    requires Blank(b)
    ensures Trivial(t + b) == Trivial(t)
    decreases |b|
  {
    hide SpaceWidth, Trivial;
    if b == [] {
      assert t + b == t;
    } else {
      var w := SpaceWidth(b);
      var p := b[..w];
      SpaceItself(b);
      TrivialAppended(t, p);
      TrivialThenBlank(t + p, b[w..]);
      assert t + p + b[w..] == t + b;
    }
  }

  // ------------------------------------------------------------------- results

  /** What may be dropped after a statement: white space, and then a semicolon and trivia, or nothing. */
  predicate Dropped(rest: bytes, n: nat)
  {
    && n <= |rest|
    && Blank(rest[..n])
    && (n == |rest| || (rest[n] == SEMICOLON && Trivial(rest[n + 1..])))
  }

  /** A statement taken from a trimmed text: a prefix of it, with white space cut off up to where the scan got. */
  lemma SingleIsCut(v: bytes, statement: bytes) returns (n: nat)
    requires SpaceWidth(v) == 0 && Single(v) == Ok(statement)
    ensures |statement| <= n <= |v| && statement == v[..|statement|] && Trim(statement) == statement
    ensures Reached(v, 0, n) && (forall k | |statement| <= k < n :: SpaceByte(v[k])) && Blank(v[|statement|..n])
    ensures n < |v| ==> v[n] == SEMICOLON && Trivial(v[n + 1..])
  {
    hide SpaceWidth, SpaceByte, Trivial, TrimLeft, TrimRight, ScanFrom, EndWidth, Blank;
    n := if ScanFrom(v, 0).Stop? then ScanFrom(v, 0).at else |v|;
    var p := v[..n];
    assert n == |v| ==> p == v;
    PrefixStarts(v, n);
    TrimOfStart(p);
    TrimRightFacts(p);
    TrimRightCuts(p);
    TrimTwice(p);
    assert v[|statement|..n] == p[|statement|..];
    assert statement == p[..|statement|] == v[..|statement|];
    forall k | |statement| <= k < n
      ensures SpaceByte(v[k])
    {
      assert p[k] == v[k];
    }
  }

  /** So it is clean, and what was dropped was nothing to execute. */
  lemma SingleIsClean(v: bytes, statement: bytes)
    requires SpaceWidth(v) == 0 && Single(v) == Ok(statement)
    ensures statement <= v && ScanFrom(statement, 0) == Complete && Trim(statement) == statement
    ensures exists n :: Dropped(v[|statement|..], n)
  {
    hide SpaceWidth, SpaceByte, Trivial, TrimLeft, TrimRight, ScanFrom, Single, Trim, Reached, Blank;
    var n := SingleIsCut(v, statement);
    var m := |statement|;
    CutClean(v, 0, m, n);
    var rest := v[m..];
    assert rest[..n - m] == v[m..n];
    if n < |v| {
      assert rest[n - m] == v[n] && rest[n - m + 1..] == v[n + 1..];
    }
    assert Dropped(rest, n - m);
  }

  lemma TrimOfStart(p: bytes)
    requires SpaceWidth(p) == 0
    ensures TrimLeft(p) == p && Trim(p) == TrimRight(p)
  {
  }

  /**
   The statement stands in the text after white space; what follows it, up to `n`, is white space, and
   after that nothing to execute.
   */
  predicate OnlyStatement(text: bytes, sql: bytes, at: nat, n: nat)
  {
    && at + |sql| <= |text| && text[at..at + |sql|] == sql
    && Blank(text[..at]) && Dropped(text[at + |sql|..], n)
  }

  /** White space after what may be dropped may be dropped too. */
  lemma DroppedThenBlank(rest: bytes, n: nat, b: bytes) returns (n': nat)
    requires Dropped(rest, n) && Blank(b)
    ensures Dropped(rest + b, n')
  {
    hide Trivial, Blank;
    if n == |rest| {
      n' := |rest + b|;
      assert rest[..n] == rest && (rest + b)[..n'] == rest + b;
      BlankConcat(rest, b);
    } else {
      n' := n;
      assert (rest + b)[..n] == rest[..n] && (rest + b)[n + 1..] == rest[n + 1..] + b;
      TrivialThenBlank(rest[n + 1..], b);
    }
  }

  /** So a statement of the trimmed text is one of the text. */
  lemma OnlyInText(text: bytes, sql: bytes, n: nat) returns (at: nat, n': nat)
    requires sql <= Trim(text) && Dropped(Trim(text)[|sql|..], n)
    ensures OnlyStatement(text, sql, at, n')
  {
    hide Trivial, Blank, Dropped, TrimLeft, TrimRight;
    TrimLeftCuts(text);
    var left := TrimLeft(text);
    TrimRightCuts(left);
    at := |text| - |left|;
    var v := Trim(text);
    n' := DroppedThenBlank(v[|sql|..], n, left[|v|..]);
    assert left[|sql|..] == v[|sql|..] + left[|v|..];
    assert text[at + |sql|..] == left[|sql|..];
    assert text[at..at + |sql|] == left[..|sql|] == v[..|sql|] == sql;
  }

  /** An accepted statement has no semicolon outside quotes and comments, and nothing to execute was dropped around it. */
  lemma AcceptedIsSingle(text: bytes, unsafe: bytes -> bool)
    requires Inspect(text, unsafe).Ok?
    ensures var sql := Inspect(text, unsafe).value.sql;
            && sql != [] && ScanFrom(sql, 0) == Complete && SEMICOLON !in Outside(sql, 0)
            && exists at, n :: OnlyStatement(text, sql, at, n)
  {
    hide SpaceWidth, SpaceByte, Trivial, TrimLeft, TrimRight, Blank, Dropped, OnlyStatement;
    var v := Trim(text);
    TrimmedStart(text);
    var statement := Single(v).value;
    SingleIsClean(v, statement);
    TrimmedEmpty();
    EmptyWord();
    CompleteHasNoSemicolon(statement, 0);
    var n :| Dropped(v[|statement|..], n);
    var at, n' := OnlyInText(text, statement, n);
  }

  lemma EmptyWord()
    ensures Word([]) == [] && [] != Ascii("select") && [] !in READING && [] !in WRITING
  {
    assert |Ascii("select")| == 6;
    assert |Ascii("show")| == 4 && |Ascii("describe")| == 8 && |Ascii("desc")| == 4 && |Ascii("explain")| == 7
        && |Ascii("with")| == 4 && |Ascii("values")| == 6;
    assert |Ascii("insert")| == 6 && |Ascii("update")| == 6 && |Ascii("delete")| == 6 && |Ascii("replace")| == 7;
    assert |Ascii("create")| == 6 && |Ascii("alter")| == 5 && |Ascii("drop")| == 4 && |Ascii("truncate")| == 8;
  }

  /** Inspecting an accepted statement again returns it, with the same kind and the same verdict on writing. */
  lemma InspectTwice(text: bytes, unsafe: bytes -> bool)
    requires Inspect(text, unsafe).Ok?
    ensures Inspect(Inspect(text, unsafe).value.sql, unsafe) == Inspect(text, unsafe)
  {
    hide SpaceWidth, SpaceByte, Trivial, TrimLeft, TrimRight, Keyword, Trim, ScanFrom, OnlyStatement, Dropped;
    var v := Trim(text);
    TrimmedStart(text);
    var statement := Single(v).value;
    SingleIsClean(v, statement);
    AcceptedIsSingle(text, unsafe);
  }
}
