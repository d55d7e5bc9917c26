/**
 Which texts the SQL console takes for one statement: those that are written as quoted texts,
 comments and other bytes, none of these a semicolon, with at most one semicolon and nothing but
 white space and comments behind it.
 */
module SqlConsoleTexts {
  import opened Bytes
  import opened SqlConsole

  /** Part of a quoted text: a byte, a doubled quote, or a byte after a backslash. */
  datatype Unit = Byte(b: byte) | Twice | Escaped(b: byte)

  predicate FineUnit(u: Unit, q: byte)
  {
    match u
    case Byte(b) => b != q && (b == 92 ==> q == 96)
    case Twice => true
    case Escaped(_) => q != 96
  }

  predicate FineUnits(us: seq<Unit>, q: byte)
  {
    forall k | 0 <= k < |us| :: FineUnit(us[k], q)
  }

  function WrittenUnit(u: Unit, q: byte): bytes
  {
    match u
    case Byte(b) => [b]
    case Twice => [q, q]
    case Escaped(b) => [92, b]
  }

  function WrittenUnits(us: seq<Unit>, q: byte): bytes
  {
    if us == [] then [] else WrittenUnit(us[0], q) + WrittenUnits(us[1..], q)
  }

  /** A comment to the end of its line may be the last thing in a text, its line unfinished. */
  datatype Token =
    | Quote(q: byte, inside: seq<Unit>)
    | Line(mark: bytes, text: bytes, ended: bool)
    | Block(text: bytes)
    | White(text: bytes)
    | Other(b: byte)

  /** One white-space character. */
  predicate IsWhite(s: bytes)
  {
    || (|s| == 1 && (9 <= s[0] <= 13 || s[0] == 32))
    || s == [0xC2, 0x85] || s == [0xC2, 0xA0] || s == [0xE1, 0x9A, 0x80]
    || (|s| == 3 && s[0] == 0xE2 && s[1] == 0x80 && 0x80 <= s[2] <= 0x8A)
    || s == [0xE2, 0x80, 0xA8] || s == [0xE2, 0x80, 0xA9] || s == [0xE2, 0x80, 0xAF]
    || s == [0xE2, 0x81, 0x9F] || s == [0xE3, 0x80, 0x80]
  }

  predicate IsMark(m: bytes)
  {
    m == [35] || m == [45, 45]
  }

  predicate OneLine(text: bytes)
  {
    forall k | 0 <= k < |text| :: text[k] != 10
  }

  predicate FineToken(t: Token)
  {
    match t
    case Quote(q, inside) => (q == 39 || q == 34 || q == 96) && FineUnits(inside, q)
    case Line(m, text, _) => IsMark(m) && OneLine(text)
    case Block(text) => forall k | 0 < k < |text| :: !(text[k - 1] == 42 && text[k] == 47)
    case White(text) => IsWhite(text)
    case Other(b) => b != 39 && b != 34 && b != 96 && b != 35 && b != 59
  }

  function WrittenToken(t: Token): bytes
  {
    match t
    case Quote(q, inside) => [q] + (WrittenUnits(inside, q) + [q])
    case Line(m, text, ended) => m + (text + if ended then [10] else [])
    case Block(text) => [47, 42] + (text + [42, 47])
    case White(text) => text
    case Other(b) => [b]
  }

  /** What follows does not make something else of it. */
  predicate Fits(t: Token, next: bytes)
  {
    match t
    case Quote(q, _) => next == [] || next[0] != q
    case Line(_, _, ended) => !ended ==> next == []
    case Block(_) => true
    case White(_) => true
    case Other(b) => next != [] ==> !(b == 45 && next[0] == 45) && !(b == 47 && next[0] == 42)
  }

  function WrittenTokens(ts: seq<Token>): bytes
  {
    if ts == [] then [] else WrittenToken(ts[0]) + WrittenTokens(ts[1..])
  }

  /** The tokens as written, with `next` behind them. */
  predicate Tokens(ts: seq<Token>, next: bytes)
    decreases |ts|
  {
    ts != [] ==> FineToken(ts[0]) && Fits(ts[0], WrittenTokens(ts[1..]) + next) && Tokens(ts[1..], next)
  }

  /** What stands at `i`, byte by byte. */
  lemma Stands(s: bytes, i: nat, x: bytes, tail: bytes)
    requires i <= |s| && s[i..] == x + tail
    ensures i + |x| <= |s| && s[i + |x|..] == tail && forall k | i <= k < i + |x| :: s[k] == x[k - i]
  {
    assert forall k | i <= k < |s| :: s[k] == s[i..][k - i];
    assert s[i + |x|..] == s[i..][|x|..];
  }

  lemma Joined(a: bytes, b: bytes, c: bytes, tail: bytes)
    ensures a + (b + c) + tail == a + (b + (c + tail))
  {
  }

  // -------------------------------------------------------------------------- quotes

  lemma UnitPasses(s: bytes, i: nat, q: byte, u: Unit, tail: bytes)
    requires FineUnit(u, q) && q != 92 && i <= |s| && s[i..] == WrittenUnit(u, q) + tail
    ensures Quoted(s, i, q) == Quoted(s, i + |WrittenUnit(u, q)|, q)
  {
    Stands(s, i, WrittenUnit(u, q), tail);
  }

  /** The closing quote, and no second one behind it. */
  predicate Closes(after: bytes, q: byte)
  {
    after != [] && after[0] == q && (|after| > 1 ==> after[1] != q)
  }

  lemma QuoteCloses(s: bytes, i: nat, q: byte)
    requires q != 92 && i <= |s| && Closes(s[i..], q)
    ensures Quoted(s, i, q) == Some(i + 1)
  {
    assert s[i] == s[i..][0] && (i + 1 < |s| ==> s[i + 1] == s[i..][1]);
  }

  lemma {:induction false} UnitsPass(s: bytes, i: nat, q: byte, us: seq<Unit>, after: bytes)
    requires FineUnits(us, q) && q != 92 && i <= |s| && s[i..] == WrittenUnits(us, q) + after && Closes(after, q)
    ensures Quoted(s, i, q) == Some(i + |WrittenUnits(us, q)| + 1)
    decreases |us|
  {
    hide FineUnit, WrittenUnit, Quoted, Closes;
    if us == [] {
      assert s[i..] == after;
      QuoteCloses(s, i, q);
    } else {
      var x, more := WrittenUnit(us[0], q), WrittenUnits(us[1..], q);
      assert x + more + after == x + (more + after);
      Stands(s, i, x, more + after);
      UnitPasses(s, i, q, us[0], more + after);
      UnitsPass(s, i + |x|, q, us[1..], after);
    }
  }

  lemma FirstUnit(s: bytes, i: nat, q: byte) returns (u: Unit, n: nat)
    requires Quoted(s, i, q).Some? && q != 92 && !(s[i] == q && !(i + 1 < |s| && s[i + 1] == q))
    ensures FineUnit(u, q) && n == |WrittenUnit(u, q)| > 0 && i + n <= |s| && s[i..i + n] == WrittenUnit(u, q)
    ensures Quoted(s, i + n, q) == Quoted(s, i, q)
  {
    if s[i] == q {
      u, n := Twice, 2;
    } else if s[i] == 92 && q != 96 {
      u, n := Escaped(s[i + 1]), 2;
    } else {
      u, n := Byte(s[i]), 1;
    }
  }

  lemma {:induction false} QuotedUnits(s: bytes, i: nat, q: byte) returns (us: seq<Unit>)
    requires Quoted(s, i, q).Some? && q != 92
    ensures var e := Quoted(s, i, q).value;
            i < e <= |s| && FineUnits(us, q) && s[i..e] == WrittenUnits(us, q) + [q] && (e < |s| ==> s[e] != q)
    decreases |s| - i
  {
    hide FineUnits, FineUnit, WrittenUnit, WrittenUnits;
    var e := Quoted(s, i, q).value;
    EmptyUnits(q);
    if s[i] == q && !(i + 1 < |s| && s[i + 1] == q) {
      us := [];
      assert s[i..e] == [q];
    } else {
      hide Quoted;
      var u, n := FirstUnit(s, i, q);
      var more := QuotedUnits(s, i + n, q);
      us := [u] + more;
      ConsUnits(u, more, q);
      assert s[i..e] == s[i..i + n] + s[i + n..e];
    }
  }

  lemma EmptyUnits(q: byte)
    ensures FineUnits([], q) && WrittenUnits([], q) == []
  {
  }

  lemma ConsUnits(u: Unit, us: seq<Unit>, q: byte)
    requires FineUnit(u, q) && FineUnits(us, q)
    ensures FineUnits([u] + us, q) && WrittenUnits([u] + us, q) == WrittenUnit(u, q) + WrittenUnits(us, q)
  {
    assert ([u] + us)[1..] == us;
  }

  // ------------------------------------------------------------------------ comments

  lemma {:induction false} CommentEndFirst(s: bytes, i: nat, k: nat)
    requires CommentEnd(s, i).Some? && i < k <= CommentEnd(s, i).value
    ensures !(s[k - 1] == 42 && s[k] == 47)
    decreases k - i
  {
    if i + 1 < k {
      CommentEndFirst(s, i + 1, k);
    }
  }

  // ------------------------------------------------------------------------- reading

  lemma QuoteParts(s: bytes, i: nat, q: byte, us: seq<Unit>, tail: bytes)
    requires (q == 39 || q == 34 || q == 96) && FineUnits(us, q) && (tail == [] || tail[0] != q)
    requires i <= |s| && s[i..] == [q] + (WrittenUnits(us, q) + ([q] + tail))
    ensures ScanFrom(s, i) == ScanFrom(s, i + 2 + |WrittenUnits(us, q)|)
  {
    hide FineUnits, WrittenUnits, Quoted;
    var body := WrittenUnits(us, q);
    Stands(s, i, [q], body + ([q] + tail));
    assert s[i] == q;
    UnitsPass(s, i + 1, q, us, [q] + tail);
  }

  lemma QuotePasses(s: bytes, i: nat, t: Token, tail: bytes)
    requires t.Quote? && FineToken(t) && Fits(t, tail) && i <= |s| && s[i..] == WrittenToken(t) + tail
    ensures ScanFrom(s, i) == ScanFrom(s, i + |WrittenToken(t)|)
  {
    hide FineUnits, WrittenUnits, ScanFrom;
    Joined([t.q], WrittenUnits(t.inside, t.q), [t.q], tail);
    QuoteParts(s, i, t.q, t.inside, tail);
  }

  lemma MarkStands(s: bytes, i: nat, mark: bytes, tail: bytes)
    requires IsMark(mark) && i <= |s| && s[i..] == mark + tail
    ensures LineCommentAt(s, i) && AfterMark(s, i) == i + |mark| && !IsQuote(s[i]) && SpaceWidth(s[i..]) == 0
    ensures i + |mark| <= |s| && s[i + |mark|..] == tail
  {
    hide SpaceWidth;
    Stands(s, i, mark, tail);
    NoSpace(s[i..]);
  }

  predicate LineCloses(end: bytes, tail: bytes)
  {
    end == [10] || (end == [] && tail == [])
  }

  /** What follows the mark of a comment. */
  predicate RestOfLine(after: bytes, text: bytes, end: bytes, tail: bytes)
  {
    OneLine(text) && LineCloses(end, tail) && after == text + (end + tail)
  }

  lemma LineStands(s: bytes, i: nat, t: Token, tail: bytes)
    requires t.Line? && FineToken(t) && Fits(t, tail) && i <= |s| && s[i..] == WrittenToken(t) + tail
    ensures LineCommentAt(s, i) && LineEnd(s, AfterMark(s, i)) == i + |WrittenToken(t)| <= |s|
    ensures SpaceWidth(s[i..]) == 0 && !IsQuote(s[i]) && WrittenToken(t) != []
  {
    hide SpaceWidth, LineEnd, LineCommentAt, AfterMark, IsQuote, FineUnits, OneLine;
    var end := if t.ended then [10] else [];
    Joined(t.mark, t.text, end, tail);
    LineParts(s, i, t.mark, t.text + (end + tail), t.text, end, tail);
  }

  lemma LineParts(s: bytes, i: nat, mark: bytes, after: bytes, text: bytes, end: bytes, tail: bytes)
    requires IsMark(mark) && RestOfLine(after, text, end, tail) && i <= |s| && s[i..] == mark + after
    ensures LineCommentAt(s, i) && LineEnd(s, AfterMark(s, i)) == i + |mark| + |text| + |end| <= |s|
    ensures SpaceWidth(s[i..]) == 0 && !IsQuote(s[i])
  {
    hide SpaceWidth, LineEnd, LineCommentAt, AfterMark, IsQuote, IsMark, RestOfLine;
    MarkStands(s, i, mark, after);
    LineReads(s, i + |mark|, after, text, end, tail);
  }

  lemma LineReads(s: bytes, j: nat, after: bytes, text: bytes, end: bytes, tail: bytes)
    requires j <= |s| && s[j..] == after && RestOfLine(after, text, end, tail)
    ensures LineEnd(s, j) == j + |text| + |end| <= |s|
  {
    hide LineEnd;
    var n := j + |text|;
    Stands(s, j, text, end + tail);
    Stands(s, n, end, tail);
    LineEndsAt(s, j, n + |end|);
  }

  lemma NoSpace(s: bytes)
    requires s != [] && (s[0] == 35 || s[0] == 45 || s[0] == 47)
    ensures SpaceWidth(s) == 0
  {
  }

  lemma LinePasses(s: bytes, i: nat, t: Token, tail: bytes)
    requires t.Line? && FineToken(t) && Fits(t, tail) && i <= |s| && s[i..] == WrittenToken(t) + tail
    ensures ScanFrom(s, i) == ScanFrom(s, i + |WrittenToken(t)|)
  {
    hide SpaceWidth, FineToken, Fits, WrittenToken;
    LineStands(s, i, t, tail);
  }

  lemma BlockOpens(s: bytes, i: nat, tail: bytes)
    requires i <= |s| && s[i..] == [47, 42] + tail
    ensures BlockCommentAt(s, i) && !LineCommentAt(s, i) && !IsQuote(s[i]) && SpaceWidth(s[i..]) == 0
    ensures i + 2 <= |s| && s[i + 2..] == tail
  {
    hide SpaceWidth;
    Stands(s, i, [47, 42], tail);
    NoSpace(s[i..]);
  }

  lemma BlockStands(s: bytes, i: nat, t: Token, tail: bytes)
    requires t.Block? && FineToken(t) && i <= |s| && s[i..] == WrittenToken(t) + tail
    ensures BlockCommentAt(s, i) && !LineCommentAt(s, i)
    ensures CommentEnd(s, i + 2).Some? && CommentEnd(s, i + 2).value + 2 == i + |WrittenToken(t)| <= |s|
    ensures SpaceWidth(s[i..]) == 0 && !IsQuote(s[i]) && WrittenToken(t) != []
  {
    hide SpaceWidth, CommentEnd, IsQuote, FineUnits;
    Joined([47, 42], t.text, [42, 47], tail);
    BlockOpens(s, i, t.text + ([42, 47] + tail));
    BlockReads(s, i + 2, t.text, tail);
  }

  lemma BlockReads(s: bytes, j: nat, text: bytes, tail: bytes)
    requires j <= |s| && s[j..] == text + ([42, 47] + tail)
    requires forall k | 0 < k < |text| :: !(text[k - 1] == 42 && text[k] == 47)
    ensures CommentEnd(s, j) == Some(j + |text|) && j + |text| + 2 <= |s|
  {
    hide CommentEnd;
    var e := j + |text|;
    Stands(s, j, text, [42, 47] + tail);
    Stands(s, e, [42, 47], tail);
    forall k | j < k <= e
      ensures !(s[k - 1] == 42 && s[k] == 47)
    {
      assert k < e ==> s[k] == text[k - j] && s[k - 1] == text[k - j - 1];
    }
    CommentEndsAt(s, j, e);
  }

  lemma BlockPasses(s: bytes, i: nat, t: Token, tail: bytes)
    requires t.Block? && FineToken(t) && i <= |s| && s[i..] == WrittenToken(t) + tail
    ensures ScanFrom(s, i) == ScanFrom(s, i + |WrittenToken(t)|)
  {
    hide SpaceWidth, FineToken, WrittenToken;
    BlockStands(s, i, t, tail);
  }

  lemma OtherPasses(s: bytes, i: nat, t: Token, tail: bytes)
    requires t.Other? && FineToken(t) && Fits(t, tail) && i <= |s| && s[i..] == WrittenToken(t) + tail
    ensures ScanFrom(s, i) == ScanFrom(s, i + |WrittenToken(t)|)
  {
    assert s[i] == s[i..][0] == t.b;
    assert tail != [] ==> s[i + 1] == s[i..][1] == tail[0];
  }

  lemma {:induction false} PlainPasses(s: bytes, i: nat, j: nat)
    requires i <= j <= |s|
    requires forall k | i <= k < j :: 9 <= s[k] <= 13 || s[k] == 32 || s[k] >= 0x80 || 65 <= s[k] <= 90 || 97 <= s[k] <= 122
    ensures ScanFrom(s, i) == ScanFrom(s, j)
    decreases j - i
  {
    if i < j {
      PlainPasses(s, i + 1, j);
    }
  }

  lemma WhitePasses(s: bytes, i: nat, t: Token, tail: bytes)
    requires t.White? && FineToken(t) && i <= |s| && s[i..] == WrittenToken(t) + tail
    ensures ScanFrom(s, i) == ScanFrom(s, i + |WrittenToken(t)|)
  {
    hide ScanFrom;
    forall k | i <= k < i + |t.text|
      ensures 9 <= s[k] <= 13 || s[k] == 32 || s[k] >= 0x80
    {
      assert s[k] == s[i..][k - i] == t.text[k - i];
    }
    PlainPasses(s, i, i + |t.text|);
  }

  lemma TokenPasses(s: bytes, i: nat, t: Token, tail: bytes)
    requires FineToken(t) && Fits(t, tail) && i <= |s| && s[i..] == WrittenToken(t) + tail
    ensures ScanFrom(s, i) == ScanFrom(s, i + |WrittenToken(t)|)
  {
    hide ScanFrom, FineToken, Fits, WrittenToken;
    match t {
      case Quote(_, _) => QuotePasses(s, i, t, tail);
      case Line(_, _, _) => LinePasses(s, i, t, tail);
      case Block(_) => BlockPasses(s, i, t, tail);
      case White(_) => WhitePasses(s, i, t, tail);
      case Other(_) => OtherPasses(s, i, t, tail);
    }
  }

  /** Tokens are read one after the other. */
  lemma {:induction false} TokensPass(s: bytes, i: nat, ts: seq<Token>, next: bytes)
    requires Tokens(ts, next) && i <= |s| && s[i..] == WrittenTokens(ts) + next
    ensures ScanFrom(s, i) == ScanFrom(s, i + |WrittenTokens(ts)|)
    decreases |ts|
  {
    hide ScanFrom, FineToken, Fits, WrittenToken;
    if ts != [] {
      var x, more := WrittenToken(ts[0]), WrittenTokens(ts[1..]);
      assert x + more + next == x + (more + next);
      Stands(s, i, x, more + next);
      TokenPasses(s, i, ts[0], more + next);
      TokensPass(s, i + |x|, ts[1..], next);
    }
  }

  // ---------------------------------------------------------------------- and writing

  /** Where the reading from `i` got to. */
  function Reaches(s: bytes, i: nat): nat
  {
    match ScanFrom(s, i)
    case Stop(at) => at
    case Complete => |s|
    case Broken => 0
  }

  lemma FirstQuote(s: bytes, i: nat) returns (t: Token, e: nat)
    requires i < |s| && IsQuote(s[i]) && ScanFrom(s, i) != Broken
    ensures i < e <= |s| && t.Quote? && FineToken(t) && Fits(t, s[e..]) && s[i..e] == WrittenToken(t)
    ensures ScanFrom(s, e) == ScanFrom(s, i)
  {
    hide FineUnits, WrittenUnits, FineUnit;
    var us := QuotedUnits(s, i + 1, s[i]);
    e := Quoted(s, i + 1, s[i]).value;
    t := Quote(s[i], us);
    assert s[i..e] == [s[i]] + s[i + 1..e];
    assert e < |s| ==> s[e..][0] == s[e];
  }

  lemma Sliced(s: bytes, i: nat, j: nat, n: nat, e: nat)
    requires i <= j <= n <= e <= |s|
    ensures s[i..e] == s[i..j] + (s[j..n] + s[n..e])
  {
  }

  lemma TwoBytes(s: bytes, i: nat, a: byte, b: byte)
    requires i + 2 <= |s| && s[i] == a && s[i + 1] == b
    ensures s[i..i + 2] == [a, b]
  {
  }

  lemma MarkRead(s: bytes, i: nat)
    requires LineCommentAt(s, i)
    ensures IsMark(s[i..AfterMark(s, i)])
  {
  }

  lemma FirstLine(s: bytes, i: nat) returns (t: Token, e: nat)
    requires LineCommentAt(s, i)
    ensures i < e <= |s| && e == LineEnd(s, AfterMark(s, i)) && s[i..e] == WrittenToken(t)
    ensures t.Line? && FineToken(t) && Fits(t, s[e..])
  {
    hide LineEnd, AfterMark, LineCommentAt;
    var j := AfterMark(s, i);
    e := LineEnd(s, j);
    var ended := e > j && s[e - 1] == 10;
    var n := if ended then e - 1 else e;
    t := Line(s[i..j], s[j..n], ended);
    MarkRead(s, i);
    Sliced(s, i, j, n, e);
    assert s[n..e] == if ended then [10] else [];
  }

  lemma FirstBlock(s: bytes, i: nat) returns (t: Token, e: nat)
    requires BlockCommentAt(s, i) && CommentEnd(s, i + 2).Some?
    ensures i < e <= |s| && e == CommentEnd(s, i + 2).value + 2 && s[i..e] == WrittenToken(t)
    ensures t.Block? && FineToken(t) && Fits(t, s[e..])
  {
    var n := CommentEnd(s, i + 2).value;
    e := n + 2;
    var text := s[i + 2..n];
    t := Block(text);
    forall k | 0 < k < |text|
      ensures !(text[k - 1] == 42 && text[k] == 47)
    {
      CommentEndFirst(s, i + 2, i + 2 + k);
    }
    TwoBytes(s, i, 47, 42);
    TwoBytes(s, n, 42, 47);
    Sliced(s, i, i + 2, n, e);
  }

  lemma FirstOther(s: bytes, i: nat) returns (t: Token, e: nat)
    requires i < |s| && !IsQuote(s[i]) && !LineCommentAt(s, i) && !BlockCommentAt(s, i) && s[i] != 59
    ensures e == i + 1 && FineToken(t) && Fits(t, s[e..]) && s[i..e] == WrittenToken(t)
  {
    t, e := Other(s[i]), i + 1;
    assert s[e..] != [] ==> s[e..][0] == s[e];
  }

  lemma FirstToken(s: bytes, i: nat) returns (t: Token, e: nat)
    requires i < |s| && ScanFrom(s, i) != Broken && ScanFrom(s, i) != Stop(i)
    ensures i < e <= |s| && FineToken(t) && Fits(t, s[e..]) && s[i..e] == WrittenToken(t)
    ensures ScanFrom(s, e) == ScanFrom(s, i)
  {
    hide FineToken, Fits, WrittenToken, IsQuote, LineCommentAt, BlockCommentAt, LineEnd, CommentEnd, AfterMark;
    if IsQuote(s[i]) {
      t, e := FirstQuote(s, i);
    } else if LineCommentAt(s, i) {
      t, e := FirstLine(s, i);
    } else if BlockCommentAt(s, i) {
      t, e := FirstBlock(s, i);
    } else {
      t, e := FirstOther(s, i);
    }
  }

  /** Whatever is read to a semicolon, or to the end, was written as tokens. */
  lemma {:induction false} ReadAsTokens(s: bytes, i: nat) returns (ts: seq<Token>)
    requires i <= |s| && ScanFrom(s, i) != Broken
    ensures i <= Reaches(s, i) <= |s| && Tokens(ts, s[Reaches(s, i)..]) && WrittenTokens(ts) == s[i..Reaches(s, i)]
    decreases |s| - i
  {
    hide FineToken, Fits, WrittenToken;
    if i == |s| || ScanFrom(s, i) == Stop(i) {
      ts := [];
    } else {
      var t, e := FirstToken(s, i);
      var n := Reaches(s, i);
      var more := ReadAsTokens(s, e);
      ts := [t] + more;
      assert ts[1..] == more;
      assert s[e..n] + s[n..] == s[e..];
      assert s[i..n] == s[i..e] + s[e..n];
    }
  }

  /** A text of tokens, alone or with a semicolon and something behind it. */
  predicate ReadsAs(v: bytes, ts: seq<Token>, rest: Option<bytes>)
  {
    var next := if rest.Some? then [59] + rest.value else [];
    Tokens(ts, next) && v == WrittenTokens(ts) + next
  }

  lemma ScanReads(v: bytes, ts: seq<Token>, rest: Option<bytes>)
    requires ReadsAs(v, ts, rest)
    ensures ScanFrom(v, 0) == if rest.Some? then Stop(|WrittenTokens(ts)|) else Complete
    ensures var n := |WrittenTokens(ts)|; v[..n] == WrittenTokens(ts) && (rest.Some? ==> n < |v| && v[n + 1..] == rest.value)
  {
    hide Tokens, WrittenTokens;
    var next := if rest.Some? then [59] + rest.value else [];
    var n := |WrittenTokens(ts)|;
    assert v[0..] == v;
    TokensPass(v, 0, ts, next);
    assert rest.Some? ==> v[n] == 59;
    assert rest.Some? ==> v[n + 1..] == next[1..];
  }

  lemma SomeReading(v: bytes) returns (ts: seq<Token>, rest: Option<bytes>)
    requires ScanFrom(v, 0) != Broken
    ensures ReadsAs(v, ts, rest)
  {
    hide Tokens, WrittenTokens, ScanFrom;
    ts := ReadAsTokens(v, 0);
    var n := Reaches(v, 0);
    rest := if ScanFrom(v, 0).Stop? then Some(v[n + 1..]) else Nothing;
    assert v[0..n] + v[n..] == v;
    assert rest.Some? ==> v[n..] == [59] + v[n + 1..];
    assert rest.Nothing? ==> v[n..] == [];
  }

  // -------------------------------------------------------------------------- trivia

  /** White space and comments. */
  predicate AllTrivia(ts: seq<Token>)
  {
    forall k | 0 <= k < |ts| :: ts[k].White? || ts[k].Line? || ts[k].Block?
  }

  lemma WhiteStands(text: bytes, tail: bytes)
    requires IsWhite(text)
    ensures SpaceWidth(text + tail) == |text| > 0
  {
    assert forall k | 0 <= k < |text| :: (text + tail)[k] == text[k];
  }

  lemma SpaceIsWhite(s: bytes)
    requires SpaceWidth(s) > 0
    ensures IsWhite(s[..SpaceWidth(s)])
  {
  }

  lemma {:induction false} TriviaRead(s: bytes) returns (ts: seq<Token>)
    requires Trivial(s)
    ensures AllTrivia(ts) && Tokens(ts, []) && WrittenTokens(ts) == s
    decreases |s|
  {
    hide SpaceWidth, FineToken, Fits, WrittenToken;
    if s == [] {
      ts := [];
    } else {
      var t, e := FirstTrivia(s);
      var more := TriviaRead(s[e..]);
      ts := [t] + more;
      assert ts[1..] == more && s[e..] + [] == s[e..] && s == s[0..e] + s[e..];
    }
  }

  lemma FirstTrivia(s: bytes) returns (t: Token, e: nat)
    requires s != [] && Trivial(s)
    ensures 0 < e <= |s| && s[0..e] == WrittenToken(t) && Trivial(s[e..])
    ensures FineToken(t) && Fits(t, s[e..]) && (t.White? || t.Line? || t.Block?)
  {
    hide SpaceWidth;
    var w := SpaceWidth(s);
    if w > 0 {
      SpaceIsWhite(s);
      t, e := White(s[..w]), w;
    } else if LineCommentAt(s, 0) {
      t, e := FirstLine(s, 0);
    } else {
      t, e := FirstBlock(s, 0);
    }
  }

  lemma {:induction false} TriviaIsTrivial(ts: seq<Token>)
    requires AllTrivia(ts) && Tokens(ts, [])
    ensures Trivial(WrittenTokens(ts))
    decreases |ts|
  {
    hide Trivial, FineToken, Fits, WrittenToken;
    if ts == [] {
      assert Trivial([]) by { NothingIsTrivial(); }
    } else {
      var tail := WrittenTokens(ts[1..]);
      assert tail + [] == tail;
      TriviaIsTrivial(ts[1..]);
      assert ts[0].White? || ts[0].Line? || ts[0].Block?;
      TokenIsTrivial(ts[0], tail);
    }
  }

  lemma NothingIsTrivial()
    ensures Trivial([])
  {
  }

  lemma TokenIsTrivial(t: Token, tail: bytes)
    requires (t.White? || t.Line? || t.Block?) && FineToken(t) && Fits(t, tail)
    ensures Trivial(WrittenToken(t) + tail) == Trivial(tail)
  {
    hide SpaceWidth, FineToken;
    var s := WrittenToken(t) + tail;
    assert s[0..] == s && s[|WrittenToken(t)|..] == tail;
    match t {
      case White(text) => WhiteIsTrivial(text, tail);
      case Line(_, _, _) => LineStands(s, 0, t, tail);
      case Block(_) => BlockStands(s, 0, t, tail);
    }
  }

  lemma WhiteIsTrivial(text: bytes, tail: bytes)
    requires FineToken(White(text))
    ensures Trivial(text + tail) == Trivial(tail)
  {
    hide SpaceWidth;
    WhiteStands(text, tail);
    assert (text + tail)[|text|..] == tail;
  }

  /** White space and comments are what is written as such. */
  lemma TrivialExactlyWhen(s: bytes)
    ensures Trivial(s) <==> exists ts: seq<Token> :: AllTrivia(ts) && Tokens(ts, []) && WrittenTokens(ts) == s
  {
    hide Trivial, Tokens, WrittenTokens;
    if Trivial(s) {
      var ts := TriviaRead(s);
    }
    forall ts: seq<Token> | AllTrivia(ts) && Tokens(ts, []) && WrittenTokens(ts) == s
      ensures Trivial(s)
    {
      TriviaIsTrivial(ts);
    }
  }

  // ------------------------------------------------------------------------- results

  /**
   What becomes of every text: without white space around it, it must be of 1 to 65536 bytes and be written as
   tokens, alone or with a semicolon behind them; then it is judged as the statement that these tokens are, if
   there is nothing but white space and comments behind the semicolon.
   */
  lemma TextsAreInspected(text: bytes, unsafe: bytes -> bool)
    ensures Inspect(text, unsafe).Invalid? <==>
              || |Trim(text)| == 0 || |Trim(text)| > 65536
              || forall ts: seq<Token>, rest: Option<bytes> :: !ReadsAs(Trim(text), ts, rest)
    ensures forall ts: seq<Token>, rest: Option<bytes> | ReadsAs(Trim(text), ts, rest) && 1 <= |Trim(text)| <= 65536 ::
              Inspect(text, unsafe) ==
              if rest.Some? && !Trivial(rest.value) then Multiple else Classify(Trim(WrittenTokens(ts)), unsafe)
  {
    hide Trim, ScanFrom, Classify, ReadsAs, WrittenTokens, Trivial;
    var v := Trim(text);
    assert !Classify(v, unsafe).Invalid? && forall s :: !Classify(s, unsafe).Invalid? by { NeverInvalid(unsafe); }
    if ScanFrom(v, 0) != Broken {
      var ts, rest := SomeReading(v);
      assert ReadsAs(v, ts, rest);
    }
    forall ts: seq<Token>, rest: Option<bytes> | ReadsAs(v, ts, rest)
      ensures ScanFrom(v, 0) != Broken
      ensures 1 <= |v| <= 65536 ==>
                Inspect(text, unsafe) ==
                if rest.Some? && !Trivial(rest.value) then Multiple else Classify(Trim(WrittenTokens(ts)), unsafe)
    {
      ScanReads(v, ts, rest);
      ReadingIsWhole(v, ts, rest);
    }
  }

  lemma ReadingIsWhole(v: bytes, ts: seq<Token>, rest: Option<bytes>)
    requires ReadsAs(v, ts, rest)
    ensures rest.Nothing? ==> v == WrittenTokens(ts)
  {
  }

  lemma NeverInvalid(unsafe: bytes -> bool)
    ensures forall s :: !Classify(s, unsafe).Invalid?
  {
  }
}
