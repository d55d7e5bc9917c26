/**
 What the redactor of a terminal stream does with a sequence of frames, as functions of the
 frames: lines, private keys kept together from their first line to their last, and prefixes
 of unfinished lines that the policy lets go early. The policy, and what marks the first and
 last line of a key, are arbitrary.
 */
module LineStream {
  import opened Bytes

  datatype Rules = Rules(redact: bytes -> bytes, safePrefix: bytes -> int, begins: bytes -> bool, ends: bytes -> bool)
  {
    /** The line starts a key that goes on after it. */
    predicate Opens(line: bytes)
    {
      begins(line) && !ends(line)
    }

    /** How much of an unfinished line may go out; anything out of range is clipped. */
    function Released(text: bytes): (n: nat)
      ensures n <= |text|
    {
      var safe := safePrefix(text);
      if safe < 0 then 0 else if safe > |text| then |text| else safe
    }
  }

  /** What is handed to the policy: the start of an unfinished line, a line, or the lines of a private key. */
  datatype Piece = Prefix(raw: bytes) | Line(raw: bytes) | Block(lines: seq<bytes>, closed: bool)

  function Concat(parts: seq<bytes>): bytes
  {
    if parts == [] then [] else Concat(parts[..|parts| - 1]) + parts[|parts| - 1]
  }

  lemma ConcatPush(parts: seq<bytes>, part: bytes)
    ensures Concat(parts + [part]) == Concat(parts) + part
  {
    assert (parts + [part])[..|parts|] == parts;
  }

  function Raw(p: Piece): bytes
  {
    match p
    case Prefix(raw) => raw
    case Line(raw) => raw
    case Block(lines, _) => Concat(lines)
  }

  /** The bytes handed over, in order. */
  function Handed(pieces: seq<Piece>): bytes
  {
    if pieces == [] then [] else Handed(pieces[..|pieces| - 1]) + Raw(pieces[|pieces| - 1])
  }

  /** What the policy makes of them. */
  function Redacted(pieces: seq<Piece>, redact: bytes -> bytes): bytes
  {
    if pieces == [] then [] else Redacted(pieces[..|pieces| - 1], redact) + redact(Raw(pieces[|pieces| - 1]))
  }

  lemma Push(pieces: seq<Piece>, p: Piece, redact: bytes -> bytes)
    ensures Handed(pieces + [p]) == Handed(pieces) + Raw(p)
    ensures Redacted(pieces + [p], redact) == Redacted(pieces, redact) + redact(Raw(p))
  {
    assert (pieces + [p])[..|pieces|] == pieces;
  }

  // -------------------------------------------------------------------- lines

  predicate IsBreak(b: byte)
  {
    b == LF || b == CR
  }

  /** Where the first line break is; the end if there is none. */
  function BreakAt(s: bytes): (at: nat)
    ensures at <= |s| && (at < |s| ==> IsBreak(s[at])) && forall i | 0 <= i < at :: !IsBreak(s[i])
  {
    if s == [] || IsBreak(s[0]) then 0 else 1 + BreakAt(s[1..])
  }

  predicate Breakless(s: bytes)
  {
    forall i | 0 <= i < |s| :: !IsBreak(s[i])
  }

  /** The length of the first line with its break, or 0; carriage return and line feed are one break. */
  function LineWidth(s: bytes): (w: nat)
    ensures w <= |s| && (w == 0 <==> Breakless(s))
  {
    var at := BreakAt(s);
    if at == |s| then 0 else if s[at] == CR && at + 1 < |s| && s[at + 1] == LF then at + 2 else at + 1
  }

  function Lines(s: bytes): seq<bytes>
    decreases |s|
  {
    if LineWidth(s) == 0 then [] else [s[..LineWidth(s)]] + Lines(s[LineWidth(s)..])
  }

  /** What comes after the last break. */
  function Rest(s: bytes): (r: bytes)
    ensures Breakless(r)
    decreases |s|
  {
    if LineWidth(s) == 0 then s else Rest(s[LineWidth(s)..])
  }

  /** The lines of a whole text; the last one may be unfinished. */
  function AllLines(s: bytes): seq<bytes>
  {
    Lines(s) + if Rest(s) == [] then [] else [Rest(s)]
  }

  /** One whole line, or an unfinished one. */
  predicate IsLine(s: bytes)
  {
    s != [] && (Breakless(s) || LineWidth(s) == |s|)
  }

  // ------------------------------------------------------------------ machine

  /** The lines of the key that is open, if one is, and the pieces handed over. */
  datatype Held = Held(key: seq<bytes>, pieces: seq<Piece>)

  const NONE: Held := Held([], [])

  function Take(h: Held, line: bytes, rules: Rules): Held
  {
    if h.key != [] then
      if rules.ends(line) then Held([], h.pieces + [Block(h.key + [line], true)])
      else Held(h.key + [line], h.pieces)
    else if rules.Opens(line) then Held([line], h.pieces)
    else Held([], h.pieces + [Line(line)])
  }

  function TakeAll(h: Held, lines: seq<bytes>, rules: Rules): Held
    decreases |lines|
  {
    if lines == [] then h else TakeAll(Take(h, lines[0], rules), lines[1..], rules)
  }

  datatype State = State(pending: bytes, held: Held)

  const START: State := State([], NONE)

  /** Outside a key, part of an unfinished line may go out. */
  function Release(st: State, rules: Rules): State
  {
    var n := rules.Released(st.pending);
    if st.held.key == [] && st.pending != [] && n > 0 then
      State(st.pending[n..], st.held.(pieces := st.held.pieces + [Prefix(st.pending[..n])]))
    else st
  }

  /** One frame that was taken. */
  function Fed(st: State, data: bytes, rules: Rules): State
  {
    if data == [] then st
    else Release(State(Rest(st.pending + data), TakeAll(st.held, Lines(st.pending + data), rules)), rules)
  }

  function FedAll(frames: seq<bytes>, rules: Rules): State
  {
    if frames == [] then START else Fed(FedAll(frames[..|frames| - 1], rules), frames[|frames| - 1], rules)
  }

  /** A key that is still open goes out as it is. */
  function Closed(h: Held): seq<Piece>
  {
    if h.key == [] then h.pieces else h.pieces + [Block(h.key, false)]
  }

  /** The end of the stream. */
  function Flushed(st: State, rules: Rules): seq<Piece>
  {
    Closed(if st.pending == [] then st.held else Take(st.held, st.pending, rules))
  }

  /** Everything handed over for a stream of frames. */
  function Pieces(frames: seq<bytes>, rules: Rules): seq<Piece>
  {
    Flushed(FedAll(frames, rules), rules)
  }

  // ------------------------------------------------------ a key is in one piece

  /** How many lines follow up to and with the first that ends a key; all of them if none does. */
  function KeyLength(lines: seq<bytes>, rules: Rules): (n: nat)
    ensures n <= |lines| && (lines != [] ==> n > 0)
    ensures forall i | 0 <= i < n - 1 :: !rules.ends(lines[i])
    ensures n < |lines| ==> n > 0 && rules.ends(lines[n - 1])
  {
    if lines == [] then 0 else if rules.ends(lines[0]) then 1 else 1 + KeyLength(lines[1..], rules)
  }

  /** A text that is there as a whole: from a line that opens a key to the first that ends it is one piece. */
  function Sorted(lines: seq<bytes>, rules: Rules): seq<Piece>
    decreases |lines|
  {
    if lines == [] then []
    else if rules.Opens(lines[0]) then
      var n := KeyLength(lines[1..], rules);
      [Block(lines[..n + 1], n > 0 && rules.ends(lines[n]))] + Sorted(lines[n + 1..], rules)
    else [Line(lines[0])] + Sorted(lines[1..], rules)
  }

  /** An open key takes lines up to the one that ends it. */
  lemma {:induction false} KeyTakes(key: seq<bytes>, pieces: seq<Piece>, lines: seq<bytes>, rules: Rules)
    requires key != []
    ensures var n := KeyLength(lines, rules);
            TakeAll(Held(key, pieces), lines, rules) ==
            if n > 0 && rules.ends(lines[n - 1]) then
              TakeAll(Held([], pieces + [Block(key + lines[..n], true)]), lines[n..], rules)
            else Held(key + lines, pieces)
    decreases |lines|
  {
    if lines == [] {
      assert key + lines == key;
    } else {
      var n := KeyLength(lines, rules);
      if rules.ends(lines[0]) {
        assert lines[..1] == [lines[0]];
      } else {
        KeyTakes(key + [lines[0]], pieces, lines[1..], rules);
        var m := KeyLength(lines[1..], rules);
        assert n == m + 1;
        assert key + [lines[0]] + lines[1..][..m] == key + lines[..n];
        assert lines[1..][m..] == lines[n..];
        assert key + [lines[0]] + lines[1..] == key + lines;
      }
    }
  }

  /** A key that opens with the first line is the first piece. */
  lemma KeyFirst(pieces: seq<Piece>, lines: seq<bytes>, rules: Rules, n: nat)
    requires lines != [] && rules.Opens(lines[0]) && n == KeyLength(lines[1..], rules)
    ensures Closed(TakeAll(Held([], pieces), lines, rules)) ==
            if n > 0 && rules.ends(lines[n]) then
              Closed(TakeAll(Held([], pieces + [Block(lines[..n + 1], true)]), lines[n + 1..], rules))
            else pieces + [Block(lines, false)]
  {
    hide KeyLength;
    var rest := lines[1..];
    KeyTakes([lines[0]], pieces, rest, rules);
    assert [lines[0]] + rest[..n] == lines[..n + 1];
    assert rest[n..] == lines[n + 1..] && [lines[0]] + rest == lines;
  }

  /** And so it is in the text that is there as a whole. */
  lemma SortedFirst(lines: seq<bytes>, rules: Rules)
    requires lines != []
    ensures !rules.Opens(lines[0]) ==> Sorted(lines, rules) == [Line(lines[0])] + Sorted(lines[1..], rules)
    ensures var n := KeyLength(lines[1..], rules);
            rules.Opens(lines[0]) ==>
              if n > 0 && rules.ends(lines[n]) then
                Sorted(lines, rules) == [Block(lines[..n + 1], true)] + Sorted(lines[n + 1..], rules)
              else Sorted(lines, rules) == [Block(lines, false)]
  {
    var n := KeyLength(lines[1..], rules);
    if rules.Opens(lines[0]) && !(n > 0 && rules.ends(lines[n])) {
      assert n == |lines| - 1;
      assert lines[n + 1..] == [] && lines[..n + 1] == lines;
    }
  }

  lemma NoLines(pieces: seq<Piece>, rules: Rules)
    ensures Closed(TakeAll(Held([], pieces), [], rules)) == pieces == pieces + Sorted([], rules)
  {
  }

  lemma LineFirst(h: Held, lines: seq<bytes>, rules: Rules)
    requires lines != [] && h.key == [] && !rules.Opens(lines[0])
    ensures TakeAll(h, lines, rules) == TakeAll(Held([], h.pieces + [Line(lines[0])]), lines[1..], rules)
  {
  }

  /** The machine that sees one line at a time sorts as if it saw them all. */
  lemma {:induction false} TakesSorted(pieces: seq<Piece>, lines: seq<bytes>, rules: Rules)
    ensures Closed(TakeAll(Held([], pieces), lines, rules)) == pieces + Sorted(lines, rules)
    decreases |lines|
  {
    hide Closed, KeyLength, Sorted, TakeAll;
    if lines == [] {
      NoLines(pieces, rules);
    } else {
      SortedFirst(lines, rules);
      if rules.Opens(lines[0]) {
        var n := KeyLength(lines[1..], rules);
        KeyFirst(pieces, lines, rules, n);
        if n > 0 && rules.ends(lines[n]) {
          var first := [Block(lines[..n + 1], true)];
          TakesSorted(pieces + first, lines[n + 1..], rules);
          assert pieces + first + Sorted(lines[n + 1..], rules) == pieces + (first + Sorted(lines[n + 1..], rules));
        }
      } else {
        var first := [Line(lines[0])];
        LineFirst(Held([], pieces), lines, rules);
        TakesSorted(pieces + first, lines[1..], rules);
        assert pieces + first + Sorted(lines[1..], rules) == pieces + (first + Sorted(lines[1..], rules));
      }
    }
  }

  // ------------------------------------------------------------ cuts in frames

  /** A cut between a carriage return and its line feed. */
  predicate SplitsBreak(a: bytes, b: bytes)
  {
    a != [] && b != [] && a[|a| - 1] == CR && b[0] == LF
  }

  /** No frame starts with the line feed of a carriage return before it. */
  predicate KeepsBreaks(frames: seq<bytes>)
  {
    frames == [] ||
    (KeepsBreaks(frames[..|frames| - 1]) && !SplitsBreak(Concat(frames[..|frames| - 1]), frames[|frames| - 1]))
  }

  lemma BreakAtIs(s: bytes, at: nat)
    requires at <= |s| && (at < |s| ==> IsBreak(s[at])) && forall i | 0 <= i < at :: !IsBreak(s[i])
    ensures BreakAt(s) == at
  {
  }

  lemma SameStart(s: bytes, t: bytes)
    requires LineWidth(s) > 0 && (LineWidth(s) == |s| ==> !SplitsBreak(s, t))
    ensures LineWidth(s + t) == LineWidth(s)
  {
    var at := BreakAt(s);
    forall i | 0 <= i < at
      ensures !IsBreak((s + t)[i])
    {
      assert (s + t)[i] == s[i];
    }
    BreakAtIs(s + t, at);
  }

  lemma FirstLine(s: bytes)
    ensures LineWidth(s) == 0 ==> Lines(s) == [] && Rest(s) == s
    ensures var w := LineWidth(s); w > 0 ==> Lines(s) == [s[..w]] + Lines(s[w..]) && Rest(s) == Rest(s[w..])
  {
  }

  /** Reading on from the unfinished line gives the lines of the whole, but for one more at a break that is cut. */
  lemma {:induction false} LinesGoOn(s: bytes, t: bytes)
    ensures Rest(s + t) == Rest(Rest(s) + t)
    ensures !SplitsBreak(s, t) ==> Lines(s + t) == Lines(s) + Lines(Rest(s) + t)
    ensures |Lines(s)| + |Lines(Rest(s) + t)| == |Lines(s + t)| + if SplitsBreak(s, t) then 1 else 0
    decreases |s|
  {
    hide BreakAt, Breakless, Lines, Rest, LineWidth;
    var w := LineWidth(s);
    FirstLine(s);
    if w == 0 {
      assert [] + Lines(s + t) == Lines(s + t);
      NoCr(s);
    } else if w == |s| && SplitsBreak(s, t) {
      CutBreak(s, t);
    } else {
      SameStart(s, t);
      FirstLine(s + t);
      assert (s + t)[w..] == s[w..] + t && (s + t)[..w] == s[..w];
      LinesGoOn(s[w..], t);
      SplitLater(s, t, w);
    }
  }

  lemma SplitLater(s: bytes, t: bytes, w: nat)
    requires w <= |s|
    ensures SplitsBreak(s[w..], t) == (w < |s| && SplitsBreak(s, t))
  {
  }

  lemma NoCr(s: bytes)
    requires Breakless(s)
    ensures s == [] || s[|s| - 1] != CR
  {
  }

  lemma CutBreak(s: bytes, t: bytes)
    requires LineWidth(s) == |s| && SplitsBreak(s, t)
    ensures Rest(s) == [] && |Lines(s)| == 1
    ensures Lines(t) == [[LF]] + Lines(t[1..]) && Rest(t) == Rest(t[1..])
    ensures |Lines(s + t)| == 1 + |Lines(t[1..])| && Rest(s + t) == Rest(t[1..])
    ensures Rest(s) + t == t
  {
    var n := |s|;
    assert s[n..] == [] && LineWidth([]) == 0;
    BreakAtIs(t, 0);
    assert LineWidth(t) == 1 && t[..1] == [LF];
    var at := BreakAt(s);
    assert at == n - 1;
    BreakAtIs(s + t, at);
    assert LineWidth(s + t) == n + 1 && (s + t)[n + 1..] == t[1..];
  }

  /** The lines the pieces are made of. */
  function LinesOf(pieces: seq<Piece>): seq<bytes>
  {
    if pieces == [] then []
    else
      var last := pieces[|pieces| - 1];
      LinesOf(pieces[..|pieces| - 1]) + match last
                                        case Prefix(_) => []
                                        case Line(raw) => [raw]
                                        case Block(lines, _) => lines
  }

  /** Every line taken is in a piece or in the open key, in order. */
  lemma TakeLines(h: Held, line: bytes, rules: Rules)
    ensures var h' := Take(h, line, rules); LinesOf(h'.pieces) + h'.key == LinesOf(h.pieces) + h.key + [line]
  {
    forall p: Piece
      ensures (h.pieces + [p])[..|h.pieces|] == h.pieces
    {
    }
    var h' := Take(h, line, rules);
    if h'.pieces != h.pieces {
      assert h'.pieces[..|h.pieces|] == h.pieces;
    }
  }

  lemma {:induction false} TakeAllLines(h: Held, lines: seq<bytes>, rules: Rules)
    ensures var h' := TakeAll(h, lines, rules); LinesOf(h'.pieces) + h'.key == LinesOf(h.pieces) + h.key + lines
    decreases |lines|
  {
    hide LinesOf, Take;
    if lines == [] {
      assert LinesOf(h.pieces) + h.key + [] == LinesOf(h.pieces) + h.key;
    } else {
      TakeLines(h, lines[0], rules);
      TakeAllLines(Take(h, lines[0], rules), lines[1..], rules);
      assert LinesOf(h.pieces) + h.key + [lines[0]] + lines[1..] == LinesOf(h.pieces) + h.key + lines;
    }
  }

  /** The policy waits for whole lines. */
  ghost predicate NeverReleases(rules: Rules)
  {
    forall v: bytes :: rules.Released(v) == 0
  }

  lemma {:induction false} FramesTaken(frames: seq<bytes>, rules: Rules)
    requires NeverReleases(rules)
    ensures var st := FedAll(frames, rules);
            && st.pending == Rest(Concat(frames))
            && |LinesOf(st.held.pieces) + st.held.key| >= |Lines(Concat(frames))|
            && (KeepsBreaks(frames) ==> LinesOf(st.held.pieces) + st.held.key == Lines(Concat(frames)))
            && (!KeepsBreaks(frames) ==> |LinesOf(st.held.pieces) + st.held.key| > |Lines(Concat(frames))|)
  {
    hide LinesOf, Lines, Rest, TakeAll, SplitsBreak;
    if frames == [] {
      NoFrames();
    } else {
      var init, data := frames[..|frames| - 1], frames[|frames| - 1];
      FramesTaken(init, rules);
      var st := FedAll(init, rules);
      if data == [] {
        assert Concat(frames) == Concat(init);
        assert !SplitsBreak(Concat(init), data) by { NoSplit(Concat(init)); }
      } else {
        LinesGoOn(Concat(init), data);
        TakeAllLines(st.held, Lines(st.pending + data), rules);
      }
    }
  }

  lemma NoSplit(a: bytes)
    ensures !SplitsBreak(a, [])
  {
  }

  lemma NoFrames()
    ensures Concat([]) == [] && Lines([]) == [] && Rest([]) == [] && LinesOf([]) == []
  {
  }

  /** With a policy that waits for lines, exactly the lines of the whole text are taken if and only if no break is cut. */
  lemma LinesExactlyWhen(frames: seq<bytes>, rules: Rules)
    requires NeverReleases(rules)
    ensures LinesOf(Pieces(frames, rules)) == AllLines(Concat(frames)) <==> KeepsBreaks(frames)
  {
    hide LinesOf, Lines, Rest, TakeAll, KeepsBreaks, Concat, Take;
    FramesTaken(frames, rules);
    var st := FedAll(frames, rules);
    var h := if st.pending == [] then st.held else Take(st.held, st.pending, rules);
    if st.pending != [] {
      TakeLines(st.held, st.pending, rules);
    } else {
      assert LinesOf(h.pieces) + h.key == LinesOf(st.held.pieces) + st.held.key;
    }
    ClosedLines(h);
  }

  lemma ClosedLines(h: Held)
    ensures LinesOf(Closed(h)) == LinesOf(h.pieces) + h.key
  {
    if h.key != [] {
      assert Closed(h)[..|h.pieces|] == h.pieces;
    } else {
      assert LinesOf(h.pieces) + [] == LinesOf(h.pieces);
    }
  }

  // ------------------------------------------------ any policy, any cuts at all

  /** The lines of an open key: the first opens it and none of the others ends it. */
  predicate OpenKey(lines: seq<bytes>, rules: Rules)
  {
    lines != [] && rules.Opens(lines[0]) && forall i | 1 <= i < |lines| :: !rules.ends(lines[i])
  }

  /** A piece is what it should be: a key goes out whole, up to the line that ends it, and no other line opens one. */
  predicate Proper(p: Piece, rules: Rules)
  {
    match p
    case Prefix(raw) => raw != [] && Breakless(raw)
    case Line(raw) => IsLine(raw) && !rules.Opens(raw)
    case Block(lines, closed) =>
      if closed then |lines| >= 2 && OpenKey(lines[..|lines| - 1], rules) && rules.ends(lines[|lines| - 1])
      else OpenKey(lines, rules)
  }

  /** Proper pieces, of which no key is unfinished. */
  predicate AllProper(pieces: seq<Piece>, rules: Rules)
  {
    forall p | p in pieces :: Proper(p, rules) && (p.Block? ==> p.closed)
  }

  /** No byte is lost, repeated or moved. */
  predicate Conserves(text: bytes, st: State)
  {
    Handed(st.held.pieces) + Concat(st.held.key) + st.pending == text
  }

  predicate Sound(h: Held, rules: Rules)
  {
    AllProper(h.pieces, rules) && (h.key != [] ==> OpenKey(h.key, rules))
  }

  lemma TakeSound(h: Held, line: bytes, rules: Rules)
    requires Sound(h, rules) && IsLine(line)
    ensures Sound(Take(h, line, rules), rules)
  {
    hide IsLine;
    assert (h.key + [line])[..|h.key|] == h.key;
  }

  lemma TakeConserves(h: Held, line: bytes, rules: Rules)
    ensures var h' := Take(h, line, rules); Handed(h'.pieces) + Concat(h'.key) == Handed(h.pieces) + Concat(h.key) + line
  {
    hide Handed, Concat;
    ConcatPush(h.key, line);
    ConcatPush([], line);
    NothingHeld();
    assert [] + [line] == [line] && [] + line == line;
    assert Handed(h.pieces) + (Concat(h.key) + line) == Handed(h.pieces) + Concat(h.key) + line;
    Push(h.pieces, Block(h.key + [line], true), rules.redact);
    Push(h.pieces, Line(line), rules.redact);
    assert Handed(h.pieces) + [] + line == Handed(h.pieces) + line;
  }

  lemma NothingHeld()
    ensures Concat([]) == [] && Handed([]) == []
  {
  }

  lemma WidthOfLine(s: bytes)
    requires LineWidth(s) > 0
    ensures LineWidth(s[..LineWidth(s)]) == LineWidth(s)
  {
    BreakAtIs(s[..LineWidth(s)], BreakAt(s));
  }

  /** All complete lines of `p`. */
  lemma {:induction false} TakeAllKeeps(h: Held, p: bytes, rules: Rules)
    requires Sound(h, rules)
    ensures var h' := TakeAll(h, Lines(p), rules);
            Sound(h', rules) && Handed(h'.pieces) + Concat(h'.key) + Rest(p) == Handed(h.pieces) + Concat(h.key) + p
    decreases |p|
  {
    hide Handed, Concat, Take, Sound, Lines, Rest, LineWidth;
    FirstLine(p);
    var w := LineWidth(p);
    if w > 0 {
      var line := p[..w];
      WidthOfLine(p);
      TakeSound(h, line, rules);
      TakeConserves(h, line, rules);
      TakeAllKeeps(Take(h, line, rules), p[w..], rules);
      assert Lines(p)[1..] == Lines(p[w..]);
      assert Handed(h.pieces) + Concat(h.key) + line + p[w..] == Handed(h.pieces) + Concat(h.key) + p;
    }
  }

  lemma ReleaseKeeps(st: State, text: bytes, rules: Rules)
    requires Sound(st.held, rules) && Conserves(text, st) && Breakless(st.pending)
    ensures var st' := Release(st, rules); Sound(st'.held, rules) && Conserves(text, st') && Breakless(st'.pending)
  {
    hide Handed, Concat;
    var n := rules.Released(st.pending);
    if st.held.key == [] && st.pending != [] && n > 0 {
      var out, left := st.pending[..n], st.pending[n..];
      NothingHeld();
      Push(st.held.pieces, Prefix(out), rules.redact);
      assert st.pending == out + left;
      assert Handed(st.held.pieces) + [] + st.pending == Handed(st.held.pieces) + out + [] + left;
      assert Breakless(out) && Breakless(left);
    }
  }

  lemma {:induction false} FramesConserved(frames: seq<bytes>, rules: Rules)
    ensures var st := FedAll(frames, rules);
            Sound(st.held, rules) && Conserves(Concat(frames), st) && Breakless(st.pending)
  {
    hide Handed, Sound, Release, Lines, Rest, TakeAll, Breakless;
    if frames == [] {
      StartsSound(rules);
    } else {
      var init, data := frames[..|frames| - 1], frames[|frames| - 1];
      FramesConserved(init, rules);
      var st, text := FedAll(init, rules), Concat(init);
      assert Concat(frames) == text + data;
      if data == [] {
        assert text + data == text;
      } else {
        TakeAllKeeps(st.held, st.pending + data, rules);
        assert Handed(st.held.pieces) + Concat(st.held.key) + (st.pending + data) == text + data;
        ReleaseKeeps(State(Rest(st.pending + data), TakeAll(st.held, Lines(st.pending + data), rules)), text + data, rules);
      }
    }
  }

  lemma StartsSound(rules: Rules)
    ensures Sound(NONE, rules) && Handed([]) == [] && Breakless([])
  {
  }

  /** Whatever the policy and the cuts: no byte is lost, repeated or moved; no key is torn, and only the last can be unfinished. */
  lemma EveryStream(frames: seq<bytes>, rules: Rules)
    ensures var pieces := Pieces(frames, rules);
            && Handed(pieces) == Concat(frames)
            && (forall p | p in pieces :: Proper(p, rules))
            && forall i | 0 <= i < |pieces| - 1 :: pieces[i].Block? ==> pieces[i].closed
  {
    hide Handed, Concat, Sound, Take, FedAll, OpenKey, IsLine;
    FramesConserved(frames, rules);
    var st := FedAll(frames, rules);
    var h := if st.pending == [] then st.held else Take(st.held, st.pending, rules);
    if st.pending != [] {
      assert IsLine(st.pending) by { UnfinishedLine(st.pending); }
      TakeSound(st.held, st.pending, rules);
      TakeConserves(st.held, st.pending, rules);
    } else {
      assert Handed(h.pieces) + Concat(h.key) + [] == Handed(h.pieces) + Concat(h.key);
    }
    CloseKeeps(h, rules);
  }

  lemma UnfinishedLine(s: bytes)
    requires s != [] && Breakless(s)
    ensures IsLine(s)
  {
  }

  lemma CloseKeeps(h: Held, rules: Rules)
    requires Sound(h, rules)
    ensures Handed(Closed(h)) == Handed(h.pieces) + Concat(h.key)
    ensures forall p | p in Closed(h) :: Proper(p, rules)
    ensures forall i | 0 <= i < |Closed(h)| - 1 :: Closed(h)[i].Block? ==> Closed(h)[i].closed
  {
    hide Handed, Concat, OpenKey, IsLine;
    NothingHeld();
    if h.key == [] {
      assert Handed(h.pieces) + [] == Handed(h.pieces);
    } else {
      Push(h.pieces, Block(h.key, false), rules.redact);
    }
    forall i | 0 <= i < |Closed(h)| - 1
      ensures Closed(h)[i].Block? ==> Closed(h)[i].closed
    {
      assert Closed(h)[i] in h.pieces;
    }
  }
}
