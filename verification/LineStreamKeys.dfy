/**
 How a stream is cut into frames does not decide what is kept together as a key. The policy
 may let parts of unfinished lines go early; then it must know that the line is not one that
 opens a key, whatever still comes, and that condition is exact.
 */
module LineStreamKeys {
  import opened Bytes
  import opened LineStream

  /** Keys, and the text between them however it was cut. */
  datatype Segment = Text(raw: bytes) | Key(lines: seq<bytes>, closed: bool)

  function AddText(o: seq<Segment>, raw: bytes): seq<Segment>
  {
    if raw == [] then o
    else if o != [] && o[|o| - 1].Text? then o[..|o| - 1] + [Text(o[|o| - 1].raw + raw)]
    else o + [Text(raw)]
  }

  function Add(o: seq<Segment>, p: Piece): seq<Segment>
  {
    match p
    case Prefix(raw) => AddText(o, raw)
    case Line(raw) => AddText(o, raw)
    case Block(lines, closed) => o + [Key(lines, closed)]
  }

  function Outline(pieces: seq<Piece>): seq<Segment>
  {
    if pieces == [] then [] else Add(Outline(pieces[..|pieces| - 1]), pieces[|pieces| - 1])
  }

  lemma OutlinePush(pieces: seq<Piece>, p: Piece)
    ensures Outline(pieces + [p]) == Add(Outline(pieces), p)
  {
    assert (pieces + [p])[..|pieces|] == pieces;
  }

  lemma AddTextTwice(o: seq<Segment>, a: bytes, b: bytes)
    ensures AddText(AddText(o, a), b) == AddText(o, a + b)
  {
    if a == [] {
      assert a + b == b;
    } else if b == [] {
      assert a + b == a;
    } else if o != [] && o[|o| - 1].Text? {
      assert o[|o| - 1].raw + a + b == o[|o| - 1].raw + (a + b);
    }
  }

  /** The keys and the text between them are those of the whole text. */
  predicate KeepsKeys(frames: seq<bytes>, rules: Rules)
  {
    Outline(Pieces(frames, rules)) == Outline(Sorted(AllLines(Concat(frames)), rules))
  }

  /** However the line goes on, neither it nor what is left of it after `n` bytes opens a key. */
  ghost predicate Shut(v: bytes, n: nat, rules: Rules)
    requires n <= |v|
  {
    forall more: bytes | IsLine(v + more) :: !rules.Opens(v + more) && (v[n..] + more != [] ==> !rules.Opens(v[n..] + more))
  }

  /** A policy that lets part of a line go knows that it opens no key. */
  ghost predicate Careful(rules: Rules)
  {
    forall v: bytes | Breakless(v) && rules.Released(v) > 0 :: Shut(v, rules.Released(v), rules)
  }

  // ------------------------------------------------------- reading alongside

  /** The stream stands where the whole text does, except that `rel` of the current line is already out. */
  ghost predicate Alongside(text: bytes, st: State, rel: bytes, rules: Rules)
  {
    var h := TakeAll(NONE, Lines(text), rules);
    && Rest(text) == rel + st.pending
    && h.key == st.held.key
    && Outline(st.held.pieces) == AddText(Outline(h.pieces), rel)
    && (rel != [] ==> h.key == [] && Shut(rel + st.pending, |rel|, rules))
  }

  /** Two machines in step stay so. */
  lemma {:induction false} InStep(a: Held, b: Held, lines: seq<bytes>, rules: Rules)
    requires a.key == b.key && Outline(a.pieces) == Outline(b.pieces)
    ensures var a', b' := TakeAll(a, lines, rules), TakeAll(b, lines, rules);
            a'.key == b'.key && Outline(a'.pieces) == Outline(b'.pieces)
    decreases |lines|
  {
    hide Outline, Add;
    if lines != [] {
      var line := lines[0];
      TakeInStep(a, b, line, rules);
      InStep(Take(a, line, rules), Take(b, line, rules), lines[1..], rules);
    }
  }

  lemma TakeInStep(a: Held, b: Held, line: bytes, rules: Rules)
    requires a.key == b.key && Outline(a.pieces) == Outline(b.pieces)
    ensures var a', b' := Take(a, line, rules), Take(b, line, rules);
            a'.key == b'.key && Outline(a'.pieces) == Outline(b'.pieces)
  {
    hide Outline, Add;
    OutlinePush(a.pieces, Line(line));
    OutlinePush(b.pieces, Line(line));
    OutlinePush(a.pieces, Block(a.key + [line], true));
    OutlinePush(b.pieces, Block(a.key + [line], true));
  }

  lemma {:induction false} TakeAllThen(h: Held, a: seq<bytes>, b: seq<bytes>, rules: Rules)
    ensures TakeAll(h, a + b, rules) == TakeAll(TakeAll(h, a, rules), b, rules)
    decreases |a|
  {
    hide Take;
    if a == [] {
      assert a + b == b;
    } else {
      TakeAllThen(Take(h, a[0], rules), a[1..], b, rules);
      assert (a + b)[0] == a[0] && (a + b)[1..] == a[1..] + b;
    }
  }

  lemma WidthGrows(rel: bytes, p: bytes)
    requires Breakless(rel) && !Breakless(p)
    ensures LineWidth(rel + p) == |rel| + LineWidth(p)
  {
    var at := BreakAt(p);
    forall i | 0 <= i < |rel| + at
      ensures !IsBreak((rel + p)[i])
    {
      assert (rel + p)[i] == if i < |rel| then rel[i] else p[i - |rel|];
    }
    BreakAtIs(rel + p, |rel| + at);
  }

  lemma Slices(rel: bytes, p: bytes, w: nat)
    requires w <= |p|
    ensures (rel + p)[..|rel| + w] == rel + p[..w] && (rel + p)[|rel| + w..] == p[w..]
  {
  }

  /** What stands before the first break belongs to the first line. */
  lemma FirstLineGrows(rel: bytes, p: bytes)
    requires Breakless(rel)
    ensures Breakless(p) ==> Lines(p) == [] == Lines(rel + p) && Rest(p) == p && Rest(rel + p) == rel + p
    ensures !Breakless(p) ==> Lines(p) != [] && Lines(rel + p) == [rel + Lines(p)[0]] + Lines(p)[1..] && Rest(rel + p) == Rest(p)
  {
    hide Lines, Rest, LineWidth, Breakless;
    FirstLine(p);
    FirstLine(rel + p);
    if Breakless(p) {
      Joined(rel, p);
    } else {
      WidthGrows(rel, p);
      Slices(rel, p, LineWidth(p));
    }
  }

  lemma Joined(a: bytes, b: bytes)
    requires Breakless(a) && Breakless(b)
    ensures Breakless(a + b)
  {
  }

  lemma FirstIsLine(p: bytes)
    requires Lines(p) != []
    ensures IsLine(Lines(p)[0]) && LineWidth(Lines(p)[0]) == |Lines(p)[0]| && Lines(p)[0] <= p
  {
    var w := LineWidth(p);
    var line := p[..w];
    BreakAtIs(line, BreakAt(p));
  }

  lemma ShutGoesOn(v: bytes, n: nat, data: bytes, rules: Rules)
    requires n <= |v| && Shut(v, n, rules)
    ensures Shut(v + data, n, rules)
  {
    forall more: bytes | IsLine(v + data + more)
      ensures !rules.Opens(v + data + more) && ((v + data)[n..] + more != [] ==> !rules.Opens((v + data)[n..] + more))
    {
      assert v + data + more == v + (data + more);
      assert (v + data)[n..] + more == v[n..] + (data + more);
    }
  }

  /** The rest of a line of which something is out already is plain text, and so is the whole line. */
  lemma FirstLineIsText(h: Held, held: Held, rel: bytes, pending: bytes, data: bytes, rules: Rules)
    requires rel != [] && Breakless(rel) && Breakless(pending) && !Breakless(pending + data)
    requires h.key == held.key == [] && Outline(held.pieces) == AddText(Outline(h.pieces), rel)
    requires Shut(rel + pending, |rel|, rules)
    ensures Lines(pending + data) != []
    ensures var x := Lines(pending + data)[0]; var a, b := Take(held, x, rules), Take(h, rel + x, rules);
            a.key == b.key && Outline(a.pieces) == Outline(b.pieces)
  {
    hide Outline, AddText, Lines, LineWidth, Breakless;
    var p := pending + data;
    FirstLineGrows(rel, p);
    var x := Lines(p)[0];
    FirstIsLine(p);
    FirstIsLine(rel + p);
    assert IsLine(rel + x) by { assert Lines(rel + p)[0] == rel + x; }
    assert |x| > |pending| by { LongerThan(pending, x); }
    var more := x[|pending|..];
    assert x == pending + more by { assert x[..|pending|] == p[..|pending|] == pending; }
    assert rel + x == rel + pending + more;
    assert (rel + pending)[|rel|..] + more == x;
    OutlinePush(held.pieces, Line(x));
    OutlinePush(h.pieces, Line(rel + x));
    AddTextTwice(Outline(h.pieces), rel, x);
  }

  lemma LongerThan(pending: bytes, x: bytes)
    requires Breakless(pending) && LineWidth(x) == |x| > 0
    requires x <= pending || pending <= x
    ensures |x| > |pending|
  {
    BreaklessStart(x, pending);
  }

  lemma BreaklessStart(a: bytes, b: bytes)
    ensures a <= b && Breakless(b) ==> Breakless(a)
  {
    if a <= b {
      assert b == a + b[|a|..];
      Parts(a, b[|a|..]);
    }
  }

  /** A frame, before anything of the unfinished line goes out. */
  lemma Advance(text: bytes, st: State, rel: bytes, data: bytes, rules: Rules)
    requires Alongside(text, st, rel, rules) && !SplitsBreak(text, data)
    ensures var p := st.pending + data;
            Alongside(text + data, State(Rest(p), TakeAll(st.held, Lines(p), rules)), if Breakless(p) then rel else [], rules)
  {
    hide Outline, AddText, Lines, LineWidth, Breakless, Rest, TakeAll, Take, Shut, SplitsBreak;
    var p := st.pending + data;
    var h := TakeAll(NONE, Lines(text), rules);
    LinesGoOn(text, data);
    TakeAllThen(NONE, Lines(text), Lines(Rest(text) + data), rules);
    assert Rest(text) + data == rel + p;
    Parts(rel, st.pending);
    FirstLineGrows(rel, p);
    if Breakless(p) {
      TakeNone(st.held, rules);
      TakeNone(h, rules);
      if rel != [] {
        ShutGoesOn(rel + st.pending, |rel|, data, rules);
        assert rel + st.pending + data == rel + p;
      }
    } else {
      NoText(Outline(TakeAll(h, Lines(rel + p), rules).pieces));
      if rel == [] {
        assert rel + p == p;
        NoText(Outline(h.pieces));
        InStep(st.held, h, Lines(p), rules);
      } else {
        FirstLineIsText(h, st.held, rel, st.pending, data, rules);
        var x, xs := Lines(p)[0], Lines(p)[1..];
        assert Lines(p) == [x] + xs;
        TakeFirst(st.held, x, xs, rules);
        TakeFirst(h, rel + x, xs, rules);
        InStep(Take(st.held, x, rules), Take(h, rel + x, rules), xs, rules);
      }
      assert [] + Rest(p) == Rest(p);
    }
  }

  lemma Parts(a: bytes, b: bytes)
    ensures Breakless(a + b) ==> Breakless(a) && Breakless(b)
  {
    if Breakless(a + b) {
      assert forall i | 0 <= i < |a| :: (a + b)[i] == a[i];
      assert forall i | 0 <= i < |b| :: (a + b)[|a| + i] == b[i];
    }
  }

  lemma TakeNone(h: Held, rules: Rules)
    ensures TakeAll(h, [], rules) == h
  {
  }

  lemma TakeFirst(h: Held, x: bytes, xs: seq<bytes>, rules: Rules)
    ensures TakeAll(h, [x] + xs, rules) == TakeAll(Take(h, x, rules), xs, rules)
  {
    assert ([x] + xs)[1..] == xs;
  }

  lemma NoText(o: seq<Segment>)
    ensures AddText(o, []) == o
  {
  }

  /** A careful policy lets part of the unfinished line go. */
  lemma LetGo(text: bytes, st: State, rel: bytes, rules: Rules) returns (rel': bytes)
    requires Alongside(text, st, rel, rules) && Careful(rules)
    ensures Alongside(text, Release(st, rules), rel', rules)
  {
    hide Outline, AddText, Lines, LineWidth, Breakless, Rest, TakeAll, Take, Shut;
    var n := rules.Released(st.pending);
    rel' := rel;
    if st.held.key == [] && st.pending != [] && n > 0 {
      var out, left := st.pending[..n], st.pending[n..];
      rel' := rel + out;
      assert rel + st.pending == rel' + left;
      OutlinePush(st.held.pieces, Prefix(out));
      AddTextTwice(Outline(TakeAll(NONE, Lines(text), rules).pieces), rel, out);
      Parts(rel, st.pending);
      assert Shut(st.pending, n, rules);
      if rel == [] {
        assert rel' + left == st.pending;
        assert rel' == out;
      } else {
        ShutDeeper(rel, st.pending, n, rules);
        assert |rel'| == |rel| + n;
      }
    }
  }

  lemma ShutDeeper(rel: bytes, pending: bytes, n: nat, rules: Rules)
    requires Shut(rel + pending, |rel|, rules) && n <= |pending| && Shut(pending, n, rules)
    requires pending != [] && Breakless(rel)
    ensures Shut(rel + pending, |rel| + n, rules)
  {
    hide LineWidth, Breakless;
    var v := rel + pending;
    forall more: bytes | IsLine(v + more)
      ensures !rules.Opens(v + more) && (v[|rel| + n..] + more != [] ==> !rules.Opens(v[|rel| + n..] + more))
    {
      assert v[|rel| + n..] == pending[n..];
      assert v + more == rel + (pending + more);
      LineTail(rel, pending + more);
    }
  }

  /** What is left of a line is a line. */
  lemma LineTail(rel: bytes, tail: bytes)
    requires IsLine(rel + tail) && tail != [] && Breakless(rel)
    ensures IsLine(tail)
  {
    Parts(rel, tail);
    if !Breakless(rel + tail) {
      var at := BreakAt(rel + tail);
      assert at >= |rel|;
      forall i | 0 <= i < at - |rel|
        ensures !IsBreak(tail[i])
      {
        assert tail[i] == (rel + tail)[|rel| + i];
      }
      assert tail[at - |rel|] == (rel + tail)[at];
      BreakAtIs(tail, at - |rel|);
    }
  }

  lemma {:induction false} AllAlongside(frames: seq<bytes>, rules: Rules) returns (rel: bytes)
    requires KeepsBreaks(frames) && Careful(rules)
    ensures Alongside(Concat(frames), FedAll(frames, rules), rel, rules)
    decreases |frames|
  {
    hide Careful, Alongside, SplitsBreak, Release;
    if frames == [] {
      StartsAlongside(rules);
      rel := [];
    } else {
      var init, data := frames[..|frames| - 1], frames[|frames| - 1];
      rel := AllAlongside(init, rules);
      if data == [] {
        assert Concat(frames) == Concat(init);
      } else {
        var st := FedAll(init, rules);
        var p := st.pending + data;
        Advance(Concat(init), st, rel, data, rules);
        rel := LetGo(Concat(frames), State(Rest(p), TakeAll(st.held, Lines(p), rules)), if Breakless(p) then rel else [], rules);
      }
    }
  }

  lemma StartsAlongside(rules: Rules)
    ensures Alongside([], START, [], rules)
  {
  }

  /** The end of the stream. */
  lemma EndsAlike(text: bytes, st: State, rel: bytes, rules: Rules)
    requires Alongside(text, st, rel, rules)
    ensures Outline(Flushed(st, rules)) == Outline(Sorted(AllLines(text), rules))
  {
    hide Outline, AddText, Lines, Rest, TakeAll, Take, Shut, Sorted, Closed, IsLine;
    var h := TakeAll(NONE, Lines(text), rules);
    var last := if Rest(text) == [] then [] else [Rest(text)];
    TakeAllThen(NONE, Lines(text), last, rules);
    TakesSorted([], AllLines(text), rules);
    var whole := TakeAll(h, last, rules);
    assert Closed(whole) == [] + Sorted(AllLines(text), rules) == Sorted(AllLines(text), rules);
    TakeNone(h, rules);
    TakeFirst(h, Rest(text), [], rules);
    TakeNone(Take(h, Rest(text), rules), rules);
    assert [Rest(text)] + [] == [Rest(text)];
    var mine := if st.pending == [] then st.held else Take(st.held, st.pending, rules);
    if rel == [] {
      NoText(Outline(h.pieces));
      assert Rest(text) == st.pending;
      if st.pending != [] {
        TakeInStep(st.held, h, st.pending, rules);
      }
    } else {
      LastLineIsText(h, st, rel, rules);
    }
    ClosedAlike(mine, whole);
  }

  lemma LastLineIsText(h: Held, st: State, rel: bytes, rules: Rules)
    requires rel != [] && Breakless(rel + st.pending) && Shut(rel + st.pending, |rel|, rules)
    requires h.key == st.held.key == [] && Outline(st.held.pieces) == AddText(Outline(h.pieces), rel)
    ensures var a, b := if st.pending == [] then st.held else Take(st.held, st.pending, rules), Take(h, rel + st.pending, rules);
            a.key == b.key && Outline(a.pieces) == Outline(b.pieces)
  {
    hide Outline, AddText, Breakless, LineWidth;
    var v := rel + st.pending;
    assert v + [] == v && v[|rel|..] + [] == st.pending;
    assert IsLine(v + []);
    OutlinePush(h.pieces, Line(v));
    if st.pending == [] {
      assert v == rel;
    } else {
      OutlinePush(st.held.pieces, Line(st.pending));
      AddTextTwice(Outline(h.pieces), rel, st.pending);
    }
  }

  lemma ClosedAlike(a: Held, b: Held)
    requires a.key == b.key && Outline(a.pieces) == Outline(b.pieces)
    ensures Outline(Closed(a)) == Outline(Closed(b))
  {
    hide Outline;
    OutlinePush(a.pieces, Block(a.key, false));
    OutlinePush(b.pieces, Block(a.key, false));
  }

  /** However the stream is cut, short of cutting a break, its keys are those of the whole text. */
  lemma KeysDoNotDependOnFrames(frames: seq<bytes>, rules: Rules)
    requires Careful(rules) && KeepsBreaks(frames)
    ensures KeepsKeys(frames, rules)
  {
    hide Careful, Alongside, Outline, Sorted, Flushed;
    var rel := AllAlongside(frames, rules);
    EndsAlike(Concat(frames), FedAll(frames, rules), rel, rules);
  }

  // ---------------------------------------------------- the condition is exact

  /** A line that is the whole text. */
  lemma OneLine(line: bytes, rules: Rules)
    requires IsLine(line)
    ensures AllLines(line) == [line]
    ensures Outline(Sorted([line], rules)) == if rules.Opens(line) then [Key([line], false)] else [Text(line)]
  {
    FirstLine(line);
    if !Breakless(line) {
      assert line[..|line|] == line && line[|line|..] == [];
      FirstLine([]);
    }
    assert Lines(line) + (if Rest(line) == [] then [] else [Rest(line)]) == [line];
    SortedFirst([line], rules);
    assert [line][1..] == [];
    OutlinePush([], if rules.Opens(line) then Block([line], false) else Line(line));
    assert Sorted([line], rules) == [] + [if rules.Opens(line) then Block([line], false) else Line(line)];
  }

  lemma {:induction false} TakeAllExtends(h: Held, lines: seq<bytes>, rules: Rules)
    ensures h.pieces <= TakeAll(h, lines, rules).pieces
    decreases |lines|
  {
    if lines != [] {
      TakeAllExtends(Take(h, lines[0], rules), lines[1..], rules);
    }
  }

  /** What is out is out. */
  lemma FedKeeps(st: State, data: bytes, rules: Rules)
    ensures st.held.pieces <= Fed(st, data, rules).held.pieces <= Flushed(Fed(st, data, rules), rules)
  {
    hide TakeAll, Lines, Rest;
    TakeAllExtends(st.held, Lines(st.pending + data), rules);
  }

  lemma {:induction false} StartsWithText(pieces: seq<Piece>)
    requires pieces != [] && pieces[0].Prefix? && pieces[0].raw != []
    ensures Outline(pieces) != [] && Outline(pieces)[0].Text?
    decreases |pieces|
  {
    if |pieces| > 1 {
      StartsWithText(pieces[..|pieces| - 1]);
    } else {
      assert pieces[..0] == [];
    }
  }

  /** The first frame is part of a line, and some of it goes out. */
  lemma FirstFrame(v: bytes, rules: Rules)
    requires Breakless(v) && rules.Released(v) > 0
    ensures var n := rules.Released(v); FedAll([v], rules) == State(v[n..], Held([], [Prefix(v[..n])]))
  {
    hide LineWidth;
    assert [v][..0] == [] && [] + v == v;
    FirstLine(v);
    assert FedAll([v], rules) == Fed(START, v, rules);
    assert TakeAll(NONE, [], rules) == NONE;
    assert [] + [Prefix(v[..rules.Released(v)])] == [Prefix(v[..rules.Released(v)])];
  }

  lemma TwoFrames(v: bytes, more: bytes, rules: Rules)
    requires Breakless(v)
    ensures KeepsBreaks([v, more]) && Concat([v, more]) == v + more
    ensures FedAll([v, more], rules) == Fed(FedAll([v], rules), more, rules)
  {
    assert [v, more][..1] == [v] && [v][..0] == [];
    assert Concat([v]) == v;
    NoCr(v);
  }

  /** A policy that lets part of a line go which then opens a key tears the key. */
  lemma TearsKey(v: bytes, more: bytes, rules: Rules)
    requires Breakless(v) && rules.Released(v) > 0 && IsLine(v + more) && rules.Opens(v + more)
    ensures KeepsBreaks([v, more]) && !KeepsKeys([v, more], rules)
  {
    hide Outline, Sorted, Fed, FedAll, Lines, Rest, IsLine, AllLines, Flushed, KeepsBreaks, Concat;
    TwoFrames(v, more, rules);
    FirstFrame(v, rules);
    FedKeeps(FedAll([v], rules), more, rules);
    StartsWithText(Pieces([v, more], rules));
    OneLine(v + more, rules);
  }

  /** A policy that leaves of a line what opens a key makes a key where there is none. */
  lemma MakesKey(v: bytes, more: bytes, rules: Rules)
    requires Breakless(v) && rules.Released(v) > 0 && IsLine(v + more) && !rules.Opens(v + more)
    requires var t := v[rules.Released(v)..] + more;
        t != [] && rules.Opens(t) && (Breakless(t) && more != [] ==> rules.Released(t) == 0)
    ensures KeepsBreaks([v, more]) && !KeepsKeys([v, more], rules)
  {
    hide Outline, Sorted, FedAll, IsLine, AllLines, KeepsBreaks, Concat, Lines, Rest;
    var n := rules.Released(v);
    var t := v[n..] + more;
    TwoFrames(v, more, rules);
    FirstFrame(v, rules);
    OneLine(v + more, rules);
    LeavesLine(v, n, more);
    var st := FedAll([v], rules);
    TakeNone(st.held, rules);
    TakeFirst(st.held, t, [], rules);
    assert [t] + [] == [t];
    TakeNone(Take(st.held, t, rules), rules);
    assert more == [] ==> v[n..] == t;
    var first, key := Prefix(v[..n]), Block([t], false);
    assert Pieces([v, more], rules) == [first] + [key];
    TextThenKey(v[..n], [t]);
  }

  lemma TextThenKey(raw: bytes, lines: seq<bytes>)
    requires raw != []
    ensures Outline([Prefix(raw)] + [Block(lines, false)]) == [Text(raw), Key(lines, false)]
  {
    var first := Prefix(raw);
    OutlinePush([first], Block(lines, false));
    assert [first][..0] == [];
    assert Outline([first]) == Add(Outline([]), first) == [Text(raw)];
  }

  lemma LeavesLine(v: bytes, n: nat, more: bytes)
    requires n <= |v| && Breakless(v) && IsLine(v + more) && v[n..] + more != []
    ensures var t := v[n..] + more;
            if Breakless(t) then Lines(t) == [] && Rest(t) == t else Lines(t) == [t] && Rest(t) == []
  {
    hide LineWidth, Lines, Rest;
    var t := v[n..] + more;
    assert v + more == v[..n] + t && v == v[..n] + v[n..];
    Parts(v[..n], v[n..]);
    LineTail(v[..n], t);
    FirstLine(t);
    FirstLine([]);
    if !Breakless(t) {
      assert t[..|t|] == t && t[|t|..] == [];
    }
  }

  /** Keys stay whole under every cut, short of cutting a break, if and only if the policy is careful. */
  lemma KeysWholeExactlyWhen(rules: Rules)
    ensures (forall frames: seq<bytes> | KeepsBreaks(frames) :: KeepsKeys(frames, rules)) <==> Careful(rules)
  {
    hide KeepsBreaks, KeepsKeys;
    if Careful(rules) {
      forall frames: seq<bytes> | KeepsBreaks(frames)
        ensures KeepsKeys(frames, rules)
      {
        KeysDoNotDependOnFrames(frames, rules);
      }
    } else {
      var frames := Careless(rules);
      assert KeepsBreaks(frames) && !KeepsKeys(frames, rules);
    }
  }

  lemma Careless(rules: Rules) returns (frames: seq<bytes>)
    requires !Careful(rules)
    ensures KeepsBreaks(frames) && !KeepsKeys(frames, rules)
  {
    hide KeepsBreaks, KeepsKeys, LineWidth;
    var v: bytes :| Breakless(v) && rules.Released(v) > 0 && !Shut(v, rules.Released(v), rules);
    var n := rules.Released(v);
    var more: bytes :| IsLine(v + more) && (rules.Opens(v + more) || (v[n..] + more != [] && rules.Opens(v[n..] + more)));
    var t := v[n..] + more;
    if rules.Opens(v + more) {
      TearsKey(v, more, rules);
      frames := [v, more];
    } else if Breakless(t) && more != [] && rules.Released(t) > 0 {
      assert t + [] == t;
      TearsKey(t, [], rules);
      frames := [t, []];
    } else {
      MakesKey(v, more, rules);
      frames := [v, more];
    }
  }
}
