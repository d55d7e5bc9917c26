/**
 What the SQL console takes a text for, told from the text as written: white space and finished
 comments, then a word.
 */
module SqlConsoleWords {
  import opened Bytes
  import opened SqlConsole
  import opened SqlConsoleTexts

  /** White space and finished comments. */
  predicate Lead(ts: seq<Token>)
  {
    forall k | 0 <= k < |ts| :: FineToken(ts[k]) && (ts[k].White? || ts[k].Block? || (ts[k].Line? && ts[k].ended))
  }

  /** A lower-case word. */
  predicate IsName(name: string)
  {
    name != "" && forall k | 0 <= k < |name| :: 'a' <= name[k] <= 'z'
  }

  /** The word as written, in any case. */
  predicate Spells(w: bytes, name: string)
    requires IsName(name)
  {
    |w| == |name| && forall k | 0 <= k < |w| :: w[k] == name[k] as int || w[k] == name[k] as int - 32
  }

  /** The word does not go on. */
  predicate WordEnds(rest: bytes)
  {
    rest == [] || !(65 <= rest[0] <= 90 || 97 <= rest[0] <= 122 || rest[0] == 0xAA || rest[0] == 0xB5 || rest[0] == 0xBA
                    || (0xC0 <= rest[0] && rest[0] != 0xD7 && rest[0] != 0xF7))
  }

  // ------------------------------------------------------------------ the statement

  lemma LettersOnly(w: bytes, name: string, k: nat)
    requires IsName(name) && Spells(w, name) && k < |w|
    ensures 65 <= w[k] <= 90 || 97 <= w[k] <= 122
    ensures Lower(w[k]) == name[k] as int && IsLetter(w[k])
  {
  }

  /** White space is taken off the right only as far as the word. */
  lemma TrimRightStops(p: bytes, rest: bytes) returns (rest': bytes)
    requires p != [] && (65 <= p[|p| - 1] <= 90 || 97 <= p[|p| - 1] <= 122)
    ensures rest' <= rest && TrimRight(p + rest) == p + rest'
  {
    hide TrimRight, EndWidth, SpaceWidth;
    var s := p + rest;
    TrimRightFacts(s);
    var n := |TrimRight(s)|;
    assert !SpaceByte(s[|p| - 1]);
    rest' := rest[..n - |p|];
    assert s[..n] == p + rest';
  }

  lemma WordStands(w: bytes, name: string, rest: bytes)
    requires IsName(name) && Spells(w, name)
    ensures var s := w + rest; SpaceWidth(s) == 0 && !LineCommentAt(s, 0) && !BlockCommentAt(s, 0)
  {
    LettersOnly(w, name, 0);
    assert (w + rest)[0] == w[0];
  }

  /** Taking the lead off leaves the word, with a part of what follows. */
  lemma {:induction false} LeadIsStripped(lead: seq<Token>, w: bytes, name: string, rest: bytes) returns (rest': bytes)
    requires Lead(lead) && IsName(name) && Spells(w, name)
    ensures rest' <= rest && StripLeading(WrittenTokens(lead) + w + rest) == w + rest'
    decreases |lead|
  {
    hide TrimRight, EndWidth, SpaceWidth, FineToken, Spells, WrittenToken, IsName;
    var s := WrittenTokens(lead) + w + rest;
    if lead == [] {
      LastLetter(w, w, name);
      rest' := TrimRightStops(w, rest);
      assert s == w + rest;
      WordStands(w, name, rest);
      WordStands(w, name, rest');
    } else {
      hide StripLeading;
      var t, more := lead[0], lead[1..];
      var tail := WrittenTokens(more) + w + rest;
      assert s == WrittenToken(t) + tail;
      if t.White? {
        WhiteIsTrimmed(t, tail);
        rest' := LeadIsStripped(more, w, name, rest);
      } else {
        LastLetter(WrittenTokens(lead) + w, w, name);
        var r := TrimRightStops(WrittenTokens(lead) + w, rest);
        var left := WrittenTokens(more) + w + r;
        assert WrittenTokens(lead) + w + r == WrittenToken(t) + left;
        CommentIsStripped(t, tail, left);
        rest' := LeadIsStripped(more, w, name, r);
      }
    }
  }

  lemma LastLetter(p: bytes, w: bytes, name: string)
    requires IsName(name) && Spells(w, name) && |p| >= |w| && p[|p| - |w|..] == w
    ensures p != [] && (65 <= p[|p| - 1] <= 90 || 97 <= p[|p| - 1] <= 122)
  {
    LettersOnly(w, name, |w| - 1);
    assert p[|p| - 1] == p[|p| - |w|..][|w| - 1];
  }

  lemma WhiteIsTrimmed(t: Token, tail: bytes)
    requires t.White? && FineToken(t)
    ensures Trim(WrittenToken(t) + tail) == Trim(tail) && StripLeading(WrittenToken(t) + tail) == StripLeading(tail)
  {
    hide SpaceWidth, TrimRight;
    var s := WrittenToken(t) + tail;
    WhiteStands(t.text, tail);
    assert s[|t.text|..] == tail;
    assert TrimLeft(s) == TrimLeft(tail);
  }

  predicate Comment(t: Token)
  {
    FineToken(t) && (t.Block? || (t.Line? && t.ended))
  }

  lemma CommentStands(t: Token, tail: bytes)
    requires Comment(t)
    ensures SpaceWidth(WrittenToken(t) + tail) == 0
  {
    hide SpaceWidth, FineToken, WrittenToken;
    var s := WrittenToken(t) + tail;
    assert s[0..] == s;
    if t.Line? {
      LineStands(s, 0, t, tail);
    } else {
      BlockStands(s, 0, t, tail);
    }
  }

  lemma CommentIsStripped(t: Token, tail: bytes, left: bytes)
    requires Comment(t) && TrimRight(WrittenToken(t) + tail) == WrittenToken(t) + left
    ensures StripLeading(WrittenToken(t) + tail) == StripLeading(left)
  {
    hide SpaceWidth, TrimRight, FineToken, WrittenToken;
    var s, v := WrittenToken(t) + tail, WrittenToken(t) + left;
    CommentStands(t, tail);
    assert TrimLeft(s) == s && Trim(s) == v;
    assert v[0..] == v && v[|WrittenToken(t)|..] == left;
    if t.Line? {
      LineStands(v, 0, t, left);
    } else {
      BlockStands(v, 0, t, left);
    }
  }

  lemma {:induction false} WordReads(w: bytes, name: string, rest: bytes, k: nat)
    requires IsName(name) && Spells(w, name) && WordEnds(rest) && k <= |w|
    ensures Word(w[k..] + rest) == Ascii(name)[k..]
    decreases |w| - k
  {
    if k == |w| {
      assert w[k..] + rest == rest;
    } else {
      var s := w[k..] + rest;
      LettersOnly(w, name, k);
      assert s[0] == w[k] && s[1..] == w[k + 1..] + rest;
      WordReads(w, name, rest, k + 1);
      assert Ascii(name)[k..] == [Ascii(name)[k]] + Ascii(name)[k + 1..];
    }
  }

  /** The first word of a statement is the word after the lead, in lower case. */
  lemma KeywordReads(lead: seq<Token>, w: bytes, name: string, rest: bytes)
    requires Lead(lead) && IsName(name) && Spells(w, name) && WordEnds(rest)
    ensures Keyword(WrittenTokens(lead) + w + rest) == Ascii(name)
  {
    hide StripLeading, Lead, Spells;
    var rest' := LeadIsStripped(lead, w, name, rest);
    WordReads(w, name, rest', 0);
    assert w[0..] == w && Ascii(name)[0..] == Ascii(name);
  }

  lemma SameWord(a: string, b: string)
    requires IsName(a) && IsName(b)
    ensures Ascii(a) == Ascii(b) <==> a == b
  {
    assert |Ascii(a)| == |a| && |Ascii(b)| == |b|;
    if Ascii(a) == Ascii(b) {
      forall k | 0 <= k < |a|
        ensures a[k] == b[k]
      {
        assert Ascii(a)[k] == a[k] as int && Ascii(b)[k] == b[k] as int;
      }
    }
  }

  lemma ReadsListed(name: string)
    requires IsName(name)
    ensures name == "select" <==> Ascii(name) == Ascii("select")
    ensures name in {"show", "describe", "desc", "explain", "with", "values"} <==> Ascii(name) in READING
  {
    hide Ascii;
    SameWord(name, "select");
    SameWord(name, "show");
    SameWord(name, "describe");
    SameWord(name, "desc");
    SameWord(name, "explain");
    SameWord(name, "with");
    SameWord(name, "values");
  }

  lemma WritesListed(name: string)
    requires IsName(name)
    ensures name in {"insert", "update", "delete", "replace", "create", "alter", "drop", "truncate"} <==> Ascii(name) in WRITING
  {
    hide Ascii;
    SameWord(name, "insert");
    SameWord(name, "update");
    SameWord(name, "delete");
    SameWord(name, "replace");
    SameWord(name, "create");
    SameWord(name, "alter");
    SameWord(name, "drop");
    SameWord(name, "truncate");
  }

  /**
   A statement that starts, after any lead, with one of the writing words in any case is a write; with one of the
   reading words it only reads, a select unless it is unsafe; with any other word it is refused.
   */
  lemma FirstWordDecides(lead: seq<Token>, w: bytes, name: string, rest: bytes, unsafe: bytes -> bool)
    requires Lead(lead) && IsName(name) && Spells(w, name) && WordEnds(rest)
    ensures var s := WrittenTokens(lead) + w + rest;
            Classify(s, unsafe) ==
            if name in {"insert", "update", "delete", "replace", "create", "alter", "drop", "truncate"} then
              Ok(Policy(s, Ascii(name), false))
            else if name in {"show", "describe", "desc", "explain", "with", "values"} || (name == "select" && !unsafe(s)) then
              Ok(Policy(s, Ascii(name), true))
            else Unsupported
  {
    hide Keyword, Lead, Spells, WrittenTokens, Ascii;
    KeywordReads(lead, w, name, rest);
    ReadsListed(name);
    WritesListed(name);
  }

  // ----------------------------------------------------------------------- the text

  /** Nothing that follows a lead makes something else of it. */
  lemma {:induction false} LeadFits(lead: seq<Token>, next: bytes)
    requires Lead(lead)
    ensures Tokens(lead, next)
    decreases |lead|
  {
    hide FineToken, WrittenTokens;
    if lead != [] {
      LeadFits(lead[1..], next);
    }
  }

  /** The statement that is cut out of a text that does not start with white space. */
  lemma LeadStays(lead: seq<Token>, w: bytes, name: string, rest: bytes, statement: bytes) returns (rest': bytes)
    requires Lead(lead) && IsName(name) && Spells(w, name)
    requires var v := WrittenTokens(lead) + w + rest; SpaceWidth(v) == 0 && Single(v) == Ok(statement)
    ensures rest' <= rest && statement == WrittenTokens(lead) + w + rest'
  {
    hide SpaceWidth, ScanFrom, TrimRight, Trivial, TrimLeft, WrittenTokens, Lead, Spells;
    var head := WrittenTokens(lead) + w;
    var v := head + rest;
    HeadPasses(lead, w, name, rest);
    var n := if ScanFrom(v, 0).Stop? then ScanFrom(v, 0).at else |v|;
    var cut := rest[..n - |head|];
    assert v[..n] == head + cut;
    assert n == |v| ==> v[..n] == v;
    PrefixStarts(v, n);
    TrimOfStart(v[..n]);
    LastLetter(head, w, name);
    rest' := TrimRightStops(head, cut);
  }

  lemma HeadPasses(lead: seq<Token>, w: bytes, name: string, rest: bytes)
    requires Lead(lead) && IsName(name) && Spells(w, name)
    ensures var head := WrittenTokens(lead) + w; ScanFrom(head + rest, 0) == ScanFrom(head + rest, |head|)
  {
    hide ScanFrom, WrittenTokens, Lead, Tokens;
    var x := WrittenTokens(lead);
    var s := x + w + rest;
    assert s[0..] == x + (w + rest);
    LeadFits(lead, w + rest);
    TokensPass(s, 0, lead, w + rest);
    forall k | |x| <= k < |x + w|
      ensures 65 <= s[k] <= 90 || 97 <= s[k] <= 122
    {
      LettersOnly(w, name, k - |x|);
      assert s[k] == w[k - |x|];
    }
    PlainPasses(s, |x|, |x + w|);
  }

  /** White space before the first comment or word is taken off. */
  lemma {:induction false} LeadIsTrimmed(lead: seq<Token>, w: bytes, name: string, rest: bytes)
    returns (lead': seq<Token>, rest': bytes)
    requires Lead(lead) && IsName(name) && Spells(w, name)
    ensures Lead(lead') && rest' <= rest && Trim(WrittenTokens(lead) + w + rest) == WrittenTokens(lead') + w + rest'
    decreases |lead|
  {
    hide TrimRight, EndWidth, SpaceWidth, FineToken, Spells, WrittenToken, IsName;
    var s := WrittenTokens(lead) + w + rest;
    if lead != [] && lead[0].White? {
      var t, more := lead[0], lead[1..];
      assert s == WrittenToken(t) + (WrittenTokens(more) + w + rest);
      WhiteIsTrimmed(t, WrittenTokens(more) + w + rest);
      lead', rest' := LeadIsTrimmed(more, w, name, rest);
    } else {
      LastLetter(WrittenTokens(lead) + w, w, name);
      rest' := TrimRightStops(WrittenTokens(lead) + w, rest);
      lead' := lead;
      if lead == [] {
        assert s == w + rest;
        WordStands(w, name, rest);
      } else {
        CommentStands(lead[0], WrittenTokens(lead[1..]) + w + rest);
        assert s == WrittenToken(lead[0]) + (WrittenTokens(lead[1..]) + w + rest);
      }
    }
  }

  /** The same of a whole text: what is let through is what its first word says it is. */
  lemma TextIsTakenByItsFirstWord(lead: seq<Token>, w: bytes, name: string, rest: bytes, unsafe: bytes -> bool)
    requires Lead(lead) && IsName(name) && Spells(w, name) && WordEnds(rest)
    ensures var v := Inspect(WrittenTokens(lead) + w + rest, unsafe);
            && (v.Ok? ==>
                  && v.value.kind == Ascii(name)
                  && (if v.value.readOnly then name in {"select", "show", "describe", "desc", "explain", "with", "values"}
                      else name in {"insert", "update", "delete", "replace", "create", "alter", "drop", "truncate"}))
            && (v.Unsupported? ==>
                  name !in {"show", "describe", "desc", "explain", "with", "values",
                            "insert", "update", "delete", "replace", "create", "alter", "drop", "truncate"})
  {
    hide Trim, ScanFrom, Trivial, Classify, Lead, Spells, WrittenTokens, Ascii, SpaceWidth;
    var text := WrittenTokens(lead) + w + rest;
    var lead', rest' := LeadIsTrimmed(lead, w, name, rest);
    TrimmedStart(text);
    var v := Single(Trim(text));
    if v.Ok? {
      var rest'' := LeadStays(lead', w, name, rest', v.value);
      FirstWordDecides(lead', w, name, rest'', unsafe);
    }
  }
}
