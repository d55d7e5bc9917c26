/**
 Which values the redactor takes out of plain text: those assigned to ten names, and numbers.
 Names and byte classes are written out here, apart from the machine.
 */
module SqlRedactorSensitive {
  import opened Bytes
  import opened SqlRedactor
  import opened SqlRedactorLaws

  const NAMES: seq<string> :=
    ["password", "passwd", "pwd", "secret", "token", "authorization", "api_key", "access_token", "refresh_token",
     "client_secret"]

  /** The name in any letter case. */
  predicate Spells(id: bytes, name: string)
  {
    |id| == |name| && forall i | 0 <= i < |id| ::
      id[i] == name[i] as int || ('a' <= name[i] <= 'z' && id[i] == name[i] as int - 32)
  }

  /** Letters and underscore. */
  predicate LetterByte(b: byte) { 65 <= b <= 90 || 97 <= b <= 122 || b == 95 }

  /** Letters, underscore, digits and dollar. */
  predicate WordByte(b: byte) { LetterByte(b) || 48 <= b <= 57 || b == 36 }

  /** What a value is made of: word bytes, and . / + - */
  predicate ValueByte(b: byte) { WordByte(b) || b == 46 || b == 47 || b == 43 || b == 45 }

  /** What a number is made of: hexadecimal digits, and . x X + - */
  predicate NumberByte(b: byte)
  {
    48 <= b <= 57 || 97 <= b <= 102 || 65 <= b <= 70 || b == 46 || b == 120 || b == 88 || b == 43 || b == 45
  }

  /** Space, tab, carriage return, line feed. */
  predicate BlankByte(b: byte) { b == 32 || b == 9 || b == 13 || b == 10 }

  predicate Blanks(s: bytes) { forall i | 0 <= i < |s| :: BlankByte(s[i]) }

  predicate Value(s: bytes) { s != [] && forall i | 0 <= i < |s| :: ValueByte(s[i]) }

  predicate Number(s: bytes) { s != [] && 48 <= s[0] <= 57 && forall i | 0 <= i < |s| :: NumberByte(s[i]) }

  /** A word: it does not start with a digit or dollar, and fits the buffer. */
  predicate Word(s: bytes) { 1 <= |s| <= 256 && LetterByte(s[0]) && forall i | 0 <= i < |s| :: WordByte(s[i]) }

  /** An equals sign, a colon, or "by" in any case. */
  predicate By(sep: bytes) { |sep| == 2 && (sep[0] == 98 || sep[0] == 66) && (sep[1] == 121 || sep[1] == 89) }

  predicate Separator(sep: bytes) { sep == [61] || sep == [58] || By(sep) }

  /** How it is written: "by" in capitals. */
  function Shown(sep: bytes): bytes { if |sep| == 2 then [66, 89] else sep }

  lemma Classes(b: byte)
    ensures IdentifierStart(b) <==> LetterByte(b)
    ensures IdentifierPart(b) <==> WordByte(b)
    ensures ValuePart(b) <==> ValueByte(b)
    ensures NumberPart(b) <==> NumberByte(b)
    ensures IsBlank(b) <==> BlankByte(b)
  {
  }

  // ------------------------------------------------------------------- the names

  lemma SameName(id: bytes, name: string, key: bytes)
    requires |name| == |key| && forall i | 0 <= i < |name| :: key[i] == name[i] as int && ('a' <= name[i] <= 'z' || name[i] == '_')
    ensures EqualFold(id, key) <==> Spells(id, name)
  {
  }

  lemma ShortNames(id: bytes)
    ensures EqualFold(id, PASSWORD) <==> Spells(id, "password")
    ensures EqualFold(id, PASSWD) <==> Spells(id, "passwd")
    ensures EqualFold(id, PWD) <==> Spells(id, "pwd")
    ensures EqualFold(id, SECRET) <==> Spells(id, "secret")
    ensures EqualFold(id, TOKEN) <==> Spells(id, "token")
    ensures EqualFold(id, API_KEY) <==> Spells(id, "api_key")
  {
    hide EqualFold, Spells;
    SameName(id, "password", PASSWORD);
    SameName(id, "passwd", PASSWD);
    SameName(id, "pwd", PWD);
    SameName(id, "secret", SECRET);
    SameName(id, "token", TOKEN);
    SameName(id, "api_key", API_KEY);
  }

  lemma LongNames(id: bytes)
    ensures EqualFold(id, AUTHORIZATION) <==> Spells(id, "authorization")
    ensures EqualFold(id, ACCESS_TOKEN) <==> Spells(id, "access_token")
    ensures EqualFold(id, REFRESH_TOKEN) <==> Spells(id, "refresh_token")
    ensures EqualFold(id, CLIENT_SECRET) <==> Spells(id, "client_secret")
  {
    hide EqualFold, Spells;
    SameName(id, "authorization", AUTHORIZATION);
    SameName(id, "access_token", ACCESS_TOKEN);
    SameName(id, "refresh_token", REFRESH_TOKEN);
    SameName(id, "client_secret", CLIENT_SECRET);
  }

  predicate Listed(id: bytes) { exists name | name in NAMES :: Spells(id, name) }

  lemma TheNames()
    ensures forall name | name in NAMES ::
      name in {"password", "passwd", "pwd", "secret", "token", "authorization", "api_key", "access_token", "refresh_token",
               "client_secret"}
    ensures "password" in NAMES && "passwd" in NAMES && "pwd" in NAMES && "secret" in NAMES && "token" in NAMES
    ensures "authorization" in NAMES && "api_key" in NAMES && "access_token" in NAMES && "refresh_token" in NAMES
    ensures "client_secret" in NAMES
  {
    assert NAMES[0] == "password" && NAMES[1] == "passwd" && NAMES[2] == "pwd" && NAMES[3] == "secret" && NAMES[4] == "token";
    assert NAMES[5] == "authorization" && NAMES[6] == "api_key" && NAMES[7] == "access_token" && NAMES[8] == "refresh_token";
    assert NAMES[9] == "client_secret";
  }

  /** The machine knows exactly the ten names. */
  lemma KeysAreListed(id: bytes)
    ensures SensitiveKey(id) <==> Listed(id)
    ensures EqualFold(id, AUTHORIZATION) <==> Spells(id, "authorization")
  {
    hide EqualFold, Spells;
    TheNames();
    ShortNames(id);
    LongNames(id);
  }

  lemma SpelledIsWord(id: bytes, name: string)
    requires name in NAMES && Spells(id, name)
    ensures Word(id) && id[0] != 98 && id[0] != 66
  {
    NameIsPlain(name);
  }

  predicate PlainName(name: string)
  {
    1 <= |name| <= 256 && 'a' <= name[0] <= 'z' && name[0] != 'b' &&
    forall i | 0 <= i < |name| :: 'a' <= name[i] <= 'z' || name[i] == '_'
  }

  lemma PlainShort()
    ensures PlainName("password") && PlainName("passwd") && PlainName("pwd") && PlainName("secret") && PlainName("token")
    ensures PlainName("api_key")
  {
  }

  lemma PlainLong()
    ensures PlainName("authorization") && PlainName("access_token") && PlainName("refresh_token") && PlainName("client_secret")
  {
  }

  lemma NameIsPlain(name: string)
    requires name in NAMES
    ensures PlainName(name)
  {
    hide PlainName;
    TheNames();
    PlainShort();
    PlainLong();
  }

  // -------------------------------------------------------------------- contexts

  /** Where a word can start: in plain text, or after something that is not complete and turns out to be nothing. */
  predicate Plain(m: Machine)
  {
    m.Valid() && m.state in {Normal, Dash, Slash, QuotePending, SensitiveSeparator}
  }

  /** What was held back and now goes out. */
  function Lead(m: Machine): bytes
  {
    match m.state
    case Dash => [45]
    case Slash => [47]
    case QuotePending => [m.quote]
    case _ => []
  }

  /** The machine in plain text. */
  function Settled(m: Machine): Machine
  {
    m.(state := Normal,
       previous := match m.state
                   case Dash => 45
                   case Slash => 47
                   case QuotePending => m.quote
                   case _ => m.previous)
  }

  /** A byte that completes nothing. */
  lemma Settles(m: Machine, s: bytes)
    requires Plain(m) && s != [] && (LetterByte(s[0]) || 48 <= s[0] <= 57)
    requires m.state == SensitiveSeparator ==> s[0] != 98 && s[0] != 66
    ensures Run(m, s) == Result(Run(Settled(m), s).machine, Lead(m) + Run(Settled(m), s).out)
  {
    hide Run, Feed, SensitiveKey, EqualFold;
    if m.state == Normal {
      assert Settled(m) == m && [] + Run(m, s).out == Run(m, s).out;
    } else {
      Classes(s[0]);
      RunStep(m, s);
    }
  }

  // ----------------------------------------------------------------------- words

  lemma WordTakes(m: Machine, b: byte)
    requires m.Valid() && m.state == Identifier && |m.identifier| < 256 && WordByte(b)
    ensures Step(m, b) == Turn(m.(identifier := m.identifier + [b]), [], false) && Step(m, b).next.Valid()
  {
    Classes(b);
  }

  lemma {:induction false} WordGoesOn(m: Machine, s: bytes)
    requires m.Valid() && m.state == Identifier && |m.identifier| + |s| <= 256
    requires forall i | 0 <= i < |s| :: WordByte(s[i])
    ensures Run(m, s) == Result(m.(identifier := m.identifier + s), [])
    decreases |s|
  {
    hide Run, Feed, Step, SensitiveKey, EqualFold, WordByte, Machine.Valid;
    if s == [] {
      RunNil(m);
      assert m.identifier + s == m.identifier;
    } else {
      WordTakes(m, s[0]);
      RunOne(m, s);
      var next := m.(identifier := m.identifier + [s[0]]);
      WordGoesOn(next, s[1..]);
      assert m.identifier + [s[0]] + s[1..] == m.identifier + s;
    }
  }

  /** A word is held back until it ends. */
  lemma WordStarts(m: Machine, id: bytes)
    requires Plain(m) && Word(id) && (m.state == SensitiveSeparator ==> id[0] != 98 && id[0] != 66)
    ensures Run(m, id) == Result(Settled(m).(identifier := id, state := Identifier), Lead(m))
  {
    hide Run, Feed, SensitiveKey, EqualFold;
    Settles(m, id);
    Classes(id[0]);
    RunOne(Settled(m), id);
    WordGoesOn(Settled(m).(identifier := [id[0]], state := Identifier), id[1..]);
    assert [id[0]] + id[1..] == id && Lead(m) + ([] + []) == Lead(m);
  }

  /** What it leaves when it ends. */
  function Ended(m: Machine, id: bytes): Machine
    requires id != []
  {
    m.(identifier := [], previous := id[|id| - 1], sensitiveParts := if Spells(id, "authorization") then 2 else 1,
       state := if Listed(id) then SensitiveSeparator else Normal)
  }

  lemma WordEnds(m: Machine, id: bytes, rest: bytes)
    requires Plain(m) && Word(id) && (m.state == SensitiveSeparator ==> id[0] != 98 && id[0] != 66)
    requires rest != [] && !WordByte(rest[0])
    ensures Run(m, id + rest) == Result(Run(Ended(m, id), rest).machine, Lead(m) + id + Run(Ended(m, id), rest).out)
  {
    hide Run, Feed, SensitiveKey, EqualFold, Listed, Spells;
    WordStarts(m, id);
    RunConcat(m, id, rest);
    Classes(rest[0]);
    KeysAreListed(id);
    var held := Settled(m).(identifier := id, state := Identifier);
    RunStep(held, rest);
    assert Lead(m) + (id + Run(Ended(m, id), rest).out) == Lead(m) + id + Run(Ended(m, id), rest).out;
  }

  /** A word that is none of the ten goes out as it is, and what follows it is read as plain text. */
  lemma OtherWordsShow(m: Machine, id: bytes, rest: bytes)
    requires Plain(m) && Word(id) && (m.state == SensitiveSeparator ==> id[0] != 98 && id[0] != 66)
    requires rest != [] && !WordByte(rest[0]) && forall name | name in NAMES :: !Spells(id, name)
    ensures var after := m.(identifier := [], previous := id[|id| - 1], sensitiveParts := 1, state := Normal);
            Run(m, id + rest) == Result(Run(after, rest).machine, Lead(m) + id + Run(after, rest).out)
  {
    hide Run, Feed, SensitiveKey, EqualFold, Spells;
    WordEnds(m, id, rest);
    TheNames();
  }

  // ----------------------------------------------------------------- assignments

  /** Blanks are written as they are, before and after the separator. */
  lemma {:induction false} BlanksShow(m: Machine, s: bytes)
    requires m.Valid() && (m.state == SensitiveSeparator || m.state == SensitiveValueStart) && Blanks(s)
    ensures Run(m, s) == Result(m, s)
    decreases |s|
  {
    hide Feed, SensitiveKey, EqualFold;
    if s != [] {
      Classes(s[0]);
      RunOne(m, s);
      BlanksShow(m, s[1..]);
      assert [s[0]] + s[1..] == s;
    }
  }

  lemma SeparatorReads(m: Machine, sep: bytes)
    requires m.Valid() && m.state == SensitiveSeparator && Separator(sep)
    ensures Run(m, sep) == Result(m.(state := SensitiveValueStart), Shown(sep))
  {
    hide Feed, SensitiveKey, EqualFold;
    RunOne(m, sep);
    if By(sep) {
      RunOne(m.(state := SensitiveB), sep[1..]);
      assert sep[1..][1..] == [];
    } else {
      assert sep[1..] == [];
    }
  }

  lemma {:induction false} ValueGoesOn(m: Machine, s: bytes)
    requires m.Valid() && m.state == SensitiveValue && forall i | 0 <= i < |s| :: ValueByte(s[i])
    ensures Run(m, s) == Result(m, [])
    decreases |s|
  {
    hide Feed, SensitiveKey, EqualFold;
    if s != [] {
      Classes(s[0]);
      RunOne(m, s);
      ValueGoesOn(m, s[1..]);
    }
  }

  lemma ValueReads(m: Machine, s: bytes)
    requires m.Valid() && m.state == SensitiveValueStart && Value(s)
    ensures Run(m, s) == Result(m.(state := SensitiveValue), MARKER)
  {
    hide Feed, SensitiveKey, EqualFold;
    Classes(s[0]);
    RunOne(m, s);
    ValueGoesOn(m.(state := SensitiveValue), s[1..]);
    assert !BlankByte(s[0]) && MARKER + [] == MARKER;
  }

  /** From the separator to the value. */
  lemma AssignedReads(m: Machine, pre: bytes, sep: bytes, post: bytes, value: bytes)
    requires m.Valid() && m.state == SensitiveSeparator && Blanks(pre) && Separator(sep) && Blanks(post) && Value(value)
    ensures Run(m, pre + sep + post + value) == Result(m.(state := SensitiveValue), pre + Shown(sep) + post + MARKER)
  {
    hide Run, Feed, SensitiveKey, EqualFold, Separator, Blanks, Value, Machine.Valid;
    BlanksShow(m, pre);
    RunConcat(m, pre, sep);
    SeparatorReads(m, sep);
    var start := m.(state := SensitiveValueStart);
    assert start.Valid() by { PlainStates(m, start); }
    RunConcat(m, pre + sep, post);
    BlanksShow(start, post);
    RunConcat(m, pre + sep + post, value);
    ValueReads(start, value);
  }

  lemma PlainStates(m: Machine, n: Machine)
    requires n.state == SensitiveValueStart || n.state == SensitiveSeparator || n.state == SensitiveValue
    ensures n.Valid()
  {
  }

  /** A name and what is assigned to it. */
  predicate Assignment(id: bytes, name: string, pre: bytes, sep: bytes, post: bytes)
  {
    && name in NAMES && Spells(id, name)
    && Blanks(pre) && Separator(sep) && Blanks(post) && (By(sep) ==> pre != [])
  }

  /** Written with the marker in the place of the value, whatever the value is. */
  lemma AssignmentIsRedacted(m: Machine, id: bytes, name: string, pre: bytes, sep: bytes, post: bytes, value: bytes)
    requires Plain(m) && Assignment(id, name, pre, sep, post) && Value(value)
    ensures id != [] && Run(m, id + (pre + sep + post + value)) ==
            Result(m.(state := SensitiveValue, previous := id[|id| - 1], identifier := [],
                      sensitiveParts := if name == "authorization" then 2 else 1),
                   Lead(m) + id + (pre + Shown(sep) + post + MARKER))
  {
    hide Run, Feed, SensitiveKey, EqualFold, Value, Spells, Machine.Valid, Word;
    SpelledIsWord(id, name);
    assert id != [] by { WordIsSome(id); }
    var rest := pre + sep + post + value;
    assert rest[0] == if pre != [] then pre[0] else sep[0];
    WordEnds(m, id, rest);
    OneName(id, name);
    PlainStates(m, Ended(m, id));
    AssignedReads(Ended(m, id), pre, sep, post, value);
  }

  lemma WordIsSome(id: bytes)
    requires Word(id)
    ensures id != []
  {
  }

  /** Only one name is spelled. */
  lemma OneName(id: bytes, name: string)
    requires name in NAMES && Spells(id, name)
    ensures Listed(id) && (Spells(id, "authorization") <==> name == "authorization")
  {
    TheNames();
    if |name| == 13 {
      assert name == "authorization" || name[0] == 'r' || name[0] == 'c';
    }
  }

  /** Wherever one of the ten names stands in plain text, two values in its place give the same output and registers. */
  lemma SensitiveValuesDoNotShow(before: bytes, id: bytes, name: string, pre: bytes, sep: bytes, post: bytes,
      a: bytes, b: bytes, after: bytes)
    requires Plain(Run(START, before).machine) && Assignment(id, name, pre, sep, post) && Value(a) && Value(b)
    ensures Redact(before + (id + (pre + sep + post + a)) + after) == Redact(before + (id + (pre + sep + post + b)) + after)
    ensures Run(START, before + (id + (pre + sep + post + a))) == Run(START, before + (id + (pre + sep + post + b)))
  {
    hide Run, Feed, Step, Assignment, Value;
    var m := Run(START, before).machine;
    AssignmentIsRedacted(m, id, name, pre, sep, post, a);
    AssignmentIsRedacted(m, id, name, pre, sep, post, b);
    ExchangeInContext(before, id + (pre + sep + post + a), id + (pre + sep + post + b), after);
  }

  /** A value ends at the first byte that is not of a value; that byte is read as plain text. */
  lemma ValueEnds(m: Machine, rest: bytes)
    requires m.Valid() && m.state == SensitiveValue && rest != [] && !ValueByte(rest[0])
    requires m.sensitiveParts <= 1 || !BlankByte(rest[0])
    ensures Run(m, rest) == Run(m.(state := Normal), rest)
  {
    hide Run, Feed, SensitiveKey, EqualFold;
    Classes(rest[0]);
    RunStep(m, rest);
    assert [] + Run(m.(state := Normal), rest).out == Run(m.(state := Normal), rest).out;
  }

  /** An authorization has two values, with blanks between them; neither shows. */
  lemma SecondValueIsRedacted(m: Machine, blanks: bytes, value: bytes)
    requires m.Valid() && m.state == SensitiveValue && m.sensitiveParts == 2 && blanks != [] && Blanks(blanks) && Value(value)
    ensures Run(m, blanks + value) == Result(m.(sensitiveParts := 1), blanks + MARKER)
  {
    hide Run, Feed, SensitiveKey, EqualFold, Value;
    var start := m.(sensitiveParts := 1, state := SensitiveValueStart);
    Classes(blanks[0]);
    RunOne(m, blanks);
    BlanksShow(start, blanks[1..]);
    assert [blanks[0]] + blanks[1..] == blanks;
    RunConcat(m, blanks, value);
    ValueReads(start, value);
  }

  // --------------------------------------------------------------------- numbers

  lemma {:induction false} NumberGoesOn(m: Machine, s: bytes)
    requires m.Valid() && m.state == Numeric && forall i | 0 <= i < |s| :: NumberByte(s[i])
    ensures Run(m, s) == Result(m, [])
    decreases |s|
  {
    hide Feed, SensitiveKey, EqualFold;
    if s != [] {
      Classes(s[0]);
      RunOne(m, s);
      NumberGoesOn(m, s[1..]);
    }
  }

  /** Where a digit starts a number: in plain text after a byte that is not of a word, or after a lone dash, slash or quote. */
  predicate BeforeNumber(m: Machine)
  {
    m.Valid() && ((m.state == Normal && !WordByte(m.previous)) || m.state in {Dash, Slash, QuotePending})
  }

  /** A number is written as the marker. */
  lemma NumberIsRedacted(m: Machine, s: bytes)
    requires BeforeNumber(m) && Number(s)
    ensures Run(m, s) == Result(Settled(m).(state := Numeric), Lead(m) + MARKER)
  {
    hide Run, Feed, SensitiveKey, EqualFold;
    Settles(m, s);
    var plain := Settled(m);
    Classes(s[0]);
    Classes(plain.previous);
    RunStep(plain, s);
    NumberGoesOn(plain.(state := Numeric), s);
    assert MARKER + [] == MARKER;
  }

  /** Two numbers in the same place give the same output and registers. */
  lemma NumbersDoNotShow(before: bytes, a: bytes, b: bytes, after: bytes)
    requires BeforeNumber(Run(START, before).machine) && Number(a) && Number(b)
    ensures Redact(before + a + after) == Redact(before + b + after) && Run(START, before + a) == Run(START, before + b)
  {
    hide Run, Feed, Step, Number;
    var m := Run(START, before).machine;
    NumberIsRedacted(m, a);
    NumberIsRedacted(m, b);
    ExchangeInContext(before, a, b, after);
  }

  /** A number ends at the first byte that is not of a number; that byte is read as plain text. */
  lemma NumberEnds(m: Machine, rest: bytes)
    requires m.Valid() && m.state == Numeric && rest != [] && !NumberByte(rest[0])
    ensures Run(m, rest) == Run(m.(state := Normal), rest)
  {
    hide Run, Feed, SensitiveKey, EqualFold;
    Classes(rest[0]);
    RunStep(m, rest);
    assert [] + Run(m.(state := Normal), rest).out == Run(m.(state := Normal), rest).out;
  }

  /** After a byte of a word a digit is no number, and shows. */
  lemma DigitsOfWordsShow(m: Machine, d: byte, rest: bytes)
    requires m.Valid() && m.state == Normal && WordByte(m.previous) && 48 <= d <= 57
    ensures Run(m, [d] + rest) == Result(Run(m.(previous := d), rest).machine, [d] + Run(m.(previous := d), rest).out)
  {
    hide Run, Feed, SensitiveKey, EqualFold;
    Classes(d);
    Classes(m.previous);
    RunOne(m, [d] + rest);
    assert ([d] + rest)[1..] == rest;
  }

  // --------------------------------------------------------- dollar-quoted text

  /** What may stand between the dollars of a tag: nothing, or a word without dollars. */
  predicate TagName(name: bytes)
  {
    |name| < 65536 && (name != [] ==> LetterByte(name[0])) && forall i | 0 <= i < |name| :: WordByte(name[i]) && name[i] != 36
  }

  lemma TagTakes(m: Machine, b: byte)
    requires m.Valid() && m.state == DollarCandidate && |m.dollarTag| < 65536 && WordByte(b) && b != 36
    requires |m.dollarTag| == 1 ==> LetterByte(b)
    ensures Step(m, b) == Turn(m.(dollarTag := m.dollarTag + [b]), [], false) && Step(m, b).next.Valid()
  {
    Classes(b);
  }

  lemma {:induction false} TagGoesOn(m: Machine, s: bytes)
    requires m.Valid() && m.state == DollarCandidate && |m.dollarTag| + |s| <= 65536
    requires forall i | 0 <= i < |s| :: WordByte(s[i]) && s[i] != 36
    requires |m.dollarTag| == 1 && s != [] ==> LetterByte(s[0])
    ensures Run(m, s) == Result(m.(dollarTag := m.dollarTag + s), [])
    decreases |s|
  {
    hide Run, Feed, Step, WordByte, LetterByte, Machine.Valid;
    if s == [] {
      RunNil(m);
      assert m.dollarTag + s == m.dollarTag;
    } else {
      TagTakes(m, s[0]);
      RunOne(m, s);
      assert |m.dollarTag| >= 1 by { TagIsOpen(m); }
      TagGoesOn(m.(dollarTag := m.dollarTag + [s[0]]), s[1..]);
      assert m.dollarTag + [s[0]] + s[1..] == m.dollarTag + s;
    }
  }

  lemma TagIsOpen(m: Machine)
    requires m.Valid() && m.state == DollarCandidate
    ensures |m.dollarTag| >= 1
  {
  }

  /** Between two equal tags everything is written as one marker, as long as the tag does not occur earlier. */
  lemma DollarTextIsRedacted(m: Machine, name: bytes, inside: bytes)
    requires m.Valid() && m.state == Normal && TagName(name) && NoOccurrence(inside + ([36] + name), [36] + name + [36])
    ensures var tag := [36] + name + [36];
            Run(m, [36] + name + ([36] + inside + tag)) ==
            Result(m.(previous := 36, dollarMatch := 0, dollarTag := [], state := Normal), tag + MARKER + tag)
  {
    hide Run, Feed, NoOccurrence, SensitiveKey, EqualFold;
    var tag, s := [36] + name + [36], [36] + name;
    var start := m.(dollarTag := [36], state := DollarCandidate);
    RunOne(m, s);
    assert s[1..] == name;
    TagGoesOn(start, name);
    RunConcat(m, s, [36] + inside + tag);
    DollarLiteral(start.(dollarTag := s), tag, inside);
    assert [] + ([] + (tag + MARKER + tag)) == tag + MARKER + tag;
  }

  // ------------------------------------------------------------ text as it shows

  /** The marker and the fixed comments, as text. */
  lemma MarkersSpelled()
    ensures Spells(MARKER, "[REDACTED]") && |LINE_COMMENT| == 13 && LINE_COMMENT == [45, 45, 32] + MARKER
    ensures HASH_COMMENT == [35, 32] + MARKER && BLOCK_COMMENT == [47, 42, 32] + MARKER + [32, 42, 47]
  {
  }
}
